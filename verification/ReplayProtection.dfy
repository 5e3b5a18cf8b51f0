/**
  Nonces over runs of blocks: which of them a ledger holds, how long one keeps every other transaction that names it
  out, and that in a chain of valid blocks no two transactions of the legacy form share a nonce.
 */
module ReplayProtection {
  import opened Basics
  import opened Entries
  import opened LegacyTx
  import M = MapTx
  import TM = TxMapper
  import S = StateValue
  import opened ApplyRules
  import opened Replay
  import B = BlockRules
  import Generator

  // ---------------------------------------------------------------- what is held after a run

  /** A transaction of block i names the nonce, with the given expiry. */
  ghost predicate UsedAt(blocks: seq<S.Block>, i: nat, n: Hash, x: nat)
  {
    i < |blocks| && exists t :: t in blocks[i].transactions && n in t.nonceIds && ExpiresAt(t, n, x)
  }

  /** No block from i on is later than the expiry. */
  ghost predicate NotOutlived(blocks: seq<S.Block>, i: nat, x: nat)
  {
    forall j :: i <= j < |blocks| ==> blocks[j].timestamp <= x
  }

  /** The nonce was held at the start or named by a block, and no later block outlived it. */
  ghost predicate StillHeld(s: S.State, blocks: seq<S.Block>, n: Hash, x: nat)
  {
    || (n in s.nonces && s.nonces[n] == x && NotOutlived(blocks, 0, x))
    || (exists i: nat :: UsedAt(blocks, i, n, x) && NotOutlived(blocks, i + 1, x))
  }

  lemma {:induction false} HeldBefore(s: S.State, blocks: seq<S.Block>, n: Hash, x: nat)
    requires blocks != [] && StillHeld(s, blocks, n, x) && !UsedAt(blocks, |blocks| - 1, n, x)
    ensures StillHeld(s, blocks[..|blocks| - 1], n, x) && blocks[|blocks| - 1].timestamp <= x
  {
    var shorter := blocks[..|blocks| - 1];
    if i: nat :| UsedAt(blocks, i, n, x) && NotOutlived(blocks, i + 1, x) {
      assert UsedAt(shorter, i, n, x) && NotOutlived(shorter, i + 1, x);
    } else {
      assert NotOutlived(shorter, 0, x);
    }
  }

  lemma {:induction false} HeldOn(s: S.State, blocks: seq<S.Block>, n: Hash, x: nat)
    requires blocks != [] && StillHeld(s, blocks[..|blocks| - 1], n, x) && blocks[|blocks| - 1].timestamp <= x
    ensures StillHeld(s, blocks, n, x)
  {
    var shorter := blocks[..|blocks| - 1];
    if i: nat :| UsedAt(shorter, i, n, x) && NotOutlived(shorter, i + 1, x) {
      assert UsedAt(blocks, i, n, x) && NotOutlived(blocks, i + 1, x);
    } else {
      assert NotOutlived(blocks, 0, x);
    }
  }

  lemma {:induction false} StillHeldSnoc(s: S.State, blocks: seq<S.Block>, n: Hash, x: nat)
    requires blocks != []
    ensures StillHeld(s, blocks, n, x) <==>
              || (StillHeld(s, blocks[..|blocks| - 1], n, x) && blocks[|blocks| - 1].timestamp <= x)
              || UsedAt(blocks, |blocks| - 1, n, x)
  {
    var last := |blocks| - 1;
    if UsedAt(blocks, last, n, x) {
      assert NotOutlived(blocks, last + 1, x);
    } else {
      hide StillHeld, UsedAt;
      if StillHeld(s, blocks, n, x) { HeldBefore(s, blocks, n, x); }
      if StillHeld(s, blocks[..last], n, x) && blocks[last].timestamp <= x { HeldOn(s, blocks, n, x); }
    }
  }

  /** A nonce and its expiry, as the state holds them. */
  ghost predicate Holds(s: S.State, n: Hash, x: nat)
  {
    n in s.nonces && s.nonces[n] == x
  }

  lemma {:induction false} HoldsAfterBlock(s: S.State, b: S.Block, n: Hash, x: nat)
    requires S.Valid(s) && S.ApplyBlock(s, b).err.None?
    ensures Holds(S.ApplyBlock(s, b).state, n, x) <==>
              || (Holds(s, n, x) && b.timestamp <= x)
              || (exists t :: t in b.transactions && n in t.nonceIds && ExpiresAt(t, n, x))
  {
    hide S.ApplyBlock, S.Valid;
    BlockNonces(s, b);
    var after := S.ApplyBlock(s, b).state.nonces;
    if n in after && Names(b.transactions, n) {
      var t :| t in b.transactions && n in t.nonceIds;
      assert ExpiresAt(t, n, after[n]);
    }
    if t :| t in b.transactions && n in t.nonceIds && ExpiresAt(t, n, x) {
      assert Names(b.transactions, n) && ExpiresAt(t, n, after[n]);
    }
  }

  /** After any run of blocks the nonces held are exactly those that were named and not outlived. */
  lemma {:induction false} HeldExactly(s: S.State, blocks: seq<S.Block>, n: Hash, x: nat)
    requires S.Valid(s) && ApplyBlocks(s, blocks).err.None?
    ensures Holds(ApplyBlocks(s, blocks).state, n, x) <==> StillHeld(s, blocks, n, x)
    decreases |blocks|
  {
    hide S.ApplyBlock, S.Valid, StillHeld, Holds;
    if blocks == [] {
      NothingYet(s, n, x);
    } else {
      var shorter, b := blocks[..|blocks| - 1], blocks[|blocks| - 1];
      HeldExactly(s, shorter, n, x);
      HoldsAfterBlock(ApplyBlocks(s, shorter).state, b, n, x);
      StillHeldSnoc(s, blocks, n, x);
    }
  }

  lemma {:induction false} NothingYet(s: S.State, n: Hash, x: nat)
    ensures StillHeld(s, [], n, x) <==> Holds(s, n, x)
  {
    assert NotOutlived([], 0, x);
  }

  // ---------------------------------------------------------------- a nonce keeps others out

  lemma {:induction false} BlocksPrefix(s: S.State, blocks: seq<S.Block>, k: nat)
    requires S.Valid(s) && k <= |blocks| && ApplyBlocks(s, blocks).err.None?
    ensures ApplyBlocks(s, blocks[..k]).err.None?
    ensures k < |blocks| ==> S.ApplyBlock(ApplyBlocks(s, blocks[..k]).state, blocks[k]).err.None?
    decreases |blocks|
  {
    hide S.ApplyBlock, S.Valid;
    if k == |blocks| {
      assert blocks[..k] == blocks;
    } else if k < |blocks| - 1 {
      BlocksPrefix(s, blocks[..|blocks| - 1], k);
      assert blocks[..|blocks| - 1][..k] == blocks[..k];
    }
  }

  /** Two uses of a nonce in different blocks are set apart by a block later than the expiry of the first. */
  lemma {:induction false} UsesSetApart(s: S.State, blocks: seq<S.Block>, i: nat, j: nat, n: Hash, x: nat)
    requires S.Valid(s) && ApplyBlocks(s, blocks).err.None?
    requires i < j < |blocks| && UsedAt(blocks, i, n, x) && Names(blocks[j].transactions, n)
    ensures exists k :: i < k <= j && blocks[k].timestamp > x
  {
    hide S.ApplyBlock, S.Valid, ApplyBlocks;
    var before := blocks[..j];
    BlocksPrefix(s, blocks, j);
    if forall k :: i < k <= j ==> blocks[k].timestamp <= x {
      assert UsedAt(before, i, n, x) && NotOutlived(before, i + 1, x);
      HeldExactly(s, before, n, x);
      BlockNonces(ApplyBlocks(s, before).state, blocks[j]);
    }
  }

  /**
   * While a nonce is not outlived, every transaction that names it fails, with ConflictingNonce if its own nonces
   * have an expiry; and so does every block that has such a transaction and is not later than the expiry.
   */
  lemma {:induction false} RefusedWhileHeld(s: S.State, blocks: seq<S.Block>, i: nat, n: Hash, x: nat, u: Tx)
    requires S.Valid(s) && ApplyBlocks(s, blocks).err.None?
    requires UsedAt(blocks, i, n, x) && NotOutlived(blocks, i + 1, x) && n in u.nonceIds
    ensures S.ApplyTx(ApplyBlocks(s, blocks).state, u).err in {Some(S.ConflictingNonce), Some(S.BadNonce)}
    ensures (forall m :: m in u.nonceIds ==> Expires(u, m)) ==>
              S.ApplyTx(ApplyBlocks(s, blocks).state, u).err == Some(S.ConflictingNonce)
    ensures forall b: S.Block :: u in b.transactions && b.timestamp <= x ==> S.ApplyBlock(ApplyBlocks(s, blocks).state, b).err.Some?
  {
    hide S.ApplyBlock, S.ApplyTx, S.Valid, ApplyBlocks, Expires, UsedAt, NotOutlived, Spendable;
    HeldExactly(s, blocks, n, x);
    var now := ApplyBlocks(s, blocks).state;
    ApplyTxExact(now, u);
    HeldRefuses(now, u, n);
    forall b: S.Block | u in b.transactions && b.timestamp <= x ensures S.ApplyBlock(now, b).err.Some? {
      if S.ApplyBlock(now, b).err.None? { BlockNonces(now, b); }
    }
  }

  lemma {:induction false} HeldRefuses(s: S.State, u: Tx, n: Hash)
    requires n in s.nonces && n in u.nonceIds
    ensures !AllRecordable(s, u, u.nonceIds)
    ensures (forall m :: m in u.nonceIds ==> Expires(u, m)) ==>
              exists i :: 0 <= i < |u.nonceIds| && ConflictsFirst(s, u, u.nonceIds, i)
  {
    hide Expires;
    var k :| 0 <= k < |u.nonceIds| && u.nonceIds[k] == n;
    assert !Recordable(s, u, u.nonceIds, k);
    var i := FirstUnrecordable(s, u, u.nonceIds);
    assert u.nonceIds[i] in u.nonceIds;
    if forall m :: m in u.nonceIds ==> Expires(u, m) {
      assert ConflictsFirst(s, u, u.nonceIds, i);
    }
  }

  // ---------------------------------------------------------------- chains of valid blocks

  /** Every block after the first is valid after the one before it. */
  ghost predicate ValidChain(rules: Generator.Rules, blocks: seq<S.Block>)
  {
    forall k :: 0 < k < |blocks| ==> blocks[k].height > 1 && Generator.ValidateBlock(rules, blocks[k], Some(blocks[k - 1])).None?
  }

  lemma {:induction false} TimesGrow(rules: Generator.Rules, blocks: seq<S.Block>, i: nat, j: nat)
    requires ValidChain(rules, blocks) && i <= j < |blocks|
    ensures blocks[i].timestamp <= blocks[j].timestamp
    decreases j - i
  {
    hide Generator.ValidateBlock, B.FitsBlock;
    if i < j {
      TimesGrow(rules, blocks, i, j - 1);
      B.ValidateBlockExact(rules, blocks[j], Some(blocks[j - 1]));
    }
  }

  /** In a chain of valid blocks a nonce that expires with its transactions is named by one transaction only. */
  lemma {:induction false} NamedOnce(rules: Generator.Rules, s: S.State, blocks: seq<S.Block>, i: nat, p: nat, j: nat, q: nat, n: Hash, x: nat)
    requires S.Valid(s) && ApplyBlocks(s, blocks).err.None? && ValidChain(rules, blocks)
    requires i <= j < |blocks| && p < |blocks[i].transactions| && q < |blocks[j].transactions|
    requires n in blocks[i].transactions[p].nonceIds && n in blocks[j].transactions[q].nonceIds
    requires ExpiresAt(blocks[i].transactions[p], n, x)
    requires var u := blocks[j].transactions[q]; B.HasHeader(u) && 0 < u.entries[u.id].maxTimeMs <= x
    ensures i == j && p == q
  {
    hide S.ApplyBlock, S.Valid, ApplyBlocks, ExpiresAt, Generator.ValidateBlock;
    var t, u := blocks[i].transactions[p], blocks[j].transactions[q];
    if i < j {
      assert t in blocks[i].transactions && u in blocks[j].transactions;
      B.ValidateBlockExact(rules, blocks[j], Some(blocks[j - 1]));
      assert B.FitsBlock(rules, blocks[j], u);
      UsesSetApart(s, blocks, i, j, n, x);
      var k :| i < k <= j && blocks[k].timestamp > x;
      TimesGrow(rules, blocks, k, j);
    } else {
      BlocksPrefix(s, blocks, i);
      BlockNonces(ApplyBlocks(s, blocks[..i]).state, blocks[i]);
    }
  }

  // ---------------------------------------------------------------- transactions of the legacy form

  /** The nonces of a mapped transaction expire at the transaction's own maximum time. */
  lemma {:induction false} MappedNonceExpires(env: Env, td: TxData, tx: Tx, n: Hash)
    requires Hashable(env, td) && Mapped(env, td, tx) && n in tx.nonceIds
    ensures ExpiresAt(tx, n, td.maxTime)
    ensures B.HasHeader(tx) && tx.entries[tx.id].maxTimeMs == td.maxTime
    ensures exists i :: 0 <= i < |td.inputs| && UsesNonce(env, td, i, n)
  {
    hide Hashable, HoldsBodies, SpendOf, IssuanceOf, NonceOf, NonceProgram, Bodies;
    assert n in NonceIds(env, td);
    var i :| 0 <= i < |td.inputs| && td.inputs[i].IssuanceInput? && |td.inputs[i].nonce| > 0 && NonceId(env, td, td.inputs[i]) == n;
    assert UsesNonce(env, td, i, n);
    NonceBody(env, td, tx, i);
    HeaderBody(env, td, tx);
  }

  lemma {:induction false} NonceBody(env: Env, td: TxData, tx: Tx, i: nat)
    requires Hashable(env, td) && HoldsBodies(env, td, tx.entries)
    requires i < |td.inputs| && td.inputs[i].IssuanceInput? && |td.inputs[i].nonce| > 0
    ensures ExpiresAt(tx, NonceId(env, td, td.inputs[i]), td.maxTime)
  {
    hide Hashable, HoldsBodies, NonceProgram, Bodies;
    M.NonceAt(env, td, tx.entries, i);
    TM.IssuanceFacts(env, td, i);
    M.BodyAt(env, td, tx.entries, Body(NonceEntry(env, td, td.inputs[i])));
  }

  lemma {:induction false} HeaderBody(env: Env, td: TxData, tx: Tx)
    requires Hashable(env, td) && HoldsBodies(env, td, tx.entries) && tx.id == env.EntryId(HeaderEntry(env, td))
    ensures B.HasHeader(tx) && tx.entries[tx.id].maxTimeMs == td.maxTime
  {
    hide Hashable, HoldsBodies;
    assert HeaderEntry(env, td) in Bodies(env, td);
    M.BodyAt(env, td, tx.entries, HeaderEntry(env, td));
  }

  /** Transactions that share a nonce have the same maximum time, where the hash function does not collide on their entries. */
  lemma {:induction false} SharedNonceSharedTimes(env: Env, td: TxData, td': TxData, i: nat, i': nat)
    requires CollisionFree(env, Bodies(env, td) + Bodies(env, td'))
    requires i < |td.inputs| && td.inputs[i].IssuanceInput? && |td.inputs[i].nonce| > 0
    requires i' < |td'.inputs| && td'.inputs[i'].IssuanceInput? && |td'.inputs[i'].nonce| > 0
    requires NonceId(env, td, td.inputs[i]) == NonceId(env, td', td'.inputs[i'])
    ensures td.minTime == td'.minTime && td.maxTime == td'.maxTime
  {
    hide Bodies, NonceProgram;
    TM.IssuanceFacts(env, td, i);
    TM.IssuanceFacts(env, td', i');
    var b, b' := Body(NonceEntry(env, td, td.inputs[i])), Body(NonceEntry(env, td', td'.inputs[i']));
    assert env.hashOf(b) == env.hashOf(b');
    var r, r' := TimeRangeEntry(td), TimeRangeEntry(td');
    assert env.hashOf(r) == env.hashOf(r');
  }

  /**
   * No replay: in a chain of valid blocks no two transactions made from the legacy form name the same nonce, where
   * they set a maximum time, as valid transactions with a nonce do.
   */
  lemma {:induction false} NoReplay(rules: Generator.Rules, s: S.State, blocks: seq<S.Block>, env: Env,
                                    td: TxData, td': TxData, i: nat, p: nat, j: nat, q: nat, n: Hash)
    requires S.Valid(s) && ApplyBlocks(s, blocks).err.None? && ValidChain(rules, blocks)
    requires i <= j < |blocks| && p < |blocks[i].transactions| && q < |blocks[j].transactions|
    requires Hashable(env, td) && Mapped(env, td, blocks[i].transactions[p]) && n in blocks[i].transactions[p].nonceIds
    requires Hashable(env, td') && Mapped(env, td', blocks[j].transactions[q]) && n in blocks[j].transactions[q].nonceIds
    requires CollisionFree(env, Bodies(env, td) + Bodies(env, td')) && td'.maxTime > 0
    ensures i == j && p == q
  {
    hide Hashable, Mapped, CollisionFree, ValidChain, ApplyBlocks, S.Valid, ExpiresAt;
    MappedNonceExpires(env, td, blocks[i].transactions[p], n);
    MappedNonceExpires(env, td', blocks[j].transactions[q], n);
    var k :| 0 <= k < |td.inputs| && UsesNonce(env, td, k, n);
    var k' :| 0 <= k' < |td'.inputs| && UsesNonce(env, td', k', n);
    SharedNonceSharedTimes(env, td, td', k, k');
    NamedOnce(rules, s, blocks, i, p, j, q, n, td.maxTime);
  }
}
