/**
  The rules for blocks without the order in which the source tests them: when exactly a block is valid, what it
  is refused for, which candidates a generated block takes, and what its two roots fix.
 */
module BlockRules {
  import opened Basics
  import opened Entries
  import P = PatriciaHistory
  import R = TreeRoots
  import M = Merkle
  import S = StateValue
  import A = ApplyRules
  import Replay
  import opened Generator

  // ---------------------------------------------------------------- validation

  /** The block comes right after the previous one. */
  predicate Follows(b: S.Block, prev: S.Block)
  {
    && b.version >= prev.version && b.height == prev.height + 1
    && b.previousBlockId == prev.id && b.timestamp > prev.timestamp
  }

  predicate HasHeader(t: Tx)
  {
    t.id in t.entries && t.entries[t.id].TxHeader?
  }

  /** The time is inside the transaction's own bounds, as far as it sets any. */
  predicate InTime(t: Tx, now: nat)
  {
    HasHeader(t) ==>
      && var header := t.entries[t.id];
      && (header.maxTimeMs == 0 || now <= header.maxTimeMs)
      && (header.minTimeMs == 0 || header.minTimeMs <= now)
  }

  predicate RightVersion(b: S.Block, t: Tx)
  {
    b.version == 1 ==> HasHeader(t) && t.entries[t.id].version == 1
  }

  /** What the validator asks of one transaction; a block with timestamp zero is not too early for anything. */
  predicate FitsBlock(rules: Rules, b: S.Block, t: Tx)
  {
    && rules.validTx(t) && RightVersion(b, t)
    && (HasHeader(t) ==>
          && var header := t.entries[t.id];
          && (header.maxTimeMs == 0 || b.timestamp <= header.maxTimeMs)
          && (header.minTimeMs == 0 || b.timestamp == 0 || header.minTimeMs <= b.timestamp))
  }

  lemma {:induction false} CheckTxIs(rules: Rules, b: S.Block, t: Tx)
    ensures CheckTx(rules, b, t).None? <==> FitsBlock(rules, b, t)
    ensures CheckTx(rules, b, t) == Some(BadTxVersion) <==> !RightVersion(b, t)
    ensures CheckTx(rules, b, t) == Some(InvalidTx) ==> !rules.validTx(t)
    ensures CheckTx(rules, b, t) == Some(UntimelyTx) ==> !InTime(t, b.timestamp)
    ensures CheckTx(rules, b, t).Some? ==> CheckTx(rules, b, t).value in {BadTxVersion, InvalidTx, UntimelyTx}
  {
  }

  lemma {:induction false} CheckTxsIs(rules: Rules, b: S.Block, txs: seq<Tx>)
    ensures CheckTxs(rules, b, txs).None? <==> forall t :: t in txs ==> FitsBlock(rules, b, t)
    ensures CheckTxs(rules, b, txs).Some? ==>
              exists i :: 0 <= i < |txs| && CheckTxs(rules, b, txs) == CheckTx(rules, b, txs[i])
                && forall j :: 0 <= j < i ==> FitsBlock(rules, b, txs[j])
    decreases |txs|
  {
    hide CheckTx, FitsBlock;
    if txs != [] {
      var shorter, t := txs[..|txs| - 1], txs[|txs| - 1];
      CheckTxsIs(rules, b, shorter);
      CheckTxIs(rules, b, t);
      assert txs == shorter + [t];
      if CheckTxs(rules, b, shorter).Some? {
        var i :| 0 <= i < |shorter| && CheckTxs(rules, b, shorter) == CheckTx(rules, b, shorter[i])
                 && forall j :: 0 <= j < i ==> FitsBlock(rules, b, shorter[j]);
        assert txs[i] == shorter[i];
        CheckTxIs(rules, b, txs[i]);
      } else {
        forall j | 0 <= j < |shorter| ensures FitsBlock(rules, b, txs[j]) {
          assert txs[j] in shorter;
        }
        assert CheckTxs(rules, b, txs) == CheckTx(rules, b, txs[|txs| - 1]);
      }
    }
  }

  /**
   * A block is valid if and only if it follows the previous one (above height 1), has no extension (in version 1),
   * every transaction of it is valid, of the right version and in time, and its root is that of its transactions.
   */
  lemma {:induction false} ValidateBlockExact(rules: Rules, b: S.Block, prev: Option<S.Block>)
    ensures ValidateBlock(rules, b, prev).None? <==>
              && (b.height > 1 ==> prev.Some? && Follows(b, prev.value))
              && (b.version == 1 ==> b.extHash.None? || b.extHash.value == ZERO_HASH)
              && (forall t :: t in b.transactions ==> FitsBlock(rules, b, t))
              && b.transactionsRoot == rules.merkleRoot(b.transactions)
  {
    hide FitsBlock, CheckTxs;
    CheckTxsIs(rules, b, b.transactions);
  }

  /** What an error says of the block. */
  ghost predicate Explains(rules: Rules, b: S.Block, prev: Option<S.Block>, error: BlockError)
  {
    match error
    case NoPrevBlock => b.height > 1 && prev.None?
    case VersionRegression => b.height > 1 && prev.Some? && b.version < prev.value.version
    case MisorderedHeight => b.height > 1 && prev.Some? && b.height != prev.value.height + 1
    case MismatchedBlock => b.height > 1 && prev.Some? && b.previousBlockId != prev.value.id
    case MisorderedTime => b.height > 1 && prev.Some? && b.timestamp <= prev.value.timestamp
    case NonemptyExt => b.version == 1 && b.extHash.Some? && b.extHash.value != ZERO_HASH
    case BadTxVersion => b.version == 1 && exists t :: t in b.transactions && !RightVersion(b, t)
    case UntimelyTx => exists t :: t in b.transactions && !InTime(t, b.timestamp)
    case InvalidTx => exists t :: t in b.transactions && !rules.validTx(t)
    case MismatchedMerkleRoot => b.transactionsRoot != rules.merkleRoot(b.transactions)
  }

  /** A block is refused for something that is wrong with it, and for its root only if all its transactions fit. */
  lemma {:induction false} RefusedForAReason(rules: Rules, b: S.Block, prev: Option<S.Block>)
    requires ValidateBlock(rules, b, prev).Some?
    ensures Explains(rules, b, prev, ValidateBlock(rules, b, prev).value)
    ensures ValidateBlock(rules, b, prev).value == MismatchedMerkleRoot ==> forall t :: t in b.transactions ==> FitsBlock(rules, b, t)
  {
    hide FitsBlock, CheckTxs, CheckTx, RightVersion, InTime;
    CheckTxsIs(rules, b, b.transactions);
    if CheckTxs(rules, b, b.transactions).Some? {
      var i :| 0 <= i < |b.transactions| && CheckTxs(rules, b, b.transactions) == CheckTx(rules, b, b.transactions[i]);
      CheckTxIs(rules, b, b.transactions[i]);
      assert b.transactions[i] in b.transactions;
      RightVersionOnly(b, b.transactions[i]);
    }
  }

  lemma {:induction false} RightVersionOnly(b: S.Block, t: Tx)
    ensures !RightVersion(b, t) ==> b.version == 1
  {
  }

  // ---------------------------------------------------------------- what the transactions' root fixes

  /** With the Merkle root of the source, valid blocks that declare the same root hold the same transactions in the same order. */
  lemma {:induction false} RootFixesTransactions(rules: Rules, h: P.Hasher, empty: Hash, a: S.Block, b: S.Block,
                                                 prevA: Option<S.Block>, prevB: Option<S.Block>)
    requires forall txs :: rules.merkleRoot(txs) == M.MerkleRoot(h, empty, txs)
    requires ValidateBlock(rules, a, prevA).None? && ValidateBlock(rules, b, prevB).None?
    requires R.NoDigestTwice(h, empty, M.HashedFor(h, empty, a.transactions) + M.HashedFor(h, empty, b.transactions))
    ensures a.transactionsRoot == b.transactionsRoot <==> M.IdsOfTxs(a.transactions) == M.IdsOfTxs(b.transactions)
  {
    hide ValidateBlock, FitsBlock, M.MerkleRoot, M.HashedFor, R.NoDigestTwice;
    ValidateBlockExact(rules, a, prevA);
    ValidateBlockExact(rules, b, prevB);
    M.MerkleCommits(h, empty, a.transactions, b.transactions);
  }

  // ---------------------------------------------------------------- what the outputs' root fixes

  /**
   * A block that declares the root of some set of outputs is accepted exactly when it applies and leads to that set,
   * where the hash function does not collide on what is hashed for the two trees.
   */
  lemma {:induction false} AcceptedIffOutputsAgree(h: P.Hasher, s: S.State, b: S.Block, declared: S.State)
    requires S.Valid(s) && S.Valid(declared) && b.assetsRoot == P.RootHash(h, declared.tree)
    requires R.NoDigestTwice(h, ZERO_HASH, R.Hashed(h, S.ApplyBlock(s, b).state.tree) + R.Hashed(h, declared.tree))
    ensures ApplyValidBlock(h, s, b).Some? <==>
              S.ApplyBlock(s, b).err.None? && S.IdsOf(S.ApplyBlock(s, b).state) == S.IdsOf(declared)
  {
    hide S.ApplyBlock, S.Valid, P.RootHash, R.NoDigestTwice, S.IdsOf;
    R.RootFixesOutputs(h, S.ApplyBlock(s, b).state, declared);
  }

  /** And a replayed block carries the right root exactly when it leads to that set: what recovery accepts fixes the outputs. */
  lemma {:induction false} HonestIffOutputsAgree(h: P.Hasher, blocks: seq<S.Block>, k: nat, declared: S.State)
    requires k < |blocks| && S.Valid(declared) && blocks[k].assetsRoot == P.RootHash(h, declared.tree)
    requires R.NoDigestTwice(h, ZERO_HASH, R.Hashed(h, Replay.FullReplay(blocks[..k + 1]).state.tree) + R.Hashed(h, declared.tree))
    ensures Replay.HonestAt(h, blocks, k) <==>
              var after := Replay.FullReplay(blocks[..k + 1]);
              after.err.None? && S.IdsOf(after.state) == S.IdsOf(declared)
  {
    hide Replay.FullReplay, S.Valid, P.RootHash, R.NoDigestTwice, S.IdsOf;
    R.RootFixesOutputs(h, Replay.FullReplay(blocks[..k + 1]).state, declared);
  }

  /** So the empty block of a candidate that failed half way is refused. */
  lemma {:induction false} HalfFailedBlockRefused(rules: Rules, h: P.Hasher, prev: S.Block, now: nat, s: S.State, tx: Tx, present: Hash, missing: Hash)
    requires S.Valid(s) && present in S.IdsOf(s) && missing !in S.IdsOf(s)
    requires rules.validTx(tx) && InTime(tx, now) && tx.nonceIds == [] && tx.spentOutputIds == [present, missing]
    requires R.NoDigestTwice(h, ZERO_HASH, R.Hashed(h, P.Delete(s.tree, present)) + R.Hashed(h, s.tree))
    ensures
      var sel := Select(rules, now, S.PruneNonces(s, now), [tx]);
      sel.included == [] && ApplyValidBlock(h, s, NewBlock(rules, h, prev, now, sel)) == None
  {
    hide P.RootHash, S.Ids, P.Contains, P.Delete, InTime, Timely, S.ApplyTx, R.NoDigestTwice;
    S.TreeIsIdSet(s.tree, present);
    R.RootFixesOutputs(h, S.State(P.Delete(s.tree, present), s.nonces), s);
    TimelyIs(tx, now);
    GeneratedBlockRefused(rules, h, prev, now, s, tx, present, missing);
  }

  // ---------------------------------------------------------------- the generator's choice

  lemma {:induction false} TimelyIs(t: Tx, now: nat)
    ensures Timely(t, now) <==> InTime(t, now)
  {
  }

  lemma {:induction false} SelectionGrows(rules: Rules, now: nat, s: S.State, txs: seq<Tx>, i: nat)
    requires S.Valid(s) && i <= |txs|
    ensures Select(rules, now, s, txs[..i]).included <= Select(rules, now, s, txs).included
    ensures |Select(rules, now, s, txs).included| <= MAX_BLOCK_TXS
    decreases |txs|
  {
    hide S.ApplyTx, S.Valid, Timely;
    if i == |txs| {
      assert txs[..i] == txs;
      if txs != [] { SelectionGrows(rules, now, s, txs[..|txs| - 1], |txs| - 1); }
    } else {
      SelectionGrows(rules, now, s, txs[..|txs| - 1], i);
      assert txs[..|txs| - 1][..i] == txs[..i];
    }
  }

  /** A candidate can be taken: it is valid, in time, and its nonces and spent outputs suit the state. */
  ghost predicate Takes(rules: Rules, now: nat, s: S.State, t: Tx)
    requires S.Valid(s)
  {
    && rules.validTx(t) && InTime(t, now)
    && A.AllRecordable(s, t, t.nonceIds) && A.Spendable(s, t.spentOutputIds)
  }

  /**
   * The generated block takes a candidate at its turn exactly when fewer than ten thousand are taken and the
   * candidate can be taken in the state that the candidates before it leave. What is taken stays.
   */
  lemma {:induction false} SelectionExact(rules: Rules, now: nat, s: S.State, txs: seq<Tx>, i: nat)
    requires S.Valid(s) && i < |txs|
    ensures
      var before, after := Select(rules, now, s, txs[..i]), Select(rules, now, s, txs[..i + 1]);
      && after.included ==
           (if |before.included| < 10000 && Takes(rules, now, before.state, txs[i]) then before.included + [txs[i]] else before.included)
      && after.included <= Select(rules, now, s, txs).included
  {
    hide S.ApplyTx, S.Valid, Timely, InTime, A.AllRecordable, A.Spendable;
    assert txs[..i + 1][..i] == txs[..i];
    SelectionGrows(rules, now, s, txs, i + 1);
    var before := Select(rules, now, s, txs[..i]);
    A.ApplyTxExact(before.state, txs[i]);
    TimelyIs(txs[i], now);
  }
}
