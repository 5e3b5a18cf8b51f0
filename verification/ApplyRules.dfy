/**
  What protocol/state does to the nonces and outputs, without its loops: when exactly a transaction applies,
  with which error it fails, and which nonces the state holds after a block.
 */
module ApplyRules {
  import opened Basics
  import opened PatriciaShape
  import opened Entries
  import P = PatriciaHistory
  import S = StateValue
  import Snapshots

  // ---------------------------------------------------------------- one transaction

  /** The nonce is an entry of the transaction whose time range ends at x. */
  ghost predicate ExpiresAt(tx: Tx, n: Hash, x: nat)
  {
    && n in tx.entries && tx.entries[n].Nonce?
    && tx.entries[n].timeRangeId in tx.entries
    && var range := tx.entries[tx.entries[n].timeRangeId];
       range.TimeRange? && range.maxTimeMs == x
  }

  ghost predicate Expires(tx: Tx, n: Hash)
  {
    exists x: nat :: ExpiresAt(tx, n, x)
  }

  lemma {:induction false} ExpiryIs(tx: Tx, n: Hash)
    ensures S.Expiry(tx, n).Some? <==> Expires(tx, n)
    ensures forall x: nat :: ExpiresAt(tx, n, x) <==> S.Expiry(tx, n) == Some(x)
  {
    if S.Expiry(tx, n).Some? { assert ExpiresAt(tx, n, S.Expiry(tx, n).value); }
  }

  /** A nonce can be recorded: not held, not named before in the same list, and with an expiry. */
  ghost predicate Recordable(s: S.State, tx: Tx, ids: seq<Hash>, i: nat)
    requires i < |ids|
  {
    ids[i] !in s.nonces && ids[i] !in ids[..i] && Expires(tx, ids[i])
  }

  /** The nonces after recording those listed. */
  ghost predicate Recorded(before: map<Hash, nat>, tx: Tx, ids: seq<Hash>, after: map<Hash, nat>)
  {
    && (forall n :: n in after <==> n in before || n in ids)
    && (forall n :: n in before && n !in ids ==> after[n] == before[n])
    && (forall n :: n in ids ==> ExpiresAt(tx, n, after[n]))
  }

  ghost predicate AllRecordable(s: S.State, tx: Tx, ids: seq<Hash>)
  {
    forall i :: 0 <= i < |ids| ==> Recordable(s, tx, ids, i)
  }

  lemma {:induction false} RecordablePrefix(s: S.State, tx: Tx, ids: seq<Hash>, k: nat)
    requires k <= |ids| && forall i :: 0 <= i < k ==> Recordable(s, tx, ids, i)
    ensures AllRecordable(s, tx, ids[..k])
  {
    hide Expires;
    forall i | 0 <= i < k ensures Recordable(s, tx, ids[..k], i) {
      assert Recordable(s, tx, ids, i);
      assert ids[..k][..i] == ids[..i];
    }
  }

  lemma {:induction false} NoncesRecorded(s: S.State, tx: Tx, ids: seq<Hash>)
    requires AllRecordable(s, tx, ids)
    ensures S.ApplyNonces(s, tx, ids).err == None && Recorded(s.nonces, tx, ids, S.ApplyNonces(s, tx, ids).state.nonces)
    decreases |ids|
  {
    hide Expires, ExpiresAt;
    if ids != [] {
      var shorter, n := ids[..|ids| - 1], ids[|ids| - 1];
      assert Recordable(s, tx, ids, |ids| - 1);
      RecordablePrefix(s, tx, ids, |ids| - 1);
      NoncesRecorded(s, tx, shorter);
      ExpiryIs(tx, n);
      assert ids == shorter + [n];
    }
  }

  /** The loop over the nonces stops at the first that cannot be recorded, having recorded those before it. */
  lemma {:induction false} NoncesStop(s: S.State, tx: Tx, ids: seq<Hash>, i: nat)
    requires i < |ids| && !Recordable(s, tx, ids, i) && AllRecordable(s, tx, ids[..i])
    ensures var r := S.ApplyNonces(s, tx, ids);
      && r.err == Some(if ids[i] in s.nonces || ids[i] in ids[..i] then S.ConflictingNonce else S.BadNonce)
      && Recorded(s.nonces, tx, ids[..i], r.state.nonces)
  {
    hide Expires, ExpiresAt;
    NoncesRecorded(s, tx, ids[..i]);
    ExpiryIs(tx, ids[i]);
    assert ids[..i + 1][..i] == ids[..i];
    Snapshots.NoncesPrefix(s, tx, ids, i + 1);
  }

  lemma {:induction false} FirstUnrecordable(s: S.State, tx: Tx, ids: seq<Hash>) returns (i: nat)
    requires !AllRecordable(s, tx, ids)
    ensures i < |ids| && !Recordable(s, tx, ids, i) && AllRecordable(s, tx, ids[..i])
    decreases |ids|
  {
    hide Recordable;
    var last := |ids| - 1;
    if k :| 0 <= k < last && !Recordable(s, tx, ids, k) {
      PrefixRecordable(s, tx, ids, last, k);
      assert !AllRecordable(s, tx, ids[..last]);
      i := FirstUnrecordable(s, tx, ids[..last]);
      PrefixRecordable(s, tx, ids, last, i);
      assert ids[..last][..i] == ids[..i];
    } else {
      i := last;
      RecordablePrefix(s, tx, ids, last);
    }
  }

  lemma {:induction false} PrefixRecordable(s: S.State, tx: Tx, ids: seq<Hash>, k: nat, i: nat)
    requires i < k <= |ids|
    ensures Recordable(s, tx, ids[..k], i) <==> Recordable(s, tx, ids, i)
  {
    hide Expires;
    assert ids[..k][..i] == ids[..i];
  }

  /** The outputs to be spent are there, each named once. */
  ghost predicate Spendable(s: S.State, ids: seq<Hash>)
    requires S.Valid(s)
  {
    Distinct(ids) && forall o :: o in ids ==> o in S.IdsOf(s)
  }

  lemma {:induction false} SpentExact(s: S.State, ids: seq<Hash>)
    requires S.Valid(s)
    ensures S.RemoveSpent(s, ids).err == if Spendable(s, ids) then None else Some(S.InvalidPrevout)
    decreases |ids|
  {
    hide S.Ids, S.IdTree, P.Contains, P.Delete;
    if ids != [] {
      var shorter, id := ids[..|ids| - 1], ids[|ids| - 1];
      SpentExact(s, shorter);
      S.RemoveMeaning(s, shorter);
      S.TreeIsIdSet(S.RemoveSpent(s, shorter).state.tree, id);
      assert ids == shorter + [id];
      SnocSpendable(s, shorter, id);
    }
  }

  lemma {:induction false} SnocSpendable(s: S.State, ids: seq<Hash>, id: Hash)
    requires S.Valid(s)
    ensures Spendable(s, ids + [id]) <==> Spendable(s, ids) && id in S.IdsOf(s) - SetOf(ids)
  {
    hide S.Ids, S.IdTree;
    var longer := ids + [id];
    if Spendable(s, longer) {
      assert longer[|ids|] == id && id in longer;
      forall i | 0 <= i < |ids| ensures ids[i] != id && ids[i] in S.IdsOf(s) {
        assert longer[i] == ids[i] && longer[i] in longer;
      }
      forall i, j | 0 <= i < j < |ids| ensures ids[i] != ids[j] {
        assert longer[i] != longer[j];
      }
    }
  }

  /** With which error a transaction fails, or that it applies. */
  ghost function ExpectedError(s: S.State, tx: Tx): Option<S.ApplyError>
    requires S.Valid(s)
  {
    if !AllRecordable(s, tx, tx.nonceIds) then
      if exists i :: 0 <= i < |tx.nonceIds| && ConflictsFirst(s, tx, tx.nonceIds, i) then Some(S.ConflictingNonce)
      else Some(S.BadNonce)
    else if Spendable(s, tx.spentOutputIds) then None
    else Some(S.InvalidPrevout)
  }

  /** The nonce at i is held or named before, and those before it can be recorded. */
  ghost predicate ConflictsFirst(s: S.State, tx: Tx, ids: seq<Hash>, i: nat)
    requires i < |ids|
  {
    (ids[i] in s.nonces || ids[i] in ids[..i]) && AllRecordable(s, tx, ids[..i])
  }

  /**
   * A transaction applies exactly when its nonces are new, distinct and have an expiry, and the outputs it spends
   * are there and distinct; its nonces are then held with the expiry that its own entries give them.
   */
  lemma {:induction false} ApplyTxExact(s: S.State, tx: Tx)
    requires S.Valid(s)
    ensures S.ApplyTx(s, tx).err == ExpectedError(s, tx)
    ensures S.ApplyTx(s, tx).err.None? ==> Recorded(s.nonces, tx, tx.nonceIds, S.ApplyTx(s, tx).state.nonces)
  {
    hide S.ApplyNonces, S.RemoveSpent, S.AddOutputs, S.Ids, S.IdTree, Recordable, ExpiresAt;
    var ids := tx.nonceIds;
    if AllRecordable(s, tx, ids) {
      NoncesRecorded(s, tx, ids);
      var nonces := S.ApplyNonces(s, tx, ids).state;
      SpentExact(nonces, tx.spentOutputIds);
      assert Spendable(nonces, tx.spentOutputIds) <==> Spendable(s, tx.spentOutputIds);
    } else {
      var i := FirstUnrecordable(s, tx, ids);
      NoncesStop(s, tx, ids, i);
      if k :| 0 <= k < |ids| && ConflictsFirst(s, tx, ids, k) {
        SameFirst(s, tx, ids, i, k);
      } else {
        assert !ConflictsFirst(s, tx, ids, i);
      }
    }
  }

  lemma {:induction false} SameFirst(s: S.State, tx: Tx, ids: seq<Hash>, i: nat, k: nat)
    requires i < |ids| && !Recordable(s, tx, ids, i) && AllRecordable(s, tx, ids[..i])
    requires k < |ids| && ConflictsFirst(s, tx, ids, k)
    ensures i == k
  {
    hide Expires;
    if i < k {
      PrefixRecordable(s, tx, ids, k, i);
    }
    if k < i {
      PrefixRecordable(s, tx, ids, i, k);
    }
  }

  // ---------------------------------------------------------------- one block

  /** Some transaction of the list names the nonce. */
  ghost predicate Names(txs: seq<Tx>, n: Hash)
  {
    exists t :: t in txs && n in t.nonceIds
  }

  /** What a list of transactions does to the nonces: it adds those it names, none of which is held or named twice. */
  lemma {:induction false} TxsNonces(s: S.State, txs: seq<Tx>)
    requires S.Valid(s) && S.ApplyTxs(s, txs).err.None?
    ensures var after := S.ApplyTxs(s, txs).state.nonces;
      && (forall n :: n in after <==> n in s.nonces || Names(txs, n))
      && (forall n :: n in s.nonces ==> !Names(txs, n) && after[n] == s.nonces[n])
      && (forall t, n :: t in txs && n in t.nonceIds ==> ExpiresAt(t, n, after[n]))
    ensures forall i, j, n :: 0 <= i < j < |txs| && n in txs[i].nonceIds ==> n !in txs[j].nonceIds
    decreases |txs|
  {
    hide S.ApplyTx, S.Valid, S.IdsOf, ExpiresAt, Spendable, Recordable;
    if txs != [] {
      var shorter, t := txs[..|txs| - 1], txs[|txs| - 1];
      TxsNonces(s, shorter);
      var mid := S.ApplyTxs(s, shorter).state;
      ApplyTxExact(mid, t);
      NamedAreNew(mid, t);
      assert txs == shorter + [t];
      forall n ensures Names(txs, n) <==> Names(shorter, n) || n in t.nonceIds {
        assert n in t.nonceIds ==> t in txs;
        if u :| u in shorter && n in u.nonceIds { assert u in txs; }
      }
    }
  }

  lemma {:induction false} NamedAreNew(s: S.State, t: Tx)
    requires S.Valid(s) && AllRecordable(s, t, t.nonceIds)
    ensures forall n :: n in t.nonceIds ==> n !in s.nonces
  {
    hide Expires;
    forall n | n in t.nonceIds ensures n !in s.nonces {
      var i :| 0 <= i < |t.nonceIds| && t.nonceIds[i] == n;
      assert Recordable(s, t, t.nonceIds, i);
    }
  }

  /**
   * The nonces after a block: those held before that do not expire before its timestamp, and those its transactions
   * name; no transaction of the block names one of the former, nor one that another of them names.
   */
  lemma {:induction false} BlockNonces(s: S.State, b: S.Block)
    requires S.Valid(s) && S.ApplyBlock(s, b).err.None?
    ensures var after := S.ApplyBlock(s, b).state.nonces;
      && (forall n :: n in after <==> (n in s.nonces && b.timestamp <= s.nonces[n]) || Names(b.transactions, n))
      && (forall n :: n in s.nonces && b.timestamp <= s.nonces[n] ==> !Names(b.transactions, n) && after[n] == s.nonces[n])
      && (forall t, n :: t in b.transactions && n in t.nonceIds ==> ExpiresAt(t, n, after[n]))
    ensures forall i, j, n :: 0 <= i < j < |b.transactions| && n in b.transactions[i].nonceIds ==> n !in b.transactions[j].nonceIds
  {
    hide S.ApplyTxs, ExpiresAt, S.IdTree;
    TxsNonces(S.PruneNonces(s, b.timestamp), b.transactions);
  }
}
