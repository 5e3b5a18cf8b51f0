/**
  protocol/state as the source runs it: a snapshot object whose tree and nonces are changed in place, over
  nodes that other snapshots share. Every method is tied to the function of the same name on states.
 */
module Snapshots {
  import opened Basics
  import opened PatriciaShape
  import opened BitKeys
  import P = PatriciaHistory
  import T = PatriciaTree
  import opened Entries
  import S = StateValue

  // ---------------------------------------------------------------- a failing prefix decides a loop

  lemma {:induction false} NoncesPrefix(s: S.State, tx: Tx, ids: seq<Hash>, i: nat)
    requires i <= |ids|
    ensures S.ApplyNonces(s, tx, ids[..i]).err.Some? ==> S.ApplyNonces(s, tx, ids) == S.ApplyNonces(s, tx, ids[..i])
    decreases |ids|
  {
    if i == |ids| {
      assert ids[..i] == ids;
    } else {
      assert ids[..|ids| - 1][..i] == ids[..i];
      NoncesPrefix(s, tx, ids[..|ids| - 1], i);
    }
  }

  lemma {:induction false} SpentNone(s: S.State)
    requires S.Valid(s)
    ensures forall ids: seq<Hash> :: S.RemoveSpent(s, ids[..0]) == S.Applied(s, None)
  {
  }

  lemma {:induction false} SpentStep(s: S.State, ids: seq<Hash>, i: nat)
    requires S.Valid(s) && i < |ids| && S.RemoveSpent(s, ids[..i]).err.None?
    ensures var before := S.RemoveSpent(s, ids[..i]).state;
            && !ExtendsItem(P.Held(before.tree), BitKey(ids[i]))
            && S.RemoveSpent(s, ids[..i + 1]) ==
               if P.Contains(before.tree, ids[i]) then S.Applied(before.(tree := P.Delete(before.tree, ids[i])), None)
               else S.Applied(before, Some(S.InvalidPrevout))
  {
    hide P.Contains, P.Delete, S.IdTree, S.Ids;
    assert ids[..i + 1][..i] == ids[..i];
    S.TreeIsIdSet(S.RemoveSpent(s, ids[..i]).state.tree, ids[i]);
  }

  lemma {:induction false} SpentPrefix(s: S.State, ids: seq<Hash>, i: nat)
    requires S.Valid(s) && i <= |ids|
    ensures S.RemoveSpent(s, ids[..i]).err.Some? ==> S.RemoveSpent(s, ids) == S.RemoveSpent(s, ids[..i])
    decreases |ids|
  {
    hide S.Valid, P.Contains, P.Delete;
    if i == |ids| {
      assert ids[..i] == ids;
    } else {
      assert ids[..|ids| - 1][..i] == ids[..i];
      SpentPrefix(s, ids[..|ids| - 1], i);
    }
  }

  lemma {:induction false} TxsPrefix(s: S.State, txs: seq<Tx>, i: nat)
    requires S.Valid(s) && i <= |txs|
    ensures S.ApplyTxs(s, txs[..i]).err.Some? ==> S.ApplyTxs(s, txs) == S.ApplyTxs(s, txs[..i])
    decreases |txs|
  {
    hide S.Valid, S.ApplyTx;
    if i == |txs| {
      assert txs[..i] == txs;
    } else {
      assert txs[..|txs| - 1][..i] == txs[..i];
      TxsPrefix(s, txs[..|txs| - 1], i);
    }
  }

  // ---------------------------------------------------------------- the snapshot object

  class Snapshot {
    var tree: T.Tree
    var nonces: map<Hash, nat>

    ghost function Value(): S.State
      reads this, tree
    {
      S.State(tree.Value(), nonces)
    }

    ghost predicate Ok(h: P.Hasher)
      reads this, tree, tree.Nodes()
    {
      tree.Valid(h) && S.Valid(Value())
    }

    /** state.Empty */
    constructor Empty()
      ensures Value() == S.EMPTY && tree.root == null && fresh(tree)
    {
      tree := new T.Tree();
      nonces := map[];
    }

    /** state.Copy: a new tree object over the same nodes, and a copy of the nonces. */
    constructor Copy(original: Snapshot)
      ensures Value() == original.Value() && tree.root == original.tree.root && fresh(tree)
    {
      tree := new T.Tree.Copy(original.tree);
      nonces := original.nonces;
    }

    constructor Make(tree: T.Tree, nonces: map<Hash, nat>)
      ensures this.tree == tree && this.nonces == nonces
    {
      this.tree, this.nonces := tree, nonces;
    }

    method PruneNonces(timestamp: nat)
      modifies this`nonces
      ensures Value() == S.PruneNonces(old(Value()), timestamp)
      ensures forall n :: n in nonces <==> n in old(nonces) && timestamp <= old(nonces)[n]
      ensures forall n :: n in nonces ==> nonces[n] == old(nonces)[n]
    {
      var rest := nonces.Keys;
      ghost var before := nonces;
      while rest != {}
        invariant rest <= before.Keys
        invariant forall n :: n in nonces <==> n in before && (n in rest || timestamp <= before[n])
        invariant forall n :: n in nonces ==> nonces[n] == before[n]
        decreases |rest|
      {
        var n :| n in rest;
        if timestamp > nonces[n] {
          nonces := nonces - {n};
        }
        rest := rest - {n};
      }
    }

    /** The loop over the transaction's nonces. */
    method AddNonces(tx: Tx) returns (err: Option<S.ApplyError>)
      modifies this`nonces
      ensures S.Applied(Value(), err) == S.ApplyNonces(old(Value()), tx, tx.nonceIds)
    {
      ghost var s0 := Value();
      for i := 0 to |tx.nonceIds|
        invariant S.Applied(Value(), None) == S.ApplyNonces(s0, tx, tx.nonceIds[..i])
      {
        var n := tx.nonceIds[i];
        assert tx.nonceIds[..i + 1][..i] == tx.nonceIds[..i];
        NoncesPrefix(s0, tx, tx.nonceIds, i + 1);
        if n in nonces {
          return Some(S.ConflictingNonce);
        }
        if n !in tx.entries || !tx.entries[n].Nonce? {
          return Some(S.BadNonce);
        }
        var trId := tx.entries[n].timeRangeId;
        if trId !in tx.entries || !tx.entries[trId].TimeRange? {
          return Some(S.BadNonce);
        }
        nonces := nonces[n := tx.entries[trId].maxTimeMs];
      }
      assert tx.nonceIds[..|tx.nonceIds|] == tx.nonceIds;
      return None;
    }

    /** One spent output: it must be present, and is removed. */
    method SpendOne(id: Hash, h: P.Hasher) returns (found: bool)
      requires Ok(h)
      modifies tree, tree.Nodes()
      ensures Ok(h) && nonces == old(nonces) && found == (id in old(S.IdsOf(Value())))
      ensures !ExtendsItem(P.Held(old(tree.Value())), BitKey(id))
      ensures found == P.Contains(old(tree.Value()), id)
      ensures tree.Value() == if found then P.Delete(old(tree.Value()), id) else old(tree.Value())
      ensures forall m :: m in tree.Nodes() ==> m in old(tree.Nodes()) || fresh(m)
      ensures forall m :: m in old(tree.Nodes()) ==> m.Cached(h)
    {
      hide P.Contains, P.Delete, S.IdTree, S.Ids;
      S.TreeIsIdSet(tree.Value(), id);
      found := tree.Contains(id, h);
      if found {
        tree.Delete(id, h);
      }
    }

    /** The loop that removes spent outputs. */
    method RemoveSpent(ids: seq<Hash>, h: P.Hasher) returns (err: Option<S.ApplyError>)
      requires Ok(h)
      modifies tree, tree.Nodes()
      ensures Ok(h) && S.Applied(Value(), err) == S.RemoveSpent(old(Value()), ids)
      ensures forall m :: m in tree.Nodes() ==> m in old(tree.Nodes()) || fresh(m)
      ensures forall m :: m in old(tree.Nodes()) ==> m.Cached(h)
    {
      hide S.RemoveSpent, P.Contains, P.Delete, S.IdTree, S.Ids;
      ghost var s0 := Value();
      SpentNone(s0);
      for i := 0 to |ids|
        invariant Ok(h) && S.Applied(Value(), None) == S.RemoveSpent(s0, ids[..i])
        invariant forall m :: m in tree.Nodes() ==> m in old(tree.Nodes()) || fresh(m)
        invariant forall m :: m in old(tree.Nodes()) ==> m.Cached(h)
      {
        SpentStep(s0, ids, i);
        SpentPrefix(s0, ids, i + 1);
        var found := SpendOne(ids[i], h);
        if !found {
          return Some(S.InvalidPrevout);
        }
      }
      assert ids[..|ids|] == ids;
      return None;
    }

    /** The loop that adds new outputs; a retirement is skipped. */
    method AddOutputs(tx: Tx, ids: seq<Hash>, h: P.Hasher)
      requires Ok(h)
      modifies tree
      ensures Ok(h) && Value() == S.AddOutputs(old(Value()), tx, ids)
      ensures forall m :: m in tree.Nodes() ==> m in old(tree.Nodes()) || fresh(m)
    {
      ghost var s0 := Value();
      for i := 0 to |ids|
        invariant Ok(h) && Value() == S.AddOutputs(s0, tx, ids[..i])
        invariant forall m :: m in tree.Nodes() ==> m in old(tree.Nodes()) || fresh(m)
      {
        hide P.Insert, S.IdTree;
        assert ids[..i + 1][..i] == ids[..i];
        var id := ids[i];
        if id in tx.entries && tx.entries[id].Output? {
          S.TreeIsIdSet(tree.Value(), id);
          var err := tree.Insert(id, h);
        }
      }
      assert ids[..|ids|] == ids;
    }

    method ApplyTx(tx: Tx, h: P.Hasher) returns (err: Option<S.ApplyError>)
      requires Ok(h)
      modifies this`nonces, tree, tree.Nodes()
      ensures Ok(h) && S.Applied(Value(), err) == S.ApplyTx(old(Value()), tx)
      ensures forall m :: m in tree.Nodes() ==> m in old(tree.Nodes()) || fresh(m)
      ensures forall m :: m in old(tree.Nodes()) ==> m.Cached(h)
    {
      hide S.ApplyNonces, S.RemoveSpent, S.AddOutputs;
      err := AddNonces(tx);
      if err.Some? {
        return;
      }
      err := RemoveSpent(tx.spentOutputIds, h);
      if err.Some? {
        return;
      }
      AddOutputs(tx, S.ResultIdsOf(tx), h);
    }

    method ApplyBlock(b: S.Block, h: P.Hasher) returns (err: Option<S.ApplyError>)
      requires Ok(h)
      modifies this`nonces, tree, tree.Nodes()
      ensures Ok(h) && S.Applied(Value(), err) == S.ApplyBlock(old(Value()), b)
      ensures forall m :: m in tree.Nodes() ==> m in old(tree.Nodes()) || fresh(m)
      ensures forall m :: m in old(tree.Nodes()) ==> m.Cached(h)
    {
      hide S.ApplyTx;
      PruneNonces(b.timestamp);
      ghost var s0 := Value();
      var txs := b.transactions;
      for i := 0 to |txs|
        invariant Ok(h) && S.Applied(Value(), None) == S.ApplyTxs(s0, txs[..i])
        invariant forall m :: m in tree.Nodes() ==> m in old(tree.Nodes()) || fresh(m)
        invariant forall m :: m in old(tree.Nodes()) ==> m.Cached(h)
      {
        assert txs[..i + 1][..i] == txs[..i];
        TxsPrefix(s0, txs, i + 1);
        err := ApplyTx(txs[i], h);
        if err.Some? {
          return;
        }
      }
      assert txs[..|txs|] == txs;
      return None;
    }
  }
}
