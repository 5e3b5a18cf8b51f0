/**
  The ledger state of protocol/state as a value: the tree of unspent output identifiers and the nonces with
  their expiry. ApplyTx keeps what it has already done when it fails, as the source does.
 */
module StateValue {
  import opened Basics
  import opened PatriciaShape
  import opened BitKeys
  import P = PatriciaHistory
  import opened Entries

  // ---------------------------------------------------------------- trees of identifiers

  /** A tree that holds 32-byte identifiers. */
  ghost predicate IdTree(t: Option<Shape>)
  {
    P.Uniform(t, 32) && P.FromBytes(t)
  }

  ghost function IdOf(k: Key): Hash
    requires |k| == 256
  {
    ByteKey(k)
  }

  ghost function Ids(t: Option<Shape>): set<Hash>
    requires IdTree(t)
  {
    set k | k in P.Held(t) && |k| == 256 :: IdOf(k)
  }

  lemma {:induction false} InIds(t: Option<Shape>, h: Hash)
    requires IdTree(t)
    ensures h in Ids(t) <==> BitKey(h) in P.Held(t)
  {
    ByteKeyBitKey(h);
    if h in Ids(t) {
      var k :| k in P.Held(t) && |k| == 256 && IdOf(k) == h;
      assert BitKey(ByteKey(k)) == k;
    }
    if BitKey(h) in P.Held(t) {
      assert IdOf(BitKey(h)) == h;
    }
  }

  /** The tree is determined by the identifiers it holds. */
  lemma {:induction false} IdsDetermineTree(a: Option<Shape>, b: Option<Shape>)
    requires IdTree(a) && IdTree(b) && Ids(a) == Ids(b)
    ensures a == b
  {
    forall k | k in P.Held(a)
      ensures k in P.Held(b)
    {
      InIds(a, IdOf(k));
      InIds(b, IdOf(k));
    }
    forall k | k in P.Held(b)
      ensures k in P.Held(a)
    {
      InIds(a, IdOf(k));
      InIds(b, IdOf(k));
    }
    P.SameItemsSameTree(a, b);
  }

  lemma {:induction false} SameIds(t: Option<Shape>, u: Option<Shape>, ids: set<Hash>)
    requires IdTree(t) && IdTree(u) && forall h: Hash :: BitKey(h) in P.Held(u) <==> h in ids
    ensures Ids(u) == ids
  {
    forall h: Hash
      ensures h in Ids(u) <==> h in ids
    {
      InIds(u, h);
    }
  }

  lemma {:induction false} TreeIsIdSet(t: Option<Shape>, h: Hash)
    requires IdTree(t)
    ensures !ExtendsItem(P.Held(t), BitKey(h))
    ensures P.Contains(t, h) <==> h in Ids(t)
    ensures P.Insert(t, h).Inserted? && IdTree(Some(P.Insert(t, h).tree)) && Ids(Some(P.Insert(t, h).tree)) == Ids(t) + {h}
    ensures IdTree(P.Delete(t, h)) && Ids(P.Delete(t, h)) == Ids(t) - {h}
  {
    P.TreeIsASet(t, h);
    ByteKeyBitKey(h);
    InIds(t, h);
    var added, removed := Some(P.Insert(t, h).tree), P.Delete(t, h);
    forall x: Hash
      ensures BitKey(x) in P.Held(added) <==> x in Ids(t) + {h}
      ensures BitKey(x) in P.Held(removed) <==> x in Ids(t) - {h}
    {
      InIds(t, x);
      BitKeyInjective(x, h);
    }
    SameIds(t, added, Ids(t) + {h});
    SameIds(t, removed, Ids(t) - {h});
  }

  // ---------------------------------------------------------------- the state

  datatype State = State(tree: Option<Shape>, nonces: map<Hash, nat>)

  const EMPTY := State(None, map[])

  ghost predicate Valid(s: State)
  {
    IdTree(s.tree)
  }

  datatype ApplyError = ConflictingNonce | BadNonce | InvalidPrevout

  datatype Applied = Applied(state: State, err: Option<ApplyError>)

  /** PruneNonces: a nonce goes when the timestamp is later than its expiry. */
  function PruneNonces(s: State, timestamp: nat): State
  {
    s.(nonces := map n | n in s.nonces && timestamp <= s.nonces[n] :: s.nonces[n])
  }

  /** The expiry of a nonce of the transaction, if its entries are there with the right types. */
  function Expiry(tx: Tx, n: Hash): Option<nat>
  {
    if n in tx.entries && tx.entries[n].Nonce? && tx.entries[n].timeRangeId in tx.entries &&
       tx.entries[tx.entries[n].timeRangeId].TimeRange?
    then Some(tx.entries[tx.entries[n].timeRangeId].maxTimeMs)
    else None
  }

  function ApplyNonces(s: State, tx: Tx, ids: seq<Hash>): (r: Applied)
    ensures r.state.tree == s.tree
  {
    if ids == [] then Applied(s, None)
    else
      var before := ApplyNonces(s, tx, ids[..|ids| - 1]);
      var n := ids[|ids| - 1];
      if before.err.Some? then before
      else if n in before.state.nonces then Applied(before.state, Some(ConflictingNonce))
      else if Expiry(tx, n).None? then Applied(before.state, Some(BadNonce))
      else Applied(before.state.(nonces := before.state.nonces[n := Expiry(tx, n).value]), None)
  }

  function RemoveSpent(s: State, ids: seq<Hash>): (r: Applied)
    requires Valid(s)
    ensures Valid(r.state) && r.state.nonces == s.nonces
  {
    if ids == [] then Applied(s, None)
    else
      var before := RemoveSpent(s, ids[..|ids| - 1]);
      var id := ids[|ids| - 1];
      TreeIsIdSet(before.state.tree, id);
      if before.err.Some? then before
      else if !P.Contains(before.state.tree, id) then Applied(before.state, Some(InvalidPrevout))
      else Applied(before.state.(tree := P.Delete(before.state.tree, id)), None)
  }

  predicate IsOutput(tx: Tx, id: Hash)
  {
    id in tx.entries && tx.entries[id].Output?
  }

  function AddOutputs(s: State, tx: Tx, ids: seq<Hash>): (r: State)
    requires Valid(s)
    ensures Valid(r) && r.nonces == s.nonces
  {
    if ids == [] then s
    else
      var before := AddOutputs(s, tx, ids[..|ids| - 1]);
      var id := ids[|ids| - 1];
      TreeIsIdSet(before.tree, id);
      if IsOutput(tx, id) then before.(tree := Some(P.Insert(before.tree, id).tree)) else before
  }

  function ResultIdsOf(tx: Tx): seq<Hash>
  {
    if tx.id in tx.entries && tx.entries[tx.id].TxHeader? then tx.entries[tx.id].resultIds else []
  }

  function ApplyTx(s: State, tx: Tx): (r: Applied)
    requires Valid(s)
    ensures Valid(r.state)
  {
    var nonces := ApplyNonces(s, tx, tx.nonceIds);
    if nonces.err.Some? then nonces
    else
      var spent := RemoveSpent(nonces.state, tx.spentOutputIds);
      if spent.err.Some? then spent
      else Applied(AddOutputs(spent.state, tx, ResultIdsOf(tx)), None)
  }

  datatype Block = Block(version: nat, height: nat, id: Hash, previousBlockId: Hash, timestamp: nat, transactionsRoot: Hash,
                         assetsRoot: Hash, extHash: Option<Hash>, transactions: seq<Tx>)

  function ApplyTxs(s: State, txs: seq<Tx>): (r: Applied)
    requires Valid(s)
    ensures Valid(r.state)
  {
    if txs == [] then Applied(s, None)
    else
      var before := ApplyTxs(s, txs[..|txs| - 1]);
      if before.err.Some? then before else ApplyTx(before.state, txs[|txs| - 1])
  }

  function ApplyBlock(s: State, b: Block): (r: Applied)
    requires Valid(s)
    ensures Valid(r.state)
  {
    ApplyTxs(PruneNonces(s, b.timestamp), b.transactions)
  }

  // ---------------------------------------------------------------- what a transaction does to the set of outputs

  ghost function IdsOf(s: State): set<Hash>
    requires Valid(s)
  {
    Ids(s.tree)
  }

  lemma {:induction false} RemoveMeaning(s: State, ids: seq<Hash>)
    requires Valid(s)
    ensures RemoveSpent(s, ids).err.None? ==>
      && IdsOf(RemoveSpent(s, ids).state) == IdsOf(s) - SetOf(ids)
      && SetOf(ids) <= IdsOf(s) && Distinct(ids)
    decreases |ids|
  {
    hide Ids, IdTree, P.Contains, P.Delete, P.Insert;
    if ids != [] && RemoveSpent(s, ids).err.None? {
      var shorter, id := ids[..|ids| - 1], ids[|ids| - 1];
      RemoveMeaning(s, shorter);
      TreeIsIdSet(RemoveSpent(s, shorter).state.tree, id);
      assert ids == shorter + [id];
      assert SetOf(ids) == SetOf(shorter) + {id};
    }
  }

  ghost function OutputsOf(tx: Tx, ids: seq<Hash>): set<Hash>
  {
    set id | id in ids && IsOutput(tx, id)
  }

  lemma {:induction false} AddMeaning(s: State, tx: Tx, ids: seq<Hash>)
    requires Valid(s)
    ensures IdsOf(AddOutputs(s, tx, ids)) == IdsOf(s) + OutputsOf(tx, ids)
    decreases |ids|
  {
    hide Ids, IdTree, P.Contains, P.Delete, P.Insert;
    if ids != [] {
      var shorter, id := ids[..|ids| - 1], ids[|ids| - 1];
      AddMeaning(s, tx, shorter);
      TreeIsIdSet(AddOutputs(s, tx, shorter).tree, id);
      assert ids == shorter + [id];
      assert OutputsOf(tx, ids) == OutputsOf(tx, shorter) + (if IsOutput(tx, id) then {id} else {});
    } else {
      assert OutputsOf(tx, ids) == {};
    }
  }

  /** An applied transaction removes the outputs it spends, all of which were there, and adds its own. */
  lemma {:induction false} ApplyMeaning(s: State, tx: Tx)
    requires Valid(s) && ApplyTx(s, tx).err.None?
    ensures SetOf(tx.spentOutputIds) <= IdsOf(s) && Distinct(tx.spentOutputIds)
    ensures IdsOf(ApplyTx(s, tx).state) == IdsOf(s) - SetOf(tx.spentOutputIds) + OutputsOf(tx, ResultIdsOf(tx))
  {
    hide Ids, IdTree;
    var nonces := ApplyNonces(s, tx, tx.nonceIds);
    RemoveMeaning(nonces.state, tx.spentOutputIds);
    AddMeaning(RemoveSpent(nonces.state, tx.spentOutputIds).state, tx, ResultIdsOf(tx));
  }
}
