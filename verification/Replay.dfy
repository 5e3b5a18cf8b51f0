/**
  Saving, decoding and replaying: core/txdb/snapshot.go and protocol/recover.go. A node that crashed rebuilds
  its state from the last saved snapshot and the blocks after it; the result is the state that applying every
  block from the empty ledger gives.
 */
module Replay {
  import opened Basics
  import opened PatriciaShape
  import opened BitKeys
  import P = PatriciaHistory
  import T = PatriciaTree
  import S = StateValue
  import opened Snapshots

  // ---------------------------------------------------------------- replaying blocks

  function ApplyBlocks(s: S.State, blocks: seq<S.Block>): (r: S.Applied)
    requires S.Valid(s)
    ensures S.Valid(r.state)
  {
    if blocks == [] then S.Applied(s, None)
    else
      var before := ApplyBlocks(s, blocks[..|blocks| - 1]);
      if before.err.Some? then before else S.ApplyBlock(before.state, blocks[|blocks| - 1])
  }

  /** The state after all blocks, applied from the empty ledger. */
  function FullReplay(blocks: seq<S.Block>): (r: S.Applied)
    ensures S.Valid(r.state)
  {
    EmptyValid();
    ApplyBlocks(S.EMPTY, blocks)
  }

  lemma {:induction false} EmptyValid()
    ensures S.Valid(S.EMPTY)
  {
  }

  /** Block k (counting from 0) applies, and its header carries the root of the state it leads to. */
  ghost predicate HonestAt(h: P.Hasher, blocks: seq<S.Block>, k: nat)
    requires k < |blocks|
  {
    var after := FullReplay(blocks[..k + 1]);
    after.err.None? && blocks[k].assetsRoot == P.RootHash(h, after.state.tree)
  }

  // ---------------------------------------------------------------- the stored form

  datatype Stored = Stored(nodes: seq<bytes>, nonces: seq<(Hash, nat)>)

  /** The stored nonces are those of the map, in some order. */
  ghost predicate ListsNonces(list: seq<(Hash, nat)>, nonces: map<Hash, nat>)
  {
    && (forall i :: 0 <= i < |list| ==> list[i].0 in nonces && nonces[list[i].0] == list[i].1)
    && (forall n :: n in nonces ==> (n, nonces[n]) in list)
  }

  ghost predicate Encodes(stored: Stored, s: S.State)
  {
    stored.nodes == P.WalkItems(s.tree) && ListsNonces(stored.nonces, s.nonces)
  }

  /** storeStateSnapshot, up to the protobuf encoding. */
  method Save(snapshot: Snapshot, ghost h: P.Hasher) returns (stored: Stored)
    requires snapshot.Ok(h)
    ensures Encodes(stored, snapshot.Value())
  {
    var nodes := snapshot.tree.Walk();
    var list: seq<(Hash, nat)> := [];
    var rest := snapshot.nonces.Keys;
    while rest != {}
      invariant rest <= snapshot.nonces.Keys
      invariant forall i :: 0 <= i < |list| ==> list[i].0 in snapshot.nonces && snapshot.nonces[list[i].0] == list[i].1
      invariant forall n :: n in snapshot.nonces && n !in rest ==> (n, snapshot.nonces[n]) in list
      decreases |rest|
    {
      var n :| n in rest;
      list := list + [(n, snapshot.nonces[n])];
      rest := rest - {n};
    }
    stored := Stored(nodes, list);
  }

  /** The tree after inserting the stored nodes, or None at the first error. */
  function InsertAll(nodes: seq<bytes>): (t: Option<Option<Shape>>)
  {
    if nodes == [] then Some(None)
    else
      match InsertAll(nodes[..|nodes| - 1])
      case None => None
      case Some(before) =>
        match P.Insert(before, nodes[|nodes| - 1])
        case Inserted(tree) => Some(Some(tree))
        case _ => None
  }

  lemma {:induction false} InsertAllWellFormed(nodes: seq<bytes>)
    ensures InsertAll(nodes).Some? && InsertAll(nodes).value.Some? ==> WellFormed(InsertAll(nodes).value.value)
    decreases |nodes|
  {
    if nodes != [] {
      InsertAllWellFormed(nodes[..|nodes| - 1]);
      var before := InsertAll(nodes[..|nodes| - 1]);
      if before.Some? && before.value.Some? {
        InsertMeaning(before.value.value, BitKey(nodes[|nodes| - 1]));
      }
    }
  }

  /** Inserting the stored nodes is a history of additions. */
  lemma {:induction false} InsertAllIsHistory(nodes: seq<bytes>, len: nat)
    requires P.EditsOf(P.Rebuild(nodes), len)
    ensures InsertAll(nodes) == Some(P.TreeAfter(P.Rebuild(nodes), len))
    decreases |nodes|
  {
    hide InsertAt, WellFormed;
    if nodes != [] {
      var shorter, item := nodes[..|nodes| - 1], nodes[|nodes| - 1];
      var edits := P.Rebuild(nodes);
      assert edits[..|edits| - 1] == P.Rebuild(shorter);
      assert edits[|edits| - 1] == P.Add(item);
      forall e | e in P.Rebuild(shorter)
        ensures |e.item| == len
      {
        assert e in edits;
      }
      InsertAllIsHistory(shorter, len);
      P.TreeIsASet(P.TreeAfter(P.Rebuild(shorter), len), item);
    }
  }

  /** Decoding what was saved gives back the tree. */
  lemma {:induction false} DecodesTree(t: Option<Shape>)
    requires S.IdTree(t)
    ensures InsertAll(P.WalkItems(t)) == Some(t)
  {
    hide P.TreeAfter, InsertAll;
    P.SaveThenRebuild(t, 32);
    InsertAllIsHistory(P.WalkItems(t), 32);
  }

  lemma {:induction false} InsertAllPrefix(nodes: seq<bytes>, i: nat)
    requires i <= |nodes|
    ensures InsertAll(nodes[..i]).None? ==> InsertAll(nodes).None?
    decreases |nodes|
  {
    if i == |nodes| {
      assert nodes[..i] == nodes;
    } else {
      assert nodes[..|nodes| - 1][..i] == nodes[..i];
      InsertAllPrefix(nodes[..|nodes| - 1], i);
    }
  }

  /** Insert the stored nodes one after the other; null at the first error. */
  method DecodeTree(nodes: seq<bytes>, h: P.Hasher) returns (tree: T.Tree?)
    ensures tree == null <==> InsertAll(nodes).None?
    ensures tree != null ==>
      fresh(tree) && fresh(tree.Nodes()) && tree.Valid(h) && tree.Value() == InsertAll(nodes).value
  {
    hide InsertAt, WellFormed, P.HashOf;
    var t := new T.Tree();
    for i := 0 to |nodes|
      invariant fresh(t) && t.Valid(h) && fresh(t.Nodes())
      invariant InsertAll(nodes[..i]) == Some(t.Value())
    {
      assert nodes[..i + 1][..i] == nodes[..i];
      InsertAllPrefix(nodes, i + 1);
      var err := t.Insert(nodes[i], h);
      if err != T.Success {
        return null;
      }
    }
    assert nodes[..|nodes|] == nodes;
    tree := t;
  }

  method DecodeNonces(list: seq<(Hash, nat)>) returns (nonces: map<Hash, nat>)
    ensures forall m: map<Hash, nat> :: ListsNonces(list, m) ==> nonces == m
  {
    nonces := map[];
    for i := 0 to |list|
      invariant forall n :: n in nonces ==> (n, nonces[n]) in list[..i]
      invariant forall k :: 0 <= k < i ==> list[k].0 in nonces
    {
      nonces := nonces[list[i].0 := list[i].1];
    }
    forall m: map<Hash, nat> | ListsNonces(list, m)
      ensures nonces == m
    {
      forall n | n in nonces
        ensures n in m && m[n] == nonces[n]
      {
        var i :| 0 <= i < |list| && list[i] == (n, nonces[n]);
      }
      forall n | n in m
        ensures n in nonces
      {
        var i :| 0 <= i < |list| && list[i] == (n, m[n]);
      }
    }
  }

  /** DecodeSnapshot, from the unmarshalled form: null when a stored node cannot be inserted. */
  method Decode(stored: Stored, h: P.Hasher) returns (snapshot: Snapshot?)
    ensures snapshot == null <==> InsertAll(stored.nodes).None?
    ensures snapshot != null ==>
      && fresh(snapshot) && fresh(snapshot.tree) && fresh(snapshot.tree.Nodes()) && snapshot.tree.Valid(h)
      && snapshot.tree.Value() == InsertAll(stored.nodes).value
    ensures snapshot != null ==> forall m: map<Hash, nat> :: ListsNonces(stored.nonces, m) ==> snapshot.nonces == m
  {
    hide InsertAll, ListsNonces;
    var tree := DecodeTree(stored.nodes, h);
    if tree == null {
      return null;
    }
    var nonces := DecodeNonces(stored.nonces);
    snapshot := new Snapshot.Make(tree, nonces);
  }

  // ---------------------------------------------------------------- recovery

  datatype RecoverError = NoError | BadSnapshot | BlockFailed | BadRoot

  /** Decoding the saved state gives an object with exactly that state. */
  method Load(stored: Stored, ghost s: S.State, h: P.Hasher) returns (snapshot: Snapshot?)
    requires S.Valid(s) && Encodes(stored, s)
    ensures snapshot != null && fresh(snapshot) && fresh(snapshot.tree) && fresh(snapshot.tree.Nodes())
    ensures snapshot.Ok(h) && snapshot.Value() == s
  {
    hide InsertAll, ListsNonces, S.IdTree;
    DecodesTree(s.tree);
    snapshot := Decode(stored, h);
  }

  lemma {:induction false} ReplayStep(blocks: seq<S.Block>, next: nat)
    requires next < |blocks| && FullReplay(blocks[..next]).err.None?
    ensures FullReplay(blocks[..next + 1]) == S.ApplyBlock(FullReplay(blocks[..next]).state, blocks[next])
  {
    hide S.ApplyBlock;
    assert blocks[..next + 1][..next] == blocks[..next];
  }

  /** One iteration: apply a block and compare the root it declares. */
  method ApplyAndCompare(snapshot: Snapshot, b: S.Block, h: P.Hasher) returns (err: RecoverError)
    requires snapshot.Ok(h)
    modifies snapshot`nonces, snapshot.tree, snapshot.tree.Nodes()
    ensures snapshot.Ok(h) && err != BadSnapshot && snapshot.Value() == S.ApplyBlock(old(snapshot.Value()), b).state
    ensures err == NoError <==>
      S.ApplyBlock(old(snapshot.Value()), b).err.None? && b.assetsRoot == P.RootHash(h, snapshot.Value().tree)
    ensures forall m :: m in snapshot.tree.Nodes() ==> m in old(snapshot.tree.Nodes()) || fresh(m)
  {
    hide S.ApplyBlock, S.IdTree;
    var e := snapshot.ApplyBlock(b, h);
    if e.Some? {
      return BlockFailed;
    }
    var root := snapshot.tree.RootHash(h);
    if b.assetsRoot != root {
      return BadRoot;
    }
    return NoError;
  }

  /** The replay loop of Recover, from the state after the first `height` blocks. */
  method ReplayFrom(snapshot: Snapshot, height: nat, blocks: seq<S.Block>, h: P.Hasher) returns (err: RecoverError)
    requires height <= |blocks| && snapshot.Ok(h) && FullReplay(blocks[..height]) == S.Applied(snapshot.Value(), None)
    modifies snapshot`nonces, snapshot.tree, snapshot.tree.Nodes()
    ensures err != BadSnapshot
    ensures err == NoError <==> forall k :: height <= k < |blocks| ==> HonestAt(h, blocks, k)
    ensures err == NoError ==> snapshot.Ok(h) && FullReplay(blocks) == S.Applied(snapshot.Value(), None)
  {
    hide S.ApplyBlock, FullReplay, T.Tree.Valid, S.IdTree, P.RootHash;
    var next := height;
    while next < |blocks|
      invariant height <= next <= |blocks| && snapshot.Ok(h)
      invariant forall m :: m in snapshot.tree.Nodes() ==> m in old(snapshot.tree.Nodes()) || fresh(m)
      invariant FullReplay(blocks[..next]) == S.Applied(snapshot.Value(), None)
      invariant forall k :: height <= k < next ==> HonestAt(h, blocks, k)
    {
      ReplayStep(blocks, next);
      err := ApplyAndCompare(snapshot, blocks[next], h);
      assert HonestAt(h, blocks, next) <==> err == NoError;
      if err != NoError {
        return;
      }
      next := next + 1;
    }
    assert blocks[..|blocks|] == blocks;
    return NoError;
  }

  /**
    Recover: decode the saved snapshot (or start empty), apply every block above its height, and compare each
    block's root with the tree's. It succeeds exactly when those blocks apply with the roots they declare, and
    then the state is that of replaying everything.
   */
  method Recover(stored: Option<Stored>, height: nat, blocks: seq<S.Block>, h: P.Hasher) returns (snapshot: Snapshot?, err: RecoverError)
    requires height <= |blocks| && FullReplay(blocks[..height]).err.None?
    requires stored.Some? ==> Encodes(stored.value, FullReplay(blocks[..height]).state)
    requires stored.None? ==> height == 0
    ensures err == NoError <==> forall k :: height <= k < |blocks| ==> HonestAt(h, blocks, k)
    ensures err == NoError ==>
      snapshot != null && snapshot.Ok(h) && FullReplay(blocks) == S.Applied(snapshot.Value(), None)
    ensures err != BadSnapshot
  {
    hide S.ApplyBlock, InsertAll, S.IdTree, Encodes;
    if stored.Some? {
      snapshot := Load(stored.value, FullReplay(blocks[..height]).state, h);
    } else {
      snapshot := new Snapshot.Empty();
      EmptyValid();
      assert blocks[..0] == [];
    }
    err := ReplayFrom(snapshot, height, blocks, h);
  }
}
