/**
  Whole histories of a tree: any sequence of Insert and Delete of items of one length.
  The reference is the plain set of items; the tree and its Merkle root depend on that set alone.
 */
module PatriciaHistory {
  import opened Basics
  import opened PatriciaShape
  import opened BitKeys

  /** SHA3 of 0x00 followed by an item, and of 0x01 followed by two child hashes. */
  datatype Hasher = Hasher(leaf: bytes -> Hash, interior: (Hash, Hash) -> Hash)

  function HashOf(h: Hasher, t: Shape): Hash
  {
    match t
    case Leaf(k) => h.leaf(ByteKey(k))
    case Branch(_, l, r) => h.interior(HashOf(h, l), HashOf(h, r))
  }

  function RootHash(h: Hasher, t: Option<Shape>): Hash
  {
    if t.None? then ZERO_HASH else HashOf(h, t.value)
  }

  ghost function Held(t: Option<Shape>): set<Key>
  {
    if t.None? then {} else Items(t.value)
  }

  /** A tree of the ledger: well formed, all items of the same length in bytes. */
  ghost predicate Uniform(t: Option<Shape>, len: nat)
  {
    && (t.Some? ==> WellFormed(t.value))
    && forall k :: k in Held(t) ==> |k| == 8 * len
  }

  function Insert(t: Option<Shape>, item: bytes): InsertOutcome
  {
    if t.None? then Inserted(Leaf(BitKey(item))) else InsertAt(t.value, BitKey(item))
  }

  function Delete(t: Option<Shape>, item: bytes): Option<Shape>
    requires t.Some? ==> WellFormed(t.value) && !ExtendsItem(Items(t.value), BitKey(item))
  {
    if t.None? then None else DeleteAt(t.value, BitKey(item))
  }

  function Contains(t: Option<Shape>, item: bytes): bool
    requires t.Some? ==> !ExtendsItem(Items(t.value), BitKey(item))
  {
    t.Some? && LookupAt(t.value, BitKey(item))
  }

  lemma {:induction false} UniformComparable(t: Option<Shape>, item: bytes)
    requires Uniform(t, |item|)
    ensures !ExtendsItem(Held(t), BitKey(item)) && !PrefixOfItem(Held(t), BitKey(item))
  {
  }

  /** On items of one length the tree is a set: Insert adds and never fails, Delete removes, Contains tests. */
  lemma {:induction false} TreeIsASet(t: Option<Shape>, item: bytes)
    requires Uniform(t, |item|)
    ensures !ExtendsItem(Held(t), BitKey(item))
    ensures Insert(t, item).Inserted? && Uniform(Some(Insert(t, item).tree), |item|)
    ensures Held(Some(Insert(t, item).tree)) == Held(t) + {BitKey(item)}
    ensures Uniform(Delete(t, item), |item|) && Held(Delete(t, item)) == Held(t) - {BitKey(item)}
    ensures Contains(t, item) <==> BitKey(item) in Held(t)
  {
    UniformComparable(t, item);
    if t.Some? {
      InsertMeaning(t.value, BitKey(item));
      DeleteMeaning(t.value, BitKey(item));
      LookupMeaning(t.value, BitKey(item));
    }
  }

  // ---------------------------------------------------------------- histories

  datatype Edit = Add(item: bytes) | Remove(item: bytes)

  ghost predicate EditsOf(edits: seq<Edit>, len: nat)
  {
    forall e :: e in edits ==> |e.item| == len
  }

  /** The set of items after a history: the reference the tree is compared with. */
  ghost function SetAfter(edits: seq<Edit>): set<bytes>
  {
    if edits == [] then {}
    else
      var before := SetAfter(edits[..|edits| - 1]);
      match edits[|edits| - 1]
      case Add(item) => before + {item}
      case Remove(item) => before - {item}
  }

  /** The tree after a history. */
  function TreeAfter(edits: seq<Edit>, len: nat): (t: Option<Shape>)
    requires EditsOf(edits, len)
    ensures Uniform(t, len)
    decreases |edits|
  {
    if edits == [] then None
    else
      var before := TreeAfter(edits[..|edits| - 1], len);
      var e := edits[|edits| - 1];
      TreeIsASet(before, e.item);
      match e
      case Add(item) => Some(Insert(before, item).tree)
      case Remove(item) => Delete(before, item)
  }

  ghost function KeysOf(items: set<bytes>): set<Key>
  {
    set item | item in items :: BitKey(item)
  }

  /** After any history the tree holds exactly the items of the reference set. */
  lemma {:induction false} TreeHoldsSet(edits: seq<Edit>, len: nat)
    requires EditsOf(edits, len)
    ensures Held(TreeAfter(edits, len)) == KeysOf(SetAfter(edits))
    decreases |edits|
  {
    if edits != [] {
      var before, e := edits[..|edits| - 1], edits[|edits| - 1];
      TreeHoldsSet(before, len);
      TreeIsASet(TreeAfter(before, len), e.item);
      KeysOfEdit(SetAfter(before), e.item);
    }
  }

  lemma {:induction false} KeysOfEdit(items: set<bytes>, item: bytes)
    ensures KeysOf(items + {item}) == KeysOf(items) + {BitKey(item)}
    ensures KeysOf(items - {item}) == KeysOf(items) - {BitKey(item)}
  {
    forall i | i in items
      ensures BitKey(i) == BitKey(item) <==> i == item
    {
      BitKeyInjective(i, item);
    }
  }

  /** Equal contents give the same tree. */
  lemma {:induction false} SameItemsSameTree(a: Option<Shape>, b: Option<Shape>)
    requires a.Some? ==> WellFormed(a.value)
    requires b.Some? ==> WellFormed(b.value)
    requires Held(a) == Held(b)
    ensures a == b
  {
    if a.Some? { ItemsExtendKey(a.value); }
    if b.Some? { ItemsExtendKey(b.value); }
    if a.Some? && b.Some? { Canonical(a.value, b.value); }
  }

  /** Two histories with the same final set end in the same tree and the same Merkle root. */
  lemma {:induction false} HistoryIndependent(h: Hasher, one: seq<Edit>, two: seq<Edit>, len: nat)
    requires EditsOf(one, len) && EditsOf(two, len)
    requires SetAfter(one) == SetAfter(two)
    ensures TreeAfter(one, len) == TreeAfter(two, len)
    ensures RootHash(h, TreeAfter(one, len)) == RootHash(h, TreeAfter(two, len))
  {
    TreeHoldsSet(one, len);
    TreeHoldsSet(two, len);
    SameItemsSameTree(TreeAfter(one, len), TreeAfter(two, len));
  }

  // ---------------------------------------------------------------- saving and rebuilding

  /** The items Walk passes to its callback, in order. */
  function WalkItems(t: Option<Shape>): seq<bytes>
  {
    if t.None? then [] else ByteKeys(WalkOrder(t.value))
  }

  function ByteKeys(keys: seq<Key>): seq<bytes>
  {
    seq(|keys|, i requires 0 <= i < |keys| => ByteKey(keys[i]))
  }

  /** DecodeSnapshot: insert the stored items one after the other into an empty tree. */
  function Rebuild(items: seq<bytes>): seq<Edit>
  {
    seq(|items|, i requires 0 <= i < |items| => Add(items[i]))
  }

  /** A tree whose items are all bit keys of byte strings, as Insert makes them. */
  ghost predicate FromBytes(t: Option<Shape>)
  {
    forall k :: k in Held(t) ==> BitKey(ByteKey(k)) == k
  }

  lemma {:induction false} SetAfterRebuild(items: seq<bytes>)
    ensures SetAfter(Rebuild(items)) == SetOf(items)
    decreases |items|
  {
    if items != [] {
      var before := items[..|items| - 1];
      SetAfterRebuild(before);
      assert Rebuild(items)[..|items| - 1] == Rebuild(before);
      assert items == before + [items[|items| - 1]];
    }
  }

  lemma {:induction false} WalkedItems(t: Option<Shape>, len: nat)
    requires Uniform(t, len) && FromBytes(t)
    ensures forall i :: 0 <= i < |WalkItems(t)| ==> |WalkItems(t)[i]| == len && BitKey(WalkItems(t)[i]) in Held(t)
    ensures forall k :: k in Held(t) ==> ByteKey(k) in WalkItems(t)
    ensures Distinct(WalkItems(t))
  {
    if t.Some? {
      WalkVisitsEachOnce(t.value);
      var order, items := WalkOrder(t.value), WalkItems(t);
      forall i | 0 <= i < |order|
        ensures order[i] in Held(t) && BitKey(items[i]) == order[i]
      {
        assert order[i] in SetOf(order);
      }
      forall k | k in Held(t)
        ensures ByteKey(k) in items
      {
        assert k in SetOf(order);
        var i :| 0 <= i < |order| && order[i] == k;
        assert items[i] == ByteKey(k);
      }
    }
  }

  lemma {:induction false} WalkedKeys(t: Option<Shape>, len: nat)
    requires Uniform(t, len) && FromBytes(t)
    ensures KeysOf(SetOf(WalkItems(t))) == Held(t)
  {
    WalkedItems(t, len);
    forall k | k in Held(t)
      ensures k in KeysOf(SetOf(WalkItems(t)))
    {
      assert ByteKey(k) in SetOf(WalkItems(t)) && BitKey(ByteKey(k)) == k;
    }
  }

  /** Saving a tree by Walk and inserting what was saved gives the same tree, with no item twice. */
  lemma {:induction false} SaveThenRebuild(t: Option<Shape>, len: nat)
    requires Uniform(t, len) && FromBytes(t)
    ensures EditsOf(Rebuild(WalkItems(t)), len)
    ensures TreeAfter(Rebuild(WalkItems(t)), len) == t
    ensures Distinct(WalkItems(t)) && KeysOf(SetOf(WalkItems(t))) == Held(t)
  {
    var items := WalkItems(t);
    WalkedItems(t, len);
    WalkedKeys(t, len);
    SetAfterRebuild(items);
    TreeHoldsSet(Rebuild(items), len);
    SameItemsSameTree(TreeAfter(Rebuild(items), len), t);
  }

  lemma {:induction false} HistoriesAreFromBytes(edits: seq<Edit>, len: nat)
    requires EditsOf(edits, len)
    ensures FromBytes(TreeAfter(edits, len))
  {
    TreeHoldsSet(edits, len);
    forall item | item in SetAfter(edits)
      ensures BitKey(ByteKey(BitKey(item))) == BitKey(item)
    {
      ByteKeyBitKey(item);
    }
  }

  /** Whatever edits of equal-length items a tree comes from, saving it and inserting what was saved gives it back. */
  lemma {:induction false} SavedHistoryRebuilds(edits: seq<Edit>, len: nat)
    requires EditsOf(edits, len)
    ensures var saved := WalkItems(TreeAfter(edits, len));
            && EditsOf(Rebuild(saved), len) && TreeAfter(Rebuild(saved), len) == TreeAfter(edits, len)
            && Distinct(saved)
  {
    hide WalkItems, Rebuild, Distinct;
    TreeHoldsSet(edits, len);
    HistoriesAreFromBytes(edits, len);
    SaveThenRebuild(TreeAfter(edits, len), len);
  }
}
