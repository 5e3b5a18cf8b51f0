/**
  The radix-2 tree of protocol/patricia as a value: its shape without the cached hashes.
  Insertion, deletion and lookup are the recursive functions of the source; the theorems say
  that they act on the set of items, when exactly insertion fails, and that a set has one shape only.
 */
module PatriciaShape {
  import opened Basics

  type Bit = b: int | 0 <= b < 2
  type Key = seq<Bit>

  datatype Shape =
    | Leaf(key: Key)
    | Branch(key: Key, zero: Shape, one: Shape)
  {
    function Child(bit: Bit): Shape
      requires Branch?
    {
      if bit == 0 then zero else one
    }

    function WithChild(bit: Bit, child: Shape): Shape
      requires Branch?
    {
      if bit == 0 then Branch(key, child, one) else Branch(key, zero, child)
    }
  }

  /** The items held by a tree, as bit strings. */
  ghost function Items(t: Shape): set<Key>
  {
    match t
    case Leaf(k) => {k}
    case Branch(_, l, r) => Items(l) + Items(r)
  }

  /** Every branch key is extended by a 0 bit on its left and by a 1 bit on its right. */
  ghost predicate WellFormed(t: Shape)
  {
    match t
    case Leaf(_) => true
    case Branch(k, l, r) => k + [0] <= l.key && k + [1] <= r.key && WellFormed(l) && WellFormed(r)
  }

  /** An item of the set that the given key properly extends. */
  ghost predicate ExtendsItem(items: set<Key>, key: Key)
  {
    exists i :: i in items && i < key
  }

  /** An item of the set that properly extends the given key. */
  ghost predicate PrefixOfItem(items: set<Key>, key: Key)
  {
    exists i :: i in items && key < i
  }

  // ---------------------------------------------------------------- operations

  /** commonPrefixLen as a function: the first index where the keys differ. */
  function CommonPrefix(a: Key, b: Key): (c: nat)
    ensures c <= |a| && c <= |b| && a[..c] == b[..c]
    ensures c < |a| && c < |b| ==> a[c] != b[c]
  {
    if a == [] || b == [] || a[0] != b[0] then 0
    else
      var c := CommonPrefix(a[1..], b[1..]);
      assert a[..c + 1] == [a[0]] + a[1..][..c];
      assert b[..c + 1] == [b[0]] + b[1..][..c];
      c + 1
  }

  datatype InsertOutcome =
    | Inserted(tree: Shape)
    | PrefixError    // the error value the source returns
    | IndexPanic     // key[common] is out of range: the key is a proper prefix of an item

  function InsertAt(n: Shape, key: Key): InsertOutcome
  {
    if n.key == key then
      if n.Branch? then PrefixError else Inserted(Leaf(n.key))
    else if n.key <= key then
      if n.Leaf? then PrefixError
      else
        var bit := key[|n.key|];
        match InsertAt(n.Child(bit), key)
        case Inserted(c) => Inserted(n.WithChild(bit, c))
        case failed => failed
    else
      var c := CommonPrefix(n.key, key);
      if c == |key| then IndexPanic
      else if key[c] == 0 then Inserted(Branch(key[..c], Leaf(key), n))
      else Inserted(Branch(key[..c], n, Leaf(key)))
  }

  /** None is the nil node that deleting the last item of a subtree leaves. */
  function DeleteAt(n: Shape, key: Key): (r: Option<Shape>)
    requires WellFormed(n) && !ExtendsItem(Items(n), key)
    ensures r.Some? ==> n.key <= r.value.key
  {
    if key == n.key then
      if n.Branch? then Some(n) else None
    else if !(n.key <= key) then Some(n)
    else
      assert n.Leaf? ==> n.key in Items(n);
      var bit := key[|n.key|];
      assert Items(n.Child(bit)) <= Items(n);
      assert n.key + [bit] <= n.Child(bit).key;
      match DeleteAt(n.Child(bit), key)
      case None => Some(n.Child(1 - bit))
      case Some(c) => Some(n.WithChild(bit, c).(key := c.key[..|n.key|]))
  }

  /** lookup returns the leaf with exactly this key, or nil. */
  function LookupAt(n: Shape, key: Key): bool
    requires !ExtendsItem(Items(n), key)
  {
    if n.key == key then n.Leaf?
    else if !(n.key <= key) then false
    else
      assert n.Leaf? ==> n.key in Items(n);
      assert Items(n.Child(key[|n.key|])) <= Items(n);
      LookupAt(n.Child(key[|n.key|]), key)
  }

  /** The order in which walk visits the leaves. */
  function WalkOrder(n: Shape): seq<Key>
  {
    match n
    case Leaf(k) => [k]
    case Branch(_, l, r) => WalkOrder(l) + WalkOrder(r)
  }

  // ---------------------------------------------------------------- structure of well-formed trees

  lemma {:induction false} ItemsExtendKey(t: Shape)
    requires WellFormed(t)
    ensures Items(t) != {} && forall i :: i in Items(t) ==> t.key <= i
  {
    if t.Branch? {
      ItemsExtendKey(t.zero);
      ItemsExtendKey(t.one);
    }
  }

  /** In a branch, the bit after the branch key says which side an item is on. */
  lemma {:induction false} BranchSplits(t: Shape)
    requires WellFormed(t) && t.Branch?
    ensures forall i :: i in Items(t) ==> |t.key| < |i| && t.key <= i
    ensures forall i :: i in Items(t.zero) <==> i in Items(t) && i[|t.key|] == 0
    ensures forall i :: i in Items(t.one) <==> i in Items(t) && i[|t.key|] == 1
  {
    ItemsExtendKey(t.zero);
    ItemsExtendKey(t.one);
    forall i | i in Items(t)
      ensures |t.key| < |i| && t.key <= i
      ensures i in Items(t.zero) <==> i[|t.key|] == 0
      ensures i in Items(t.one) <==> i[|t.key|] == 1
    {
      if i in Items(t.zero) { assert t.key + [0] <= i; }
      if i in Items(t.one) { assert t.key + [1] <= i; }
    }
  }

  /** A tree never holds an item together with a proper prefix of it. */
  lemma {:induction false} PrefixFree(t: Shape, i: Key)
    requires WellFormed(t) && i in Items(t)
    ensures !ExtendsItem(Items(t), i) && !PrefixOfItem(Items(t), i)
  {
    if t.Branch? {
      BranchSplits(t);
      var bit := i[|t.key|];
      PrefixFree(t.Child(bit), i);
      forall j | j in Items(t) && (j < i || i < j)
        ensures j in Items(t.Child(bit))
      {
        assert j[|t.key|] == i[|t.key|];
      }
    }
  }

  lemma {:induction false} BelowIsBranch(t: Shape, key: Key)
    requires t.key < key && !ExtendsItem(Items(t), key)
    ensures t.Branch? && !ExtendsItem(Items(t.Child(key[|t.key|])), key)
  {
    assert t.Leaf? ==> t.key in Items(t);
  }

  // ---------------------------------------------------------------- the operations act on the set

  ghost predicate InsertCorrect(t: Shape, key: Key)
  {
    var out := InsertAt(t, key);
    && (out.Inserted? <==> !ExtendsItem(Items(t), key) && !PrefixOfItem(Items(t), key))
    && (out.Inserted? ==> WellFormed(out.tree) && Items(out.tree) == Items(t) + {key})
    && (ExtendsItem(Items(t), key) ==> out.PrefixError?)
  }

  lemma {:induction false} InsertMeaning(t: Shape, key: Key)
    requires WellFormed(t)
    ensures InsertCorrect(t, key)
  {
    if t.key == key {
      InsertHere(t, key);
    } else if !(t.key <= key) {
      InsertSplit(t, key);
    } else if t.Leaf? {
      assert t.key in Items(t) && t.key < key;
    } else {
      InsertMeaning(t.Child(key[|t.key|]), key);
      InsertBelow(t, key);
    }
  }

  /** The case where the path ends at a node with this very key. */
  lemma {:induction false} InsertHere(t: Shape, key: Key)
    requires WellFormed(t) && t.key == key
    ensures InsertCorrect(t, key)
  {
    ItemsExtendKey(t);
    if t.Branch? {
      BranchSplits(t);
      var i :| i in Items(t);
      assert key < i;
    }
  }

  /** The case where the path goes on below a branch. */
  lemma {:induction false} InsertBelow(t: Shape, key: Key)
    requires WellFormed(t) && t.Branch? && t.key < key
    requires InsertCorrect(t.Child(key[|t.key|]), key)
    ensures InsertCorrect(t, key)
  {
    var bit := key[|t.key|];
    var out := InsertAt(t.Child(bit), key);
    SideIrrelevant(t, key);
    if out.Inserted? {
      assert t.key + [bit] <= key;
      ChildKeyKept(t, bit, key, out.tree);
      var t' := t.WithChild(bit, out.tree);
      assert InsertAt(t, key) == Inserted(t');
      assert Items(t') == Items(t) + {key};
      assert WellFormed(t');
    } else {
      assert InsertAt(t, key) == out;
    }
  }

  /** Only the items on a key's own side of a branch are comparable with it. */
  lemma {:induction false} SideIrrelevant(t: Shape, key: Key)
    requires WellFormed(t) && t.Branch? && t.key <= key && |t.key| < |key|
    ensures ExtendsItem(Items(t), key) <==> ExtendsItem(Items(t.Child(key[|t.key|])), key)
    ensures PrefixOfItem(Items(t), key) <==> PrefixOfItem(Items(t.Child(key[|t.key|])), key)
  {
    BranchSplits(t);
    var child := t.Child(key[|t.key|]);
    forall i | i in Items(t) && (i < key || key < i)
      ensures i in Items(child)
    {
      assert i[|t.key|] == key[|t.key|];
    }
  }

  /** A prefix shared by all items of a tree is a prefix of its key. */
  lemma {:induction false} SharedPrefix(c: Shape, p: Key)
    requires WellFormed(c) && forall i :: i in Items(c) ==> p <= i
    ensures p <= c.key
  {
    if c.Leaf? {
      assert c.key in Items(c);
    } else {
      BranchSplits(c);
      ItemsExtendKey(c.zero);
      ItemsExtendKey(c.one);
      var i :| i in Items(c.zero);
      var j :| j in Items(c.one);
      assert i in Items(c) && j in Items(c);
      assert p <= i && p <= j && c.key <= i && i[|c.key|] != j[|c.key|];
      assert |p| <= |c.key|;
      assert c.key[..|p|] == i[..|p|] == p;
    }
  }

  /** The subtree that insertion returns still belongs on the same side of the branch. */
  lemma {:induction false} ChildKeyKept(t: Shape, bit: Bit, key: Key, c: Shape)
    requires WellFormed(t) && t.Branch? && t.key + [bit] <= key
    requires WellFormed(c) && Items(c) == Items(t.Child(bit)) + {key}
    ensures t.key + [bit] <= c.key
  {
    var p := t.key + [bit];
    ItemsExtendKey(t.Child(bit));
    assert p <= t.Child(bit).key;
    forall i | i in Items(c)
      ensures p <= i
    {
      if i != key { assert t.Child(bit).key <= i; }
    }
    SharedPrefix(c, p);
  }

  /** The case where the new key leaves the path inside the node's own key. */
  lemma {:induction false} InsertSplit(t: Shape, key: Key)
    requires WellFormed(t) && t.key != key && !(t.key <= key)
    ensures InsertCorrect(t, key)
  {
    var c := CommonPrefix(t.key, key);
    assert c < |t.key| by { assert t.key[..c] == key[..c]; }
    if c == |key| {
      assert key < t.key by { assert t.key[..c] == key[..c]; }
      ItemsExtendKey(t);
      var i :| i in Items(t);
      assert PrefixOfItem(Items(t), key) by { assert key < i; }
      NotBelowKey(t, key);
    } else {
      NotComparable(t, key, c);
      NewBranch(t, key, c);
    }
  }

  lemma {:induction false} NewBranch(t: Shape, key: Key, c: nat)
    requires WellFormed(t) && c < |t.key| && c < |key| && t.key[c] != key[c] && t.key[..c] == key[..c]
    ensures key[c] == 0 ==> WellFormed(Branch(key[..c], Leaf(key), t))
    ensures key[c] == 1 ==> WellFormed(Branch(key[..c], t, Leaf(key)))
  {
    assert key[..c] + [key[c]] == key[..c + 1];
    assert t.key[..c] + [t.key[c]] == t.key[..c + 1];
  }

  lemma {:induction false} NotBelowKey(t: Shape, key: Key)
    requires WellFormed(t) && key < t.key
    ensures !ExtendsItem(Items(t), key)
  {
    ItemsExtendKey(t);
  }

  lemma {:induction false} NotComparable(t: Shape, key: Key, c: nat)
    requires WellFormed(t) && c < |t.key| && c < |key| && t.key[c] != key[c]
    ensures !ExtendsItem(Items(t), key) && !PrefixOfItem(Items(t), key)
  {
    ItemsExtendKey(t);
    forall i | i in Items(t)
      ensures !(key < i) && !(i < key)
    {
      assert i[c] == t.key[c];
    }
  }

  ghost predicate DeleteCorrect(t: Shape, key: Key)
    requires WellFormed(t) && !ExtendsItem(Items(t), key)
  {
    var out := DeleteAt(t, key);
    && (out.None? <==> Items(t) == {key})
    && (out.Some? ==> WellFormed(out.value) && Items(out.value) == Items(t) - {key})
  }

  lemma {:induction false} DeleteMeaning(t: Shape, key: Key)
    requires WellFormed(t) && !ExtendsItem(Items(t), key)
    ensures DeleteCorrect(t, key)
  {
    if key == t.key {
      if t.Branch? {
        BranchSplits(t);
        ItemsExtendKey(t);
        assert key !in Items(t);
      }
    } else if !(t.key <= key) {
      ItemsExtendKey(t);
      assert key !in Items(t);
    } else {
      assert t.Leaf? ==> t.key in Items(t);
      SideIrrelevant(t, key);
      DeleteMeaning(t.Child(key[|t.key|]), key);
      DeleteBelow(t, key);
    }
  }

  lemma {:induction false} DeleteBelow(t: Shape, key: Key)
    requires WellFormed(t) && t.Branch? && t.key < key
    requires !ExtendsItem(Items(t), key) && !ExtendsItem(Items(t.Child(key[|t.key|])), key)
    requires DeleteCorrect(t.Child(key[|t.key|]), key)
    ensures DeleteCorrect(t, key)
  {
    var bit := key[|t.key|];
    var child, other := t.Child(bit), t.Child(1 - bit);
    OtherSide(t, key);
    assert Items(t) == Items(child) + Items(other);
    assert t.key + [bit] <= child.key;
    var out := DeleteAt(child, key);
    if out.Some? {
      assert out.value.key[..|t.key|] == t.key;
      assert Items(t) - {key} == Items(out.value) + Items(other);
    } else {
      assert Items(t) - {key} == Items(other);
    }
  }

  lemma {:induction false} OtherSide(t: Shape, key: Key)
    requires WellFormed(t) && t.Branch? && t.key < key
    ensures key !in Items(t.Child(1 - key[|t.key|])) && Items(t) != {key}
  {
    BranchSplits(t);
    BranchHasTwo(t);
  }

  lemma {:induction false} LookupMeaning(t: Shape, key: Key)
    requires WellFormed(t) && !ExtendsItem(Items(t), key)
    ensures LookupAt(t, key) <==> key in Items(t)
  {
    ItemsExtendKey(t);
    if t.key == key {
      if t.Branch? { BranchSplits(t); }
    } else if t.key <= key {
      assert t.Leaf? ==> t.key in Items(t);
      BranchSplits(t);
      SideIrrelevant(t, key);
      LookupMeaning(t.Child(key[|t.key|]), key);
    }
  }

  // ---------------------------------------------------------------- canonicity

  /** A set of bit strings has at most one well-formed tree: history does not matter. */
  lemma {:induction false} Canonical(a: Shape, b: Shape)
    requires WellFormed(a) && WellFormed(b) && Items(a) == Items(b)
    ensures a == b
  {
    if a.Leaf? || b.Leaf? {
      BranchHasTwo(a);
      BranchHasTwo(b);
      assert a.Leaf? && b.Leaf?;
      assert a.key in Items(b);
    } else {
      BranchKeyLongest(a, b);
      BranchKeyLongest(b, a);
      BranchSplits(a);
      BranchSplits(b);
      assert Items(a.zero) == Items(b.zero);
      assert Items(a.one) == Items(b.one);
      Canonical(a.zero, b.zero);
      Canonical(a.one, b.one);
    }
  }

  lemma {:induction false} BranchHasTwo(t: Shape)
    requires WellFormed(t)
    ensures t.Branch? ==> exists i, j :: i in Items(t) && j in Items(t) && i != j
    ensures t.Leaf? <==> Items(t) == {t.key}
  {
    if t.Branch? {
      BranchSplits(t);
      ItemsExtendKey(t.zero);
      ItemsExtendKey(t.one);
      var i :| i in Items(t.zero);
      var j :| j in Items(t.one);
      assert i[|t.key|] != j[|t.key|];
      assert i in Items(t) && j in Items(t);
    }
  }

  /** A branch key is the longest common prefix of the items: no other tree of the set has a longer one. */
  lemma {:induction false} BranchKeyLongest(a: Shape, b: Shape)
    requires WellFormed(a) && WellFormed(b) && Items(a) == Items(b) && a.Branch? && b.Branch?
    ensures b.key <= a.key
  {
    ItemsExtendKey(b);
    SharedPrefix(a, b.key);
  }

  // ---------------------------------------------------------------- walk

  ghost function SetOf<T>(s: seq<T>): set<T>
  {
    set x | x in s
  }

  ghost predicate Distinct<T>(s: seq<T>)
  {
    forall i, j :: 0 <= i < j < |s| ==> s[i] != s[j]
  }

  /** walk visits every item exactly once. */
  lemma {:induction false} WalkVisitsEachOnce(t: Shape)
    requires WellFormed(t)
    ensures SetOf(WalkOrder(t)) == Items(t) && Distinct(WalkOrder(t))
  {
    if t.Branch? {
      WalkVisitsEachOnce(t.zero);
      WalkVisitsEachOnce(t.one);
      BranchSplits(t);
      var l, r := WalkOrder(t.zero), WalkOrder(t.one);
      assert SetOf(l + r) == SetOf(l) + SetOf(r);
      forall i, j | 0 <= i < |l| && 0 <= j < |r|
        ensures l[i] != r[j]
      {
        assert l[i] in SetOf(l) && r[j] in SetOf(r);
      }
    }
  }
}
