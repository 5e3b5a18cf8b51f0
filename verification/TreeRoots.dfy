/**
  What the root of a tree commits to. The reference is a recursion over the set of items, bit by bit, that
  knows nothing of trees; and where the hash function does not collide on what is hashed for two trees, their
  roots agree only if they hold the same items.
 */
module TreeRoots {
  import opened Basics
  import opened PatriciaShape
  import opened BitKeys
  import opened PatriciaHistory
  import S = StateValue

  // ---------------------------------------------------------------- the reference

  ghost function WithBit(items: set<Key>, depth: nat, bit: Bit): set<Key>
  {
    set k | k in items && depth < |k| && k[depth] == bit
  }

  ghost predicate Only(items: set<Key>, k: Key)
  {
    items == {k}
  }

  /**
   * The root of a set of bit strings of one length: zero for none, the hash of a single item, and otherwise the
   * two halves at the first bit where the items differ, the zeros first.
   */
  ghost function RootOfSet(h: Hasher, items: set<Key>, depth: nat, len: nat): Hash
    requires depth <= len
    decreases len - depth
  {
    if items == {} then ZERO_HASH
    else if exists k :: Only(items, k) then
      var k :| Only(items, k);
      h.leaf(ByteKey(k))
    else if depth == len then ZERO_HASH
    else
      var zeros, ones := WithBit(items, depth, 0), WithBit(items, depth, 1);
      if ones == {} then RootOfSet(h, zeros, depth + 1, len)
      else if zeros == {} then RootOfSet(h, ones, depth + 1, len)
      else h.interior(RootOfSet(h, zeros, depth + 1, len), RootOfSet(h, ones, depth + 1, len))
  }

  lemma {:induction false} RootOfOne(h: Hasher, k: Key, depth: nat, len: nat)
    requires depth <= len
    ensures RootOfSet(h, {k}, depth, len) == h.leaf(ByteKey(k))
  {
    assert Only({k}, k);
    forall j | Only({k}, j) ensures j == k {
      assert j in {k};
    }
  }

  lemma {:induction false} NotOnly(items: set<Key>, i: Key, j: Key)
    requires i in items && j in items && i != j
    ensures !exists k :: Only(items, k)
  {
  }

  /** Items that agree at a bit: the root is found further on. */
  lemma {:induction false} RootSkips(h: Hasher, items: set<Key>, i: Key, j: Key, depth: nat, len: nat, bit: Bit)
    requires depth < len && i in items && j in items && i != j
    requires WithBit(items, depth, bit) == items && WithBit(items, depth, 1 - bit) == {}
    ensures RootOfSet(h, items, depth, len) == RootOfSet(h, items, depth + 1, len)
  {
    NotOnly(items, i, j);
  }

  /** Items that differ at a bit: the root joins the two halves. */
  lemma {:induction false} RootJoins(h: Hasher, items: set<Key>, i: Key, j: Key, depth: nat, len: nat)
    requires depth < len && i in WithBit(items, depth, 0) && j in WithBit(items, depth, 1)
    ensures RootOfSet(h, items, depth, len) ==
            h.interior(RootOfSet(h, WithBit(items, depth, 0), depth + 1, len), RootOfSet(h, WithBit(items, depth, 1), depth + 1, len))
  {
    NotOnly(items, i, j);
  }

  lemma {:induction false} SubtreeRoot(h: Hasher, t: Shape, depth: nat, len: nat)
    requires WellFormed(t) && depth <= |t.key| && forall k :: k in Items(t) ==> |k| == len
    ensures depth <= len && HashOf(h, t) == RootOfSet(h, Items(t), depth, len)
    decreases t, |t.key| - depth
  {
    hide RootOfSet, WithBit;
    KeyFits(t, len);
    if t.Leaf? {
      RootOfOne(h, t.key, depth, len);
    } else if depth < |t.key| {
      BitOfKey(t, depth);
      BranchHasTwo(t);
      var i, j :| i in Items(t) && j in Items(t) && i != j;
      SubtreeRoot(h, t, depth + 1, len);
      RootSkips(h, Items(t), i, j, depth, len, t.key[depth]);
    } else {
      var i, j := Halves(t);
      SubtreeRoot(h, t.zero, depth + 1, len);
      SubtreeRoot(h, t.one, depth + 1, len);
      RootJoins(h, Items(t), i, j, depth, len);
    }
  }

  lemma {:induction false} KeyFits(t: Shape, len: nat)
    requires WellFormed(t) && forall k :: k in Items(t) ==> |k| == len
    ensures if t.Leaf? then |t.key| == len else |t.key| < len
  {
    if t.Branch? {
      ItemsExtendKey(t);
      BranchSplits(t);
      var some :| some in Items(t);
    } else {
      assert t.key in Items(t);
    }
  }

  lemma {:induction false} Halves(t: Shape) returns (i: Key, j: Key)
    requires WellFormed(t) && t.Branch?
    ensures WithBit(Items(t), |t.key|, 0) == Items(t.zero) && WithBit(Items(t), |t.key|, 1) == Items(t.one)
    ensures i in Items(t.zero) && j in Items(t.one)
  {
    BranchSplits(t);
    ItemsExtendKey(t.zero);
    ItemsExtendKey(t.one);
    i :| i in Items(t.zero);
    j :| j in Items(t.one);
  }

  lemma {:induction false} BitOfKey(t: Shape, depth: nat)
    requires WellFormed(t) && depth < |t.key|
    ensures WithBit(Items(t), depth, t.key[depth]) == Items(t) && WithBit(Items(t), depth, 1 - t.key[depth]) == {}
  {
    hide WellFormed, Items;
    ItemsExtendKey(t);
  }

  /** The root of a tree is the root of the set it holds. */
  lemma {:induction false} RootIsOfSet(h: Hasher, t: Option<Shape>, len: nat)
    requires Uniform(t, len)
    ensures RootHash(h, t) == RootOfSet(h, Held(t), 0, 8 * len)
  {
    if t.Some? { SubtreeRoot(h, t.value, 0, 8 * len); }
  }

  // ---------------------------------------------------------------- what is hashed

  /** The input of one call of the hash function. */
  datatype Message = LeafOf(item: bytes) | InteriorOf(zero: Hash, one: Hash)

  function Digest(h: Hasher, m: Message): Hash
  {
    match m
    case LeafOf(item) => h.leaf(item)
    case InteriorOf(l, r) => h.interior(l, r)
  }

  ghost function HashedBelow(h: Hasher, t: Shape): set<Message>
  {
    match t
    case Leaf(k) => {LeafOf(ByteKey(k))}
    case Branch(_, l, r) => HashedBelow(h, l) + HashedBelow(h, r) + {InteriorOf(HashOf(h, l), HashOf(h, r))}
  }

  /** All that is hashed for the root of a tree. */
  ghost function Hashed(h: Hasher, t: Option<Shape>): set<Message>
  {
    if t.None? then {} else HashedBelow(h, t.value)
  }

  /** No two of the messages have the same digest, and none has the digest that stands for nothing. */
  ghost predicate NoDigestTwice(h: Hasher, nothing: Hash, messages: set<Message>)
  {
    && (forall m, n :: m in messages && n in messages && Digest(h, m) == Digest(h, n) ==> m == n)
    && (forall m :: m in messages ==> Digest(h, m) != nothing)
  }

  function Top(h: Hasher, t: Shape): Message
  {
    match t
    case Leaf(k) => LeafOf(ByteKey(k))
    case Branch(_, l, r) => InteriorOf(HashOf(h, l), HashOf(h, r))
  }

  lemma {:induction false} SameHashSameItems(h: Hasher, a: Shape, b: Shape, messages: set<Message>)
    requires HashedBelow(h, a) + HashedBelow(h, b) <= messages && NoDigestTwice(h, ZERO_HASH, messages)
    requires FromBytes(Some(a)) && FromBytes(Some(b)) && HashOf(h, a) == HashOf(h, b)
    ensures Items(a) == Items(b)
  {
    assert Top(h, a) in messages && Top(h, b) in messages;
    assert Digest(h, Top(h, a)) == Digest(h, Top(h, b));
    assert Top(h, a) == Top(h, b);
    if a.Leaf? {
      assert a.key in Held(Some(a)) && b.key in Held(Some(b));
    } else {
      assert FromBytes(Some(a.zero)) && FromBytes(Some(b.zero)) && FromBytes(Some(a.one)) && FromBytes(Some(b.one)) by {
        assert Items(a.zero) <= Items(a) && Items(a.one) <= Items(a) && Items(b.zero) <= Items(b) && Items(b.one) <= Items(b);
      }
      SameHashSameItems(h, a.zero, b.zero, messages);
      SameHashSameItems(h, a.one, b.one, messages);
    }
  }

  /** Where the hash function does not collide on what is hashed for two trees, equal roots mean equal trees. */
  lemma {:induction false} RootCommits(h: Hasher, a: Option<Shape>, b: Option<Shape>, len: nat)
    requires Uniform(a, len) && Uniform(b, len) && FromBytes(a) && FromBytes(b)
    requires NoDigestTwice(h, ZERO_HASH, Hashed(h, a) + Hashed(h, b))
    ensures RootHash(h, a) == RootHash(h, b) <==> Held(a) == Held(b)
    ensures RootHash(h, a) == RootHash(h, b) <==> a == b
  {
    if RootHash(h, a) == RootHash(h, b) {
      if a.Some? && b.Some? {
        SameHashSameItems(h, a.value, b.value, Hashed(h, a) + Hashed(h, b));
      } else if a.Some? {
        NeverZero(h, a.value, Hashed(h, a) + Hashed(h, b));
      } else if b.Some? {
        NeverZero(h, b.value, Hashed(h, a) + Hashed(h, b));
      }
    }
    if Held(a) == Held(b) { SameItemsSameTree(a, b); }
  }

  lemma {:induction false} NeverZero(h: Hasher, t: Shape, messages: set<Message>)
    requires HashedBelow(h, t) <= messages && NoDigestTwice(h, ZERO_HASH, messages)
    ensures HashOf(h, t) != ZERO_HASH
  {
    assert Top(h, t) in messages && Digest(h, Top(h, t)) == HashOf(h, t);
  }

  // ---------------------------------------------------------------- the hash function of the source

  /** SHA3 of the prefix 0 and the item, and of the prefix 1 and the two hashes. */
  function Prefixed(sha3: bytes -> Hash): Hasher
  {
    Hasher(item => sha3([0] + item), (l, r) => sha3([1] + l + r))
  }

  function Written(m: Message): bytes
  {
    match m
    case LeafOf(item) => [0] + item
    case InteriorOf(l, r) => [1] + l + r
  }

  /** Different messages are written as different bytes, so a collision of the digests is one of SHA3 itself. */
  lemma {:induction false} PrefixesSeparate(sha3: bytes -> Hash, nothing: Hash, messages: set<Message>)
    requires forall m, n :: m in messages && n in messages && sha3(Written(m)) == sha3(Written(n)) ==> Written(m) == Written(n)
    requires forall m :: m in messages ==> sha3(Written(m)) != nothing
    ensures NoDigestTwice(Prefixed(sha3), nothing, messages)
  {
    var h := Prefixed(sha3);
    forall m, n | m in messages && n in messages && Digest(h, m) == Digest(h, n)
      ensures m == n
    {
      assert sha3(Written(m)) == sha3(Written(n));
      WrittenInjective(m, n);
    }
    forall m | m in messages
      ensures Digest(h, m) != nothing
    {
      assert Digest(h, m) == sha3(Written(m));
    }
  }

  lemma {:induction false} WrittenInjective(m: Message, n: Message)
    requires Written(m) == Written(n)
    ensures m == n
  {
    assert Written(m)[0] == Written(n)[0];
    assert Written(m)[1..] == Written(n)[1..];
    if m.InteriorOf? {
      assert Written(m)[1..33] == m.zero && Written(n)[1..33] == n.zero;
      assert Written(m)[33..] == m.one && Written(n)[33..] == n.one;
    } else {
      assert Written(m)[1..] == m.item && Written(n)[1..] == n.item;
    }
  }

  // ---------------------------------------------------------------- the ledger

  /** The root of a ledger's tree fixes its unspent outputs. */
  lemma {:induction false} RootFixesOutputs(h: Hasher, a: S.State, b: S.State)
    requires S.Valid(a) && S.Valid(b) && NoDigestTwice(h, ZERO_HASH, Hashed(h, a.tree) + Hashed(h, b.tree))
    ensures RootHash(h, a.tree) == RootHash(h, b.tree) <==> S.IdsOf(a) == S.IdsOf(b)
  {
    RootCommits(h, a.tree, b.tree, 32);
    if S.IdsOf(a) == S.IdsOf(b) { S.IdsDetermineTree(a.tree, b.tree); }
  }
}
