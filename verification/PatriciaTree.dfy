/**
  The heap form of protocol/patricia: nodes whose structure never changes after construction and whose
  cached hash is filled in place, shared by any number of trees. Every method is tied to the function of
  the same name on shapes. Insert and Delete allocate and never write to an existing node, and the hash
  cache is only ever filled with the hash recomputed from the structure, so sharing is unobservable.
 */
module PatriciaTree {
  import opened Basics
  import opened PatriciaShape
  import opened BitKeys
  import opened PatriciaHistory

  class Node {
    const key: Key
    const isLeaf: bool
    const zero: Node?
    const one: Node?
    var hash: Option<Hash>
    ghost const shape: Shape
    ghost const below: set<Node>  // the node and everything below it

    /** The node and its children represent the shape. Only constant fields are read. */
    ghost predicate Rep()
      decreases shape
    {
      && shape.key == key
      && isLeaf == shape.Leaf?
      && (isLeaf ==> below == {this})
      && (!isLeaf ==>
            && zero != null && zero.shape == shape.zero && zero.Rep()
            && one != null && one.shape == shape.one && one.Rep()
            && below == {this} + zero.below + one.below)
    }

    /** A cached hash is the hash recomputed from the structure; leaves always carry theirs. */
    ghost predicate Cached(h: Hasher)
      reads this
    {
      && (hash.Some? ==> hash.value == HashOf(h, shape))
      && (isLeaf ==> hash.Some?)
    }

    constructor Leaf(key: Key, hash: Hash)
      ensures Rep() && shape == Shape.Leaf(key) && this.hash == Some(hash)
    {
      this.key, this.isLeaf, this.zero, this.one, this.hash := key, true, null, null, Some(hash);
      this.shape, this.below := Shape.Leaf(key), {this};
    }

    constructor Branch(key: Key, zero: Node, one: Node)
      requires zero.Rep() && one.Rep()
      ensures Rep() && shape == Shape.Branch(key, zero.shape, one.shape)
      ensures this.zero == zero && this.one == one && hash == None
    {
      this.key, this.isLeaf, this.zero, this.one, this.hash := key, false, zero, one, None;
      this.shape, this.below := Shape.Branch(key, zero.shape, one.shape), {this} + zero.below + one.below;
    }

    method CalcHash(h: Hasher)
      requires Rep() && forall m :: m in below ==> m.Cached(h)
      modifies below
      ensures forall m :: m in below ==> m.Cached(h) && (old(m.hash).Some? ==> m.hash == old(m.hash))
      ensures hash == Some(HashOf(h, shape))
      decreases shape
    {
      if hash.Some? {
        return;
      }
      zero.CalcHash(h);
      one.CalcHash(h);
      hash := Some(h.interior(zero.hash.value, one.hash.value));
    }
  }

  /** Every node that the operation returns is new or was there before, and keeps its cache correct. */
  ghost predicate CacheOk(n: Node, h: Hasher)
    reads n.below
  {
    forall m :: m in n.below ==> m.Cached(h)
  }

  lemma {:induction false} CommonPrefixUnique(a: Key, b: Key, c: nat)
    requires c <= |a| && c <= |b| && a[..c] == b[..c]
    requires c < |a| && c < |b| ==> a[c] != b[c]
    ensures CommonPrefix(a, b) == c
  {
    if c > 0 {
      assert a[..c][0] == b[..c][0];
      assert a[1..][..c - 1] == a[..c][1..];
      assert b[1..][..c - 1] == b[..c][1..];
      CommonPrefixUnique(a[1..], b[1..], c - 1);
    }
  }

  /** commonPrefixLen */
  method CommonPrefixLen(a: Key, b: Key) returns (common: nat)
    ensures common == CommonPrefix(a, b)
  {
    common := 0;
    while common < |a| && common < |b| && a[common] == b[common]
      invariant common <= |a| && common <= |b| && a[..common] == b[..common]
    {
      common := common + 1;
    }
    CommonPrefixUnique(a, b, common);
  }

  datatype InsertError = Success | KeyIsPrefix | OutOfRange

  function ErrorOf(outcome: InsertOutcome): InsertError
  {
    match outcome
    case Inserted(_) => Success
    case PrefixError => KeyIsPrefix
    case IndexPanic => OutOfRange
  }

  /** A copy of a branch with one child replaced, its key given by a leaf below, and its hash cleared. */
  method ReplaceChild(n: Node, key: Key, bit: Bit, child: Node, h: Hasher) returns (r: Node)
    requires n.Rep() && !n.isLeaf && CacheOk(n, h) && child.Rep() && CacheOk(child, h)
    ensures r.Rep() && fresh(r) && CacheOk(r, h)
    ensures r.shape == Shape.Branch(key, n.shape.WithChild(bit, child.shape).zero, n.shape.WithChild(bit, child.shape).one)
    ensures r.below <= {r} + n.below + child.below
  {
    if bit == 0 {
      r := new Node.Branch(key, child, n.one);
    } else {
      r := new Node.Branch(key, n.zero, child);
    }
  }

  /** insert: on failure the node is returned unchanged with the error. */
  method InsertNode(n: Node, key: Key, hash: Hash, h: Hasher) returns (r: Node, err: InsertError)
    requires n.Rep() && CacheOk(n, h) && hash == h.leaf(ByteKey(key))
    ensures err == ErrorOf(InsertAt(n.shape, key))
    ensures r.Rep() && CacheOk(r, h)
    ensures r.shape == if err.Success? then InsertAt(n.shape, key).tree else n.shape
    ensures forall m :: m in r.below ==> m in n.below || fresh(m)
    decreases n.shape
  {
    if n.key == key {
      if !n.isLeaf {
        return n, KeyIsPrefix;
      }
      r := new Node.Leaf(n.key, hash);
      return r, Success;
    }
    if n.key <= key {
      if n.isLeaf {
        return n, KeyIsPrefix;
      }
      var bit := key[|n.key|];
      var child: Node;
      child, err := InsertNode(if bit == 0 then n.zero else n.one, key, hash, h);
      if err != Success {
        return n, err;
      }
      r := ReplaceChild(n, n.key, bit, child, h);
      return r, Success;
    }
    r, err := SplitNode(n, key, hash, h);
  }

  /** The last part of insert: a new branch above the node, where its key and the new one part. */
  method SplitNode(n: Node, key: Key, hash: Hash, h: Hasher) returns (r: Node, err: InsertError)
    requires n.Rep() && CacheOk(n, h) && hash == h.leaf(ByteKey(key)) && !(n.key <= key)
    ensures err == ErrorOf(InsertAt(n.shape, key))
    ensures r.Rep() && CacheOk(r, h)
    ensures r.shape == if err.Success? then InsertAt(n.shape, key).tree else n.shape
    ensures forall m :: m in r.below ==> m in n.below || fresh(m)
  {
    var common := CommonPrefixLen(n.key, key);
    if common == |key| {
      return n, OutOfRange;
    }
    var leaf := new Node.Leaf(key, hash);
    if key[common] == 0 {
      r := new Node.Branch(key[..common], leaf, n);
    } else {
      r := new Node.Branch(key[..common], n, leaf);
    }
    return r, Success;
  }

  /** delete: null is returned when the whole subtree was the item. */
  method DeleteNode(n: Node, key: Key, h: Hasher) returns (r: Node?)
    requires n.Rep() && CacheOk(n, h) && WellFormed(n.shape) && !ExtendsItem(Items(n.shape), key)
    ensures r == null <==> DeleteAt(n.shape, key).None?
    ensures r != null ==> r.Rep() && CacheOk(r, h) && r.shape == DeleteAt(n.shape, key).value
    ensures r != null ==> forall m :: m in r.below ==> m in n.below || fresh(m)
    decreases n.shape
  {
    if key == n.key {
      if !n.isLeaf {
        return n;
      }
      return null;
    }
    if !(n.key <= key) {
      return n;
    }
    BelowIsBranch(n.shape, key);
    var bit := key[|n.key|];
    var newChild := DeleteNode(if bit == 0 then n.zero else n.one, key, h);
    if newChild == null {
      return if bit == 0 then n.one else n.zero;
    }
    r := ReplaceChild(n, newChild.key[..|n.key|], bit, newChild, h);
  }

  /** lookup */
  method LookupNode(n: Node, key: Key) returns (r: Node?)
    requires n.Rep() && !ExtendsItem(Items(n.shape), key)
    ensures r != null <==> LookupAt(n.shape, key)
    ensures r != null ==> r in n.below && r.Rep() && r.isLeaf && r.key == key
    decreases n.shape
  {
    if n.key == key {
      if !n.isLeaf {
        return null;
      }
      return n;
    }
    if !(n.key <= key) {
      return null;
    }
    BelowIsBranch(n.shape, key);
    var bit := key[|n.key|];
    r := LookupNode(if bit == 0 then n.zero else n.one, key);
  }

  /** walk with a callback that collects the items and never fails. */
  method WalkNode(n: Node) returns (items: seq<bytes>)
    requires n.Rep()
    ensures items == ByteKeys(WalkOrder(n.shape))
    decreases n.shape
  {
    if n.isLeaf {
      var item := ComputeByteKey(n.key);
      return [item];
    }
    var left := WalkNode(n.zero);
    var right := WalkNode(n.one);
    items := left + right;
  }

  class Tree {
    var root: Node?

    /** The value of the tree: its shape, or None for the empty tree. */
    ghost function Value(): Option<Shape>
      reads this
    {
      if root == null then None else Some(root.shape)
    }

    ghost function Nodes(): set<Node>
      reads this
    {
      if root == null then {} else root.below
    }

    ghost predicate Valid(h: Hasher)
      reads this, Nodes()
    {
      root != null ==> root.Rep() && WellFormed(root.shape) && CacheOk(root, h)
    }

    constructor ()
      ensures root == null
    {
      root := null;
    }

    /** *c.Tree = *original.Tree: the copy shares every node with the original. */
    constructor Copy(original: Tree)
      ensures root == original.root
    {
      root := original.root;
    }

    method Contains(item: bytes, h: Hasher) returns (found: bool)
      requires Valid(h) && !ExtendsItem(Held(Value()), BitKey(item))
      modifies Nodes()
      ensures Valid(h) && found == PatriciaHistory.Contains(Value(), item)
    {
      if root == null {
        return false;
      }
      var key := ComputeBitKey(item);
      var n := LookupNode(root, key);
      if n == null {
        return false;
      }
      ByteKeyBitKey(item);
      n.CalcHash(h);
      found := n.hash.value == h.leaf(item);
    }

    method Insert(item: bytes, h: Hasher) returns (err: InsertError)
      requires Valid(h)
      modifies this
      ensures root != null ==> root.Rep()
      ensures err == ErrorOf(PatriciaHistory.Insert(old(Value()), item))
      ensures err.Success? ==> Value() == Some(PatriciaHistory.Insert(old(Value()), item).tree)
      ensures !err.Success? ==> Value() == old(Value())
      ensures Valid(h)
      ensures forall m :: m in Nodes() ==> m in old(Nodes()) || fresh(m)
    {
      var key := ComputeBitKey(item);
      var hash := h.leaf(item);
      ByteKeyBitKey(item);
      if root == null {
        root := new Node.Leaf(key, hash);
        return Success;
      }
      InsertMeaning(root.shape, key);
      root, err := InsertNode(root, key, hash, h);
    }

    method Delete(item: bytes, h: Hasher)
      requires Valid(h) && !ExtendsItem(Held(Value()), BitKey(item))
      modifies this
      ensures root != null ==> root.Rep()
      ensures Value() == PatriciaHistory.Delete(old(Value()), item)
      ensures Valid(h)
      ensures forall m :: m in Nodes() ==> m in old(Nodes()) || fresh(m)
    {
      var key := ComputeBitKey(item);
      if root != null {
        DeleteMeaning(root.shape, key);
        root := DeleteNode(root, key, h);
      }
    }

    method RootHash(h: Hasher) returns (hash: Hash)
      requires Valid(h)
      modifies Nodes()
      ensures Valid(h) && hash == PatriciaHistory.RootHash(h, Value())
    {
      if root == null {
        return ZERO_HASH;
      }
      root.CalcHash(h);
      hash := root.hash.value;
    }

    method Walk() returns (items: seq<bytes>)
      requires root != null ==> root.Rep()
      ensures items == WalkItems(Value())
    {
      if root == null {
        return [];
      }
      items := WalkNode(root);
    }
  }
}
