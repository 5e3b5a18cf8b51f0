/**
  protocol/bc/merkle.go: the Merkle root of a list of transactions. The reference hashes the leaves and then
  joins neighbours level by level; and the root fixes the list of transaction identifiers.
 */
module Merkle {
  import opened Basics
  import opened Entries
  import opened PatriciaHistory
  import opened TreeRoots

  // ---------------------------------------------------------------- prevPowerOfTwo

  /** The number of times n can be halved before it reaches one. */
  function Exponent(n: nat): (e: nat)
    requires n >= 1
    ensures Pow2(e) <= n < 2 * Pow2(e)
  {
    if n == 1 then 0 else Exponent(n / 2) + 1
  }

  function PrevPowerOfTwo(n: nat): (k: nat)
    requires n >= 2
    ensures k < n <= 2 * k && exists e: nat :: k == Pow2(e)
  {
    var e := Exponent(n);
    assert e > 0;
    if n == Pow2(e) then
      assert n / 2 == Pow2(e - 1);
      n / 2
    else Pow2(e)
  }

  /** There is only one power of two with n above it and at most twice it. */
  lemma {:induction false} PowerIsUnique(n: nat, e: nat, f: nat)
    requires Pow2(e) < n <= 2 * Pow2(e) && Pow2(f) < n <= 2 * Pow2(f)
    ensures e == f
  {
    if e < f { PowGrows(e + 1, f); }
    if f < e { PowGrows(f + 1, e); }
  }

  lemma {:induction false} PowGrows(e: nat, f: nat)
    requires e <= f
    ensures Pow2(e) <= Pow2(f)
    decreases f - e
  {
    if e < f { PowGrows(e + 1, f); }
  }

  lemma {:induction false} HalvedPower(n: nat)
    requires n >= 3
    ensures PrevPowerOfTwo(n) == 2 * PrevPowerOfTwo((n + 1) / 2)
  {
    hide PrevPowerOfTwo;
    var k, j := PrevPowerOfTwo(n), PrevPowerOfTwo((n + 1) / 2);
    var e: nat :| k == Pow2(e);
    var f: nat :| j == Pow2(f);
    assert Pow2(f + 1) == 2 * j;
    assert e > 0;
    assert Pow2(e) == 2 * Pow2(e - 1);
    PowerIsUnique(n, e, f + 1);
  }

  // ---------------------------------------------------------------- MerkleRoot

  /** The empty list has a root of its own. */
  function MerkleRoot(h: Hasher, empty: Hash, txs: seq<Tx>): Hash
    decreases |txs|
  {
    if |txs| == 0 then empty
    else if |txs| == 1 then h.leaf(txs[0].id)
    else
      var k := PrevPowerOfTwo(|txs|);
      h.interior(MerkleRoot(h, empty, txs[..k]), MerkleRoot(h, empty, txs[k..]))
  }

  // ---------------------------------------------------------------- level by level

  function Leaves(h: Hasher, txs: seq<Tx>): (r: seq<Hash>)
    ensures |r| == |txs|
  {
    seq<Hash>(|txs|, i requires 0 <= i < |txs| => h.leaf(txs[i].id))
  }

  /** Join neighbours; a last one without a neighbour goes up as it is. */
  function PairUp(h: Hasher, hashes: seq<Hash>): (r: seq<Hash>)
    ensures |r| == (|hashes| + 1) / 2
  {
    if |hashes| < 2 then hashes else [h.interior(hashes[0], hashes[1])] + PairUp(h, hashes[2..])
  }

  function LevelByLevel(h: Hasher, hashes: seq<Hash>): Hash
    requires hashes != []
    decreases |hashes|
  {
    if |hashes| == 1 then hashes[0] else LevelByLevel(h, PairUp(h, hashes))
  }

  /** The recursion of the source, over hashes that are there already. */
  function Split(h: Hasher, hashes: seq<Hash>): Hash
    requires hashes != []
    decreases |hashes|
  {
    if |hashes| == 1 then hashes[0]
    else
      var k := PrevPowerOfTwo(|hashes|);
      h.interior(Split(h, hashes[..k]), Split(h, hashes[k..]))
  }

  lemma {:induction false} RootIsSplit(h: Hasher, empty: Hash, txs: seq<Tx>)
    requires txs != []
    ensures MerkleRoot(h, empty, txs) == Split(h, Leaves(h, txs))
    decreases |txs|
  {
    hide PrevPowerOfTwo;
    if |txs| > 1 {
      var k := PrevPowerOfTwo(|txs|);
      RootIsSplit(h, empty, txs[..k]);
      RootIsSplit(h, empty, txs[k..]);
      assert Leaves(h, txs)[..k] == Leaves(h, txs[..k]);
      assert Leaves(h, txs)[k..] == Leaves(h, txs[k..]);
    }
  }

  lemma {:induction false} PairUpParts(h: Hasher, hashes: seq<Hash>, k: nat)
    requires k <= |hashes| && k % 2 == 0
    ensures PairUp(h, hashes) == PairUp(h, hashes[..k]) + PairUp(h, hashes[k..])
    decreases k
  {
    if k == 0 {
      assert hashes[0..] == hashes && PairUp(h, hashes[..0]) == [];
    } else {
      PairUpParts(h, hashes[2..], k - 2);
      assert hashes[2..][..k - 2] == hashes[..k][2..];
      assert hashes[2..][k - 2..] == hashes[k..];
    }
  }

  /** Going up one level does not change what the recursion gives. */
  lemma {:induction false} SplitOfPairs(h: Hasher, hashes: seq<Hash>)
    requires hashes != []
    ensures Split(h, PairUp(h, hashes)) == Split(h, hashes)
    decreases |hashes|
  {
    hide PrevPowerOfTwo, PairUp, Split;
    if |hashes| >= 3 {
      var k := PrevPowerOfTwo(|hashes|);
      HalvedPower(|hashes|);
      var left, right := hashes[..k], hashes[k..];
      PairUpParts(h, hashes, k);
      var up := PairUp(h, hashes);
      assert up[..k / 2] == PairUp(h, left) && up[k / 2..] == PairUp(h, right);
      SplitUnfolds(h, hashes);
      SplitUnfolds(h, up);
      SplitOfPairs(h, left);
      SplitOfPairs(h, right);
    } else {
      SmallSplit(h, hashes);
    }
  }

  lemma {:induction false} SplitUnfolds(h: Hasher, hashes: seq<Hash>)
    requires |hashes| >= 2
    ensures var k := PrevPowerOfTwo(|hashes|); Split(h, hashes) == h.interior(Split(h, hashes[..k]), Split(h, hashes[k..]))
  {
  }

  lemma {:induction false} SmallSplit(h: Hasher, hashes: seq<Hash>)
    requires 1 <= |hashes| <= 2
    ensures Split(h, PairUp(h, hashes)) == Split(h, hashes)
  {
    if |hashes| == 2 {
      assert PrevPowerOfTwo(2) == 1;
      assert hashes[..1] == [hashes[0]] && hashes[1..] == [hashes[1]];
      assert PairUp(h, hashes[2..]) == [];
    }
  }

  lemma {:induction false} SplitIsLevels(h: Hasher, hashes: seq<Hash>)
    requires hashes != []
    ensures Split(h, hashes) == LevelByLevel(h, hashes)
    decreases |hashes|
  {
    if |hashes| > 1 {
      SplitOfPairs(h, hashes);
      SplitIsLevels(h, PairUp(h, hashes));
    }
  }

  /** The Merkle root is the top of the tree built level by level from the hashes of the identifiers. */
  lemma {:induction false} RootIsLevelByLevel(h: Hasher, empty: Hash, txs: seq<Tx>)
    ensures MerkleRoot(h, empty, txs) == if txs == [] then empty else LevelByLevel(h, Leaves(h, txs))
  {
    hide Split, LevelByLevel;
    if txs != [] {
      RootIsSplit(h, empty, txs);
      SplitIsLevels(h, Leaves(h, txs));
    }
  }

  // ---------------------------------------------------------------- what the root commits to

  ghost function HashedFor(h: Hasher, empty: Hash, txs: seq<Tx>): set<Message>
    decreases |txs|
  {
    if |txs| == 0 then {}
    else if |txs| == 1 then {LeafOf(txs[0].id)}
    else
      var k := PrevPowerOfTwo(|txs|);
      HashedFor(h, empty, txs[..k]) + HashedFor(h, empty, txs[k..])
      + {InteriorOf(MerkleRoot(h, empty, txs[..k]), MerkleRoot(h, empty, txs[k..]))}
  }

  function IdsOfTxs(txs: seq<Tx>): (r: seq<Hash>)
    ensures |r| == |txs|
  {
    seq(|txs|, i requires 0 <= i < |txs| => txs[i].id)
  }

  function TopOf(h: Hasher, empty: Hash, txs: seq<Tx>): Message
    requires txs != []
  {
    if |txs| == 1 then LeafOf(txs[0].id)
    else
      var k := PrevPowerOfTwo(|txs|);
      InteriorOf(MerkleRoot(h, empty, txs[..k]), MerkleRoot(h, empty, txs[k..]))
  }

  lemma {:induction false} TopIsHashed(h: Hasher, empty: Hash, txs: seq<Tx>)
    requires txs != []
    ensures TopOf(h, empty, txs) in HashedFor(h, empty, txs)
    ensures MerkleRoot(h, empty, txs) == Digest(h, TopOf(h, empty, txs))
    ensures |txs| >= 2 ==>
      var k := PrevPowerOfTwo(|txs|);
      && TopOf(h, empty, txs) == InteriorOf(MerkleRoot(h, empty, txs[..k]), MerkleRoot(h, empty, txs[k..]))
      && HashedFor(h, empty, txs[..k]) <= HashedFor(h, empty, txs) && HashedFor(h, empty, txs[k..]) <= HashedFor(h, empty, txs)
  {
    hide PrevPowerOfTwo;
  }

  lemma {:induction false} SameRootSameIds(h: Hasher, empty: Hash, a: seq<Tx>, b: seq<Tx>, messages: set<Message>)
    requires HashedFor(h, empty, a) + HashedFor(h, empty, b) <= messages && NoDigestTwice(h, empty, messages)
    requires MerkleRoot(h, empty, a) == MerkleRoot(h, empty, b)
    ensures IdsOfTxs(a) == IdsOfTxs(b)
    decreases |a|
  {
    hide PrevPowerOfTwo, HashedFor, MerkleRoot;
    EmptyRoot(h, empty);
    if a != [] { TopIsHashed(h, empty, a); }
    if b != [] { TopIsHashed(h, empty, b); }
    if a != [] && b != [] {
      assert TopOf(h, empty, a) == TopOf(h, empty, b);
      if |a| >= 2 {
        var k, j := PrevPowerOfTwo(|a|), PrevPowerOfTwo(|b|);
        SameRootSameIds(h, empty, a[..k], b[..j], messages);
        SameRootSameIds(h, empty, a[k..], b[j..], messages);
        assert IdsOfTxs(a) == IdsOfTxs(a[..k]) + IdsOfTxs(a[k..]);
        assert IdsOfTxs(b) == IdsOfTxs(b[..j]) + IdsOfTxs(b[j..]);
      }
    }
  }

  lemma {:induction false} EmptyRoot(h: Hasher, empty: Hash)
    ensures MerkleRoot(h, empty, []) == empty
  {
  }

  lemma {:induction false} SameIdsSameRoot(h: Hasher, empty: Hash, a: seq<Tx>, b: seq<Tx>)
    requires IdsOfTxs(a) == IdsOfTxs(b)
    ensures MerkleRoot(h, empty, a) == MerkleRoot(h, empty, b)
    decreases |a|
  {
    hide PrevPowerOfTwo;
    assert |a| == |b|;
    if |a| == 1 {
      assert IdsOfTxs(a)[0] == IdsOfTxs(b)[0];
    } else if |a| >= 2 {
      var k := PrevPowerOfTwo(|a|);
      assert IdsOfTxs(a[..k]) == IdsOfTxs(a)[..k] && IdsOfTxs(b[..k]) == IdsOfTxs(b)[..k];
      assert IdsOfTxs(a[k..]) == IdsOfTxs(a)[k..] && IdsOfTxs(b[k..]) == IdsOfTxs(b)[k..];
      SameIdsSameRoot(h, empty, a[..k], b[..k]);
      SameIdsSameRoot(h, empty, a[k..], b[k..]);
    }
  }

  /** Where the hash function does not collide, equal roots mean the same transactions in the same order. */
  lemma {:induction false} MerkleCommits(h: Hasher, empty: Hash, a: seq<Tx>, b: seq<Tx>)
    requires NoDigestTwice(h, empty, HashedFor(h, empty, a) + HashedFor(h, empty, b))
    ensures MerkleRoot(h, empty, a) == MerkleRoot(h, empty, b) <==> IdsOfTxs(a) == IdsOfTxs(b)
  {
    hide MerkleRoot, HashedFor, NoDigestTwice;
    if MerkleRoot(h, empty, a) == MerkleRoot(h, empty, b) {
      SameRootSameIds(h, empty, a, b, HashedFor(h, empty, a) + HashedFor(h, empty, b));
    }
    if IdsOfTxs(a) == IdsOfTxs(b) { SameIdsSameRoot(h, empty, a, b); }
  }
}
