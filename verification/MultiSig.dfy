/** Greedy matching of CHECKMULTISIG finds a match whenever there is one. */
module MultiSig {
  import opened Basics
  import opened VmTypes
  import opened Machine
  import opened CryptoOps

  /** `at` sends every signature, in order, to a key of its own that verifies it. */
  ghost predicate Matching(c: Crypto, msg: bytes, keys: seq<bytes>, sigs: seq<bytes>, at: seq<nat>)
  {
    && |at| == |sigs|
    && (forall i :: 0 <= i < |at| ==> at[i] < |keys|)
    && (forall i, j :: 0 <= i < j < |at| ==> at[i] < at[j])
    && (forall i :: 0 <= i < |at| && at[i] < |keys| ==> c.verify(keys[at[i]], msg, sigs[i]))
  }

  ghost predicate Matchable(c: Crypto, msg: bytes, keys: seq<bytes>, sigs: seq<bytes>)
  {
    exists at :: Matching(c, msg, keys, sigs, at)
  }

  function Shifted(at: seq<nat>, d: int): (r: seq<nat>)
    requires forall i :: 0 <= i < |at| ==> at[i] + d >= 0
    ensures |r| == |at| && forall i :: 0 <= i < |at| ==> r[i] == at[i] + d
  {
    seq(|at|, i requires 0 <= i < |at| => at[i] + d)
  }

  /** The matching loop succeeds exactly when some order-preserving one-to-one matching verifies, whatever `verify` is. */
  lemma {:induction false} GreedyComplete(c: Crypto, msg: bytes, keys: seq<bytes>, sigs: seq<bytes>)
    ensures Greedy(c, msg, keys, sigs) <==> Matchable(c, msg, keys, sigs)
    decreases |keys|
  {
    if sigs == [] {
      assert Matching(c, msg, keys, sigs, []);
    } else if keys != [] {
      var left := if c.verify(keys[0], msg, sigs[0]) then sigs[1..] else sigs;
      GreedyComplete(c, msg, keys[1..], left);
      if Greedy(c, msg, keys, sigs) {
        var at :| Matching(c, msg, keys[1..], left, at);
        Widen(c, msg, keys, sigs, at);
      }
      if Matchable(c, msg, keys, sigs) {
        var at :| Matching(c, msg, keys, sigs, at);
        Narrow(c, msg, keys, sigs, at);
      }
    } else {
      NoKeys(c, msg, sigs);
    }
  }

  lemma {:induction false} NoKeys(c: Crypto, msg: bytes, sigs: seq<bytes>)
    requires sigs != []
    ensures !Matchable(c, msg, [], sigs)
  {
    forall at: seq<nat> ensures !Matching(c, msg, [], sigs, at) {
      assert |at| == |sigs| ==> at[0] >= 0;
    }
  }

  /** A matching that does without the first key extends to all keys. */
  lemma {:induction false} Widen(c: Crypto, msg: bytes, keys: seq<bytes>, sigs: seq<bytes>, at: seq<nat>)
    requires keys != [] && sigs != []
    requires Matching(c, msg, keys[1..], if c.verify(keys[0], msg, sigs[0]) then sigs[1..] else sigs, at)
    ensures Matchable(c, msg, keys, sigs)
  {
    var wide := Shifted(at, 1);
    if c.verify(keys[0], msg, sigs[0]) {
      WidenUsed(c, msg, keys, sigs, at, [0] + wide);
    } else {
      forall i | 0 <= i < |wide| ensures c.verify(keys[wide[i]], msg, sigs[i]) {
        assert keys[wide[i]] == keys[1..][at[i]];
      }
      assert Matching(c, msg, keys, sigs, wide);
    }
  }

  lemma {:induction false} WidenUsed(c: Crypto, msg: bytes, keys: seq<bytes>, sigs: seq<bytes>, at: seq<nat>, wide: seq<nat>)
    requires keys != [] && sigs != [] && c.verify(keys[0], msg, sigs[0])
    requires Matching(c, msg, keys[1..], sigs[1..], at)
    requires |wide| == |at| + 1 && wide[0] == 0
    requires forall i :: 0 <= i < |at| ==> wide[i + 1] == at[i] + 1
    ensures Matchable(c, msg, keys, sigs)
  {
    forall i | 0 <= i < |wide| ensures wide[i] < |keys| && c.verify(keys[wide[i]], msg, sigs[i]) {
      if i > 0 {
        assert wide[(i - 1) + 1] == at[i - 1] + 1;
        assert keys[wide[i]] == keys[1..][at[i - 1]] && sigs[i] == sigs[1..][i - 1];
      }
    }
    forall i, j | 0 <= i < j < |wide| ensures wide[i] < wide[j] {
      assert wide[(j - 1) + 1] == at[j - 1] + 1;
      if i > 0 { assert wide[(i - 1) + 1] == at[i - 1] + 1; }
    }
    assert Matching(c, msg, keys, sigs, wide);
  }

  /** Using the first key for the first signature, when it verifies, never loses a matching. */
  lemma {:induction false} Narrow(c: Crypto, msg: bytes, keys: seq<bytes>, sigs: seq<bytes>, at: seq<nat>)
    requires keys != [] && sigs != [] && Matching(c, msg, keys, sigs, at)
    ensures Matchable(c, msg, keys[1..], if c.verify(keys[0], msg, sigs[0]) then sigs[1..] else sigs)
  {
    if c.verify(keys[0], msg, sigs[0]) {
      assert Matching(c, msg, keys[1..], sigs[1..], Shifted(at[1..], -1));
    } else {
      assert at[0] != 0;
      assert Matching(c, msg, keys[1..], sigs, Shifted(at, -1));
    }
  }

  // ---------------------------------------------------------------- the stack holds both lists the other way round

  function Reversed<T>(s: seq<T>): (r: seq<T>)
    ensures |r| == |s|
    ensures forall i :: 0 <= i < |s| ==> r[i] == s[|s| - 1 - i]
  {
    if s == [] then [] else [s[|s| - 1]] + Reversed(s[..|s| - 1])
  }

  lemma {:induction false} PopManyItems(vm: VM, n: nat)
    requires Ready(vm) && n <= |vm.dataStack|
    ensures PopMany(vm, n).value.1 == Reversed(vm.dataStack[|vm.dataStack| - n..])
    decreases n
  {
    hide Weight;
    var l := |vm.dataStack|;
    if n > 0 {
      var r := Pop(vm, true);
      PopManyItems(r.value.0, n - 1);
      assert vm.dataStack[l - n..][..n - 1] == r.value.0.dataStack[l - n..];
    }
  }

  lemma {:induction false} ReversedTwice<T>(s: seq<T>)
    ensures Reversed(Reversed(s)) == s
  {
  }

  lemma {:induction false} ReverseOneWay(c: Crypto, msg: bytes, keys: seq<bytes>, sigs: seq<bytes>)
    requires Matchable(c, msg, keys, sigs)
    ensures Matchable(c, msg, Reversed(keys), Reversed(sigs))
  {
    var at :| Matching(c, msg, keys, sigs, at);
    var n := |at|;
    var back: seq<nat> := seq(n, i requires 0 <= i < n => |keys| - 1 - at[n - 1 - i]);
    BackMatches(c, msg, keys, sigs, at, back);
  }

  lemma {:induction false} BackMatches(c: Crypto, msg: bytes, keys: seq<bytes>, sigs: seq<bytes>, at: seq<nat>, back: seq<nat>)
    requires Matching(c, msg, keys, sigs, at)
    requires |back| == |at| && forall i :: 0 <= i < |at| ==> back[i] == |keys| - 1 - at[|at| - 1 - i]
    ensures Matchable(c, msg, Reversed(keys), Reversed(sigs))
  {
    hide Reversed;
    var n := |at|;
    var rkeys, rsigs := Reversed(keys), Reversed(sigs);
    forall i | 0 <= i < n ensures back[i] < |keys| && c.verify(rkeys[back[i]], msg, rsigs[i]) {
      assert at[n - 1 - i] < |keys|;
      assert rkeys[back[i]] == keys[at[n - 1 - i]] && rsigs[i] == sigs[n - 1 - i];
    }
    forall i, j | 0 <= i < j < n ensures back[i] < back[j] {
      assert at[n - 1 - j] < at[n - 1 - i];
    }
    assert Matching(c, msg, rkeys, rsigs, back);
  }

  lemma {:induction false} MatchReversed(c: Crypto, msg: bytes, keys: seq<bytes>, sigs: seq<bytes>)
    ensures Matchable(c, msg, Reversed(keys), Reversed(sigs)) <==> Matchable(c, msg, keys, sigs)
  {
    if Matchable(c, msg, keys, sigs) {
      ReverseOneWay(c, msg, keys, sigs);
    }
    if Matchable(c, msg, Reversed(keys), Reversed(sigs)) {
      ReverseOneWay(c, msg, Reversed(keys), Reversed(sigs));
      ReversedTwice(keys);
      ReversedTwice(sigs);
    }
  }

  // ---------------------------------------------------------------- the opcode

  /** The data stack CHECKMULTISIG expects. */
  function MultiSigStack(rest: seq<bytes>, sigs: seq<bytes>, msg: bytes, keys: seq<bytes>): seq<bytes>
  {
    rest + sigs + [msg] + keys
  }

  /**
   * After the two counts: every item is popped, and true is pushed exactly when all keys have the right
   * size and the signatures match keys in the order both were pushed.
   */
  lemma {:induction false} TailMeaning(c: Crypto, vm: VM, rest: seq<bytes>, sigs: seq<bytes>, msg: bytes, keys: seq<bytes>)
    requires Ready(vm) && |msg| == 32 && vm.dataStack == MultiSigStack(rest, sigs, msg, keys)
    ensures var r := MultiSigTail(c, vm, |keys|, |sigs|);
            && r.Go?
            && r.value.dataStack == rest + [BoolBytes(AllKeySized(keys) && Matchable(c, msg, keys, sigs))]
            && r.value.runLimit == vm.runLimit
  {
    hide Weight, PopMany, Pop, PushDeferred, Matchable, Greedy;
    var l := |vm.dataStack|;
    var (vm1, k) := PopMany(vm, |keys|).value;
    PopManyItems(vm, |keys|);
    assert vm.dataStack[l - |keys|..] == keys;
    assert vm1.dataStack == rest + sigs + [msg];
    var (vm2, m) := Pop(vm1, true).value;
    SameTop(vm2.dataStack, m, rest + sigs, msg);
    var (vm3, s) := PopMany(vm2, |sigs|).value;
    PopManyItems(vm2, |sigs|);
    assert vm2.dataStack[|rest|..] == sigs;
    assert vm3.dataStack == rest;
    GreedyComplete(c, msg, k, s);
    MatchReversed(c, msg, keys, sigs);
    KeySizes(keys);
  }

  lemma {:induction false} SameTop(s: seq<bytes>, x: bytes, t: seq<bytes>, y: bytes)
    requires s + [x] == t + [y]
    ensures s == t && x == y
  {
    assert |s + [x]| == |t + [y]|;
    assert s == (s + [x])[..|s|] && x == (s + [x])[|s|];
    assert t == (t + [y])[..|t|] && y == (t + [y])[|t|];
  }

  lemma {:induction false} KeySizes(keys: seq<bytes>)
    ensures AllKeySized(Reversed(keys)) == AllKeySized(keys)
  {
    var back := Reversed(keys);
    assert forall i :: 0 <= i < |keys| ==> keys[i] == back[|keys| - 1 - i];
  }
}
