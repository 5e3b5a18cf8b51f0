/** The multisig lock of protocol/vmutil/script.go and the witness of core/txbuilder/witness.go fit together. */
module Lock {
  import opened Basics
  import opened VmTypes
  import opened Opcodes
  import opened Machine
  import opened Assembly
  import opened Scripts
  import opened StackOps
  import opened CryptoOps
  import opened MultiSig
  import opened Interpreter
  import opened Outcomes
  import opened Metering
  import opened Straightline
  import opened Constraints
  import opened Witness

  // ---------------------------------------------------------------- the operations of the lock

  lemma {:induction false} DupExec(env: Env, vm: VM, s: seq<bytes>, x: bytes)
    requires Fresh(vm) && vm.dataStack == s + [x] && vm.runLimit >= 9 + |x|
    ensures ExecLeaf(env, vm, OP_DUP) == Go(vm.(runLimit := vm.runLimit - 9 - |x|, dataStack := s + [x] + [x]))
  {
    hide StackCost, ExecControl, ExecBytes, ExecNumeric, ExecContext, OpCheckMultiSig;
    assert ExecLeaf(env, vm, OP_DUP) == ExecStack(vm, OP_DUP) == NDup(vm, 1);
    var vm1 := vm.(runLimit := vm.runLimit - 1);
    var vm2 := vm1.(runLimit := vm1.runLimit - 8 - |x|, dataStack := s + [x] + [x]);
    assert Push(vm1, x) == Go(vm2);
    assert CopyUp(vm2, 1, 0) == Go(vm2);
  }

  lemma {:induction false} RunDup(env: Env, vm: VM, items: seq<Item>, s: seq<bytes>, x: bytes) returns (w: VM)
    requires Loaded(vm, items) && items != [] && items[0] == Plain(OP_DUP)
    requires vm.dataStack == s + [x] && vm.runLimit >= 9 + |x|
    ensures Moved(env, vm, items, w, s + [x] + [x], vm.altStack, vm.runLimit - 9 - |x|)
  {
    hide ExecLeaf, EncodeAll, Moved;
    var begun := Begun(vm, items[0]);
    DupExec(env, begun, s, x);
    w := RunPlain(env, vm, items, OP_DUP, ExecLeaf(env, begun, OP_DUP));
  }

  lemma {:induction false} ToAltExec(env: Env, vm: VM, s: seq<bytes>, x: bytes)
    requires Fresh(vm) && vm.dataStack == s + [x] && vm.runLimit >= 2
    ensures ExecLeaf(env, vm, OP_TOALTSTACK) == Go(vm.(runLimit := vm.runLimit - 2, dataStack := s, altStack := vm.altStack + [x]))
  {
    hide StackCost, ExecControl, ExecBytes, ExecNumeric, ExecContext, OpCheckMultiSig;
    assert ExecLeaf(env, vm, OP_TOALTSTACK) == ExecStack(vm, OP_TOALTSTACK) == OpToAltStack(vm);
    assert (s + [x])[..|s|] == s;
  }

  lemma {:induction false} RunToAlt(env: Env, vm: VM, items: seq<Item>, s: seq<bytes>, x: bytes) returns (w: VM)
    requires Loaded(vm, items) && items != [] && items[0] == Plain(OP_TOALTSTACK)
    requires vm.dataStack == s + [x] && vm.runLimit >= 2
    ensures Moved(env, vm, items, w, s, vm.altStack + [x], vm.runLimit - 2)
  {
    hide ExecLeaf, EncodeAll, Moved;
    var begun := Begun(vm, items[0]);
    ToAltExec(env, begun, s, x);
    w := RunPlain(env, vm, items, OP_TOALTSTACK, ExecLeaf(env, begun, OP_TOALTSTACK));
  }

  lemma {:induction false} FromAltExec(env: Env, vm: VM, alt: seq<bytes>, x: bytes)
    requires Fresh(vm) && vm.altStack == alt + [x] && vm.runLimit >= 2
    ensures ExecLeaf(env, vm, OP_FROMALTSTACK) == Go(vm.(runLimit := vm.runLimit - 2, dataStack := vm.dataStack + [x], altStack := alt))
  {
    hide StackCost, ExecControl, ExecBytes, ExecNumeric, ExecContext, OpCheckMultiSig;
    assert ExecLeaf(env, vm, OP_FROMALTSTACK) == ExecStack(vm, OP_FROMALTSTACK) == OpFromAltStack(vm);
    assert (alt + [x])[..|alt|] == alt;
  }

  lemma {:induction false} RunFromAlt(env: Env, vm: VM, items: seq<Item>, alt: seq<bytes>, x: bytes) returns (w: VM)
    requires Loaded(vm, items) && items != [] && items[0] == Plain(OP_FROMALTSTACK)
    requires vm.altStack == alt + [x] && vm.runLimit >= 2
    ensures Moved(env, vm, items, w, vm.dataStack + [x], alt, vm.runLimit - 2)
  {
    hide ExecLeaf, EncodeAll, Moved;
    var begun := Begun(vm, items[0]);
    FromAltExec(env, begun, alt, x);
    w := RunPlain(env, vm, items, OP_FROMALTSTACK, ExecLeaf(env, begun, OP_FROMALTSTACK));
  }

  function HashCost(x: bytes): nat
  {
    if |x| < 64 then 64 else |x|
  }

  lemma {:induction false} Sha3Exec(env: Env, vm: VM, s: seq<bytes>, x: bytes)
    requires Fresh(vm) && vm.dataStack == s + [x] && vm.runLimit + 8 + |x| >= HashCost(x) + 40
    ensures ExecLeaf(env, vm, OP_SHA3)
         == Go(vm.(runLimit := vm.runLimit + |x| - 32 - HashCost(x), dataStack := s + [env.crypto.sha3(x)]))
  {
    hide StackCost, ExecControl, ExecStack, ExecBytes, ExecNumeric, ExecContext, OpCheckMultiSig;
    assert ExecLeaf(env, vm, OP_SHA3) == DoHash(vm, env.crypto.sha3);
    assert (s + [x])[..|s|] == s;
  }

  lemma {:induction false} RunSha3(env: Env, vm: VM, items: seq<Item>, s: seq<bytes>, x: bytes) returns (w: VM)
    requires Loaded(vm, items) && items != [] && items[0] == Plain(OP_SHA3)
    requires vm.dataStack == s + [x] && vm.runLimit + 8 + |x| >= HashCost(x) + 40
    ensures Moved(env, vm, items, w, s + [env.crypto.sha3(x)], vm.altStack, vm.runLimit + |x| - 32 - HashCost(x))
  {
    hide ExecLeaf, EncodeAll, Moved, HashCost;
    var begun := Begun(vm, items[0]);
    Sha3Exec(env, begun, s, x);
    w := RunPlain(env, vm, items, OP_SHA3, ExecLeaf(env, begun, OP_SHA3));
  }

  // ---------------------------------------------------------------- CHECKMULTISIG

  lemma {:induction false} PopManyFrame(vm: VM, n: nat)
    requires Ready(vm) && n <= |vm.dataStack|
    ensures var w := PopMany(vm, n).value.0; w.nextPC == vm.nextPC && w.altStack == vm.altStack
    decreases n
  {
    hide Weight;
    if n > 0 { PopManyFrame(Pop(vm, true).value.0, n - 1); }
  }

  lemma {:induction false} TailFrame(c: Crypto, vm: VM, rest: seq<bytes>, sigs: seq<bytes>, msg: bytes, keys: seq<bytes>)
    requires Ready(vm) && |msg| == 32 && vm.dataStack == MultiSigStack(rest, sigs, msg, keys)
    ensures var r := MultiSigTail(c, vm, |keys|, |sigs|); r.Go? && r.value.nextPC == vm.nextPC && r.value.altStack == vm.altStack
  {
    hide Weight, PopMany, Pop, Greedy, AllKeySized;
    TailMeaning(c, vm, rest, sigs, msg, keys);
    PopManyFrame(vm, |keys|);
    var vm1 := PopMany(vm, |keys|).value.0;
    PopFrame(vm1);
    PopManyFrame(Pop(vm1, true).value.0, |sigs|);
  }

  lemma {:induction false} PopFrame(vm: VM)
    ensures Pop(vm, true).Go? ==> Pop(vm, true).value.0.nextPC == vm.nextPC && Pop(vm, true).value.0.altStack == vm.altStack
  {
  }

  /** What CHECKMULTISIG says of keys and signatures as they were pushed. */
  ghost predicate Authorized(c: Crypto, msg: bytes, keys: seq<bytes>, sigs: seq<bytes>)
  {
    AllKeySized(keys) && Matchable(c, msg, keys, sigs)
  }

  lemma {:induction false} CountsPop(vm: VM, s: seq<bytes>, m: bytes, n: bytes, numSigs: nat, numKeys: nat)
    requires Fresh(vm) && vm.dataStack == s + [m] + [n] && AsInt64(m) == Some(numSigs) && AsInt64(n) == Some(numKeys)
    requires GoodParams(numSigs, numKeys) && vm.runLimit >= 1024 * numKeys && numKeys <= MAX_INT32
    ensures PopCounts(vm) == Go((Less(Less(vm, s + [m], n), s, m).(runLimit := vm.runLimit - 1024 * numKeys), numKeys, numSigs))
  {
    hide PopInt64, AsInt64, Weight;
    PopTop(vm, s + [m], n);
    var v1 := Less(vm, s + [m], n);
    var v2 := v1.(runLimit := vm.runLimit - 1024 * numKeys);
    PopTop(v2, s, m);
    assert ApplyCost(v1, 1024 * numKeys) == Go(v2);
  }

  /** CHECKMULTISIG's effect, as a new run limit. */
  lemma {:induction false} MultiSigExec(env: Env, vm: VM, rest: seq<bytes>, sigs: seq<bytes>, msg: bytes, keys: seq<bytes>, m: bytes, n: bytes)
    requires Fresh(vm) && |msg| == 32 && vm.dataStack == MultiSigStack(rest, sigs, msg, keys) + [m] + [n]
    requires AsInt64(m) == Some(|sigs|) && AsInt64(n) == Some(|keys|) && GoodParams(|sigs|, |keys|)
    requires vm.runLimit >= 1024 * |keys| && |keys| <= MAX_INT32
    ensures var r := OpCheckMultiSig(env.crypto, vm);
            && r.Go? && r.value.nextPC == vm.nextPC && r.value.altStack == vm.altStack && SameFrame(r.value, vm)
            && r.value.dataStack == rest + [BoolBytes(Authorized(env.crypto, msg, keys, sigs))]
            && Weight(r.value) == Weight(vm) - 1024 * |keys|
  {
    hide AsInt64, PopCounts, MultiSigTail, Matchable, AllKeySized;
    var s := MultiSigStack(rest, sigs, msg, keys);
    CountsPop(vm, s, m, n, |sigs|, |keys|);
    var v := PopCounts(vm).value.0;
    assert Counted(vm, PopCounts(vm));
    TailMeaning(env.crypto, v, rest, sigs, msg, keys);
    TailFrame(env.crypto, v, rest, sigs, msg, keys);
    assert MultiSigPopped(v, |keys|, |sigs|, MultiSigTail(env.crypto, v, |keys|, |sigs|));
  }

  lemma {:induction false} MultiSigCost(rest: seq<bytes>, sigs: seq<bytes>, msg: bytes, keys: seq<bytes>, m: bytes, n: bytes)
    ensures StackCost(MultiSigStack(rest, sigs, msg, keys) + [m] + [n])
         == StackCost(rest) + StackCost(sigs) + ItemCost(msg) + StackCost(keys) + ItemCost(m) + ItemCost(n)
  {
    hide StackCost, ItemCost;
    StackCostPush(MultiSigStack(rest, sigs, msg, keys) + [m], n);
    StackCostPush(MultiSigStack(rest, sigs, msg, keys), m);
    StackCostConcat(rest + sigs + [msg], keys);
    StackCostPush(rest + sigs, msg);
    StackCostConcat(rest, sigs);
  }

  lemma {:induction false} RunMultiSig(env: Env, vm: VM, items: seq<Item>, rest: seq<bytes>, sigs: seq<bytes>, msg: bytes, keys: seq<bytes>, m: bytes, n: bytes)
    returns (w: VM)
    requires Loaded(vm, items) && items != [] && items[0] == Plain(OP_CHECKMULTISIG)
    requires |msg| == 32 && vm.dataStack == MultiSigStack(rest, sigs, msg, keys) + [m] + [n]
    requires AsInt64(m) == Some(|sigs|) && AsInt64(n) == Some(|keys|) && GoodParams(|sigs|, |keys|)
    requires vm.runLimit >= 1024 * |keys| && |keys| <= MAX_INT32
    ensures var v := BoolBytes(Authorized(env.crypto, msg, keys, sigs));
            Moved(env, vm, items, w, rest + [v], vm.altStack,
                  vm.runLimit - 1024 * |keys| + StackCost(sigs) + StackCost(keys) + 48 + |m| + |n| - |v|)
  {
    hide ExecLeaf, EncodeAll, Moved, AsInt64, OpCheckMultiSig, Authorized, StackCost, MultiSigStack;
    var begun := Begun(vm, items[0]);
    MultiSigExec(env, begun, rest, sigs, msg, keys, m, n);
    MultiSigLeaf(env, begun);
    var r := ExecLeaf(env, begun, OP_CHECKMULTISIG);
    var v := BoolBytes(Authorized(env.crypto, msg, keys, sigs));
    MultiSigCost(rest, sigs, msg, keys, m, n);
    StackCostPush(rest, v);
    w := RunPlain(env, vm, items, OP_CHECKMULTISIG, r);
  }

  lemma {:induction false} MultiSigLeaf(env: Env, vm: VM)
    requires Fresh(vm)
    ensures ExecLeaf(env, vm, OP_CHECKMULTISIG) == OpCheckMultiSig(env.crypto, vm)
  {
    hide ExecControl, ExecStack, ExecBytes, ExecNumeric, ExecContext, OpCheckMultiSig;
  }

  // ---------------------------------------------------------------- CHECKPREDICATE

  /** The parent while its predicate runs: everything is lent to the child. */
  function Lender(vm: VM, s: seq<bytes>, n: bytes, pred: bytes, zero: bytes): VM
  {
    vm.(runLimit := 0, dataStack := s, deferredCost := -192 - 24 - |n| - |pred| - |zero|)
  }

  lemma {:induction false} OpenExec(vm: VM, s: seq<bytes>, args: seq<bytes>, n: bytes, pred: bytes, zero: bytes)
    requires Fresh(vm) && vm.runLimit >= 256 && vm.dataStack == s + args + [n] + [pred] + [zero]
    requires AsInt64(n) == Some(|args|) && AsInt64(zero) == Some(0)
    ensures OpenPredicate(vm)
         == Go((Lender(vm, s, n, pred, zero), Child(pred, vm.runLimit - 256, vm.depth + 1, args)))
  {
    hide Pop, PopInt64, AsInt64, Weight, SplitStack;
    var v1 := vm.(runLimit := vm.runLimit - 256, deferredCost := -192);
    PopTop(v1, s + args + [n] + [pred], zero);
    var v2 := Less(v1, s + args + [n] + [pred], zero);
    PopTop(v2, s + args + [n], pred);
    var v3 := Less(v2, s + args + [n], pred);
    PopTop(v3, s + args, n);
    var v4 := Less(v3, s + args, n);
    assert PopOperands(vm) == Go((v4, 0, pred, |args|));
    SplitExec(v4, s, args, pred);
  }

  lemma {:induction false} SplitExec(vm: VM, s: seq<bytes>, args: seq<bytes>, pred: bytes)
    requires Ready(vm) && vm.deferredCost <= -216 && vm.dataStack == s + args
    ensures SplitStack(vm, 0, pred, |args|)
         == Go((vm.(runLimit := 0, dataStack := s), Child(pred, vm.runLimit, vm.depth + 1, args)))
  {
    hide StackCost;
    assert vm.dataStack[..|s|] == s && vm.dataStack[|s|..] == args;
  }

  /** A run that never ends, or unwinds its parents with a panic. */
  ghost predicate Unsettled(o: Option<Res<VM>>)
  {
    o.None? || (o.value.Stop? && o.value.err == Unexpected)
  }

  /** The run ends without error and with true on top. */
  ghost predicate Passes(o: Option<Res<VM>>)
  {
    o.Some? && Succeeds(o.value)
  }

  lemma {:induction false} PredicateExec(env: Env, vm: VM, s: seq<bytes>, args: seq<bytes>, n: bytes, pred: bytes, zero: bytes)
    requires Fresh(vm) && vm.runLimit >= 256 && vm.dataStack == s + args + [n] + [pred] + [zero]
    requires AsInt64(n) == Some(|args|) && AsInt64(zero) == Some(0)
    ensures var child := Outcome(env, Child(pred, vm.runLimit - 256, vm.depth + 1, args));
            var o := ExecOutcome(env, vm, OP_CHECKPREDICATE);
            if child.None? then o.None?
            else if Unsettled(child) then o.Some? && o.value.Stop?
            else o == Some(Go(Settle(Lender(vm, s, n, pred, zero), Ended(child.value), Succeeds(child.value))))
  {
    hide Outcome, OpenPredicate, Settle, AsInt64, StackCost;
    OpenExec(vm, s, args, n, pred, zero);
  }

  lemma {:induction false} RunPredicate(env: Env, vm: VM, items: seq<Item>, s: seq<bytes>, args: seq<bytes>, n: bytes, pred: bytes, zero: bytes)
    returns (w: VM)
    requires Loaded(vm, items) && items != [] && items[0] == Plain(OP_CHECKPREDICATE)
    requires vm.runLimit >= 256 && vm.dataStack == s + args + [n] + [pred] + [zero]
    requires AsInt64(n) == Some(|args|) && AsInt64(zero) == Some(0)
    ensures var child := Outcome(env, Child(pred, vm.runLimit - 256, vm.depth + 1, args));
            if child.None? then Outcome(env, vm).None?
            else if Unsettled(child) then Fails(env, vm)
            else Moved(env, vm, items, w, s + [BoolBytes(Succeeds(child.value))], vm.altStack, w.runLimit)
  {
    hide ExecOutcome, EncodeAll, Loaded, Moved, AsInt64, Outcome, Settle, Lender, FalseResult;
    var begun := Begun(vm, items[0]);
    BegunIsFresh(vm, items);
    PredicateExec(env, begun, s, args, n, pred, zero);
    var start := Child(pred, vm.runLimit - 256, vm.depth + 1, args);
    var child := Outcome(env, start);
    w := vm;
    if child.None? {
      Hangs(env, vm, items);
    } else {
      var r := ExecOutcome(env, begun, OP_CHECKPREDICATE).value;
      if Unsettled(child) {
        w := RunPlain(env, vm, items, OP_CHECKPREDICATE, r);
      } else {
        SettleIsPaid(begun, Lender(begun, s, n, pred, zero), s, n, pred, zero, Ended(child.value), Succeeds(child.value));
        w := RunSettled(env, vm, items, r.value);
      }
    }
  }

  /** An operation that never ends holds the run up forever. */
  lemma {:induction false} Hangs(env: Env, vm: VM, items: seq<Item>)
    requires Loaded(vm, items) && items != [] && items[0] == Plain(OP_CHECKPREDICATE) && Fresh(Begun(vm, items[0]))
    requires ExecOutcome(env, Begun(vm, items[0]), OP_CHECKPREDICATE).None?
    ensures Outcome(env, vm).None?
  {
    hide ExecOutcome, EncodeAll, Outcome;
    LoadedParses(vm, items);
    PlainInstruction(OP_CHECKPREDICATE);
    OutcomeUnfolds(env, vm);
  }

  lemma {:induction false} RunSettled(env: Env, vm: VM, items: seq<Item>, done: VM) returns (w: VM)
    requires Loaded(vm, items) && items != [] && items[0] == Plain(OP_CHECKPREDICATE) && vm.pc + 1 < TWO_32
    requires ExecOutcome(env, Begun(vm, items[0]), OP_CHECKPREDICATE) == Some(Go(done))
    requires done.nextPC == vm.pc + 1 && done.deferredCost <= done.runLimit
    requires done.program == vm.program && done.depth == vm.depth && done.expansionReserved == vm.expansionReserved
    ensures Moved(env, vm, items, w, done.dataStack, done.altStack, w.runLimit)
  {
    hide ExecOutcome, EncodeAll, Loaded, Moved, Outcome;
    w := RunPlain(env, vm, items, OP_CHECKPREDICATE, Go(done));
    MovedLimit(env, vm, items, w, done.dataStack, done.altStack, done.runLimit - done.deferredCost);
  }

  lemma {:induction false} BegunIsFresh(vm: VM, items: seq<Item>)
    requires Loaded(vm, items) && items != [] && items[0].Plain?
    ensures Fresh(Begun(vm, items[0])) && vm.pc + 1 < TWO_32
  {
    hide EncodeAll, WellFormed;
  }

  lemma {:induction false} MovedLimit(env: Env, vm: VM, items: seq<Item>, w: VM, stack: seq<bytes>, alt: seq<bytes>, limit: int)
    requires Moved(env, vm, items, w, stack, alt, limit)
    ensures w.runLimit == limit
  {
  }

  lemma {:induction false} SettleIsPaid(vm: VM, parent: VM, s: seq<bytes>, n: bytes, pred: bytes, zero: bytes, child: VM, ok: bool)
    requires parent == Lender(vm, s, n, pred, zero) && child.runLimit >= 0
    ensures var w := Settle(parent, child, ok);
            && w.deferredCost <= w.runLimit && w.nextPC == vm.nextPC && w.altStack == vm.altStack
            && w.dataStack == s + [BoolBytes(ok)]
            && w.program == vm.program && w.depth == vm.depth && w.expansionReserved == vm.expansionReserved
  {
    hide StackCost;
  }

  // ---------------------------------------------------------------- the lock

  /** Push every key. */
  lemma {:induction false} PushKeys(env: Env, vm: VM, keys: seq<bytes>, rest: seq<Item>) returns (w: VM)
    requires Loaded(vm, KeyItems(keys) + rest) && vm.runLimit >= StackCost(keys) + |keys|
    ensures Arrives(env, vm, rest, w, vm.dataStack + keys, StackCost(keys) + |keys|)
    ensures w.runLimit == vm.runLimit - StackCost(keys) - |keys|
    decreases |keys|
  {
    hide Outcome, EncodeAll, WellFormed, Instr, StackCost;
    StackCostFirst(keys);
    if keys == [] {
      w := vm;
      assert KeyItems(keys) + rest == rest;
    } else {
      var items := KeyItems(keys) + rest;
      DataItem(keys[0]);
      var u := RunPush(env, vm, items);
      assert items[1..] == KeyItems(keys[1..]) + rest;
      w := PushKeys(env, u, keys[1..], rest);
      assert vm.dataStack + [keys[0]] + keys[1..] == vm.dataStack + keys;
    }
  }

  /** A run limit that is enough for the lock, before its predicate. */
  function LockBudget(keys: seq<bytes>, pred: bytes): nat
  {
    |pred| + HashCost(pred) + StackCost(keys) + 1025 * |keys| + 400
  }

  /** The run limit the predicate gets: all that is left. */
  function PredicateLimit(limit: int, keys: seq<bytes>, sigs: seq<bytes>, pred: bytes): int
  {
    limit + StackCost(sigs) - 1025 * |keys| - HashCost(pred) - 273
  }

  /** DUP TOALTSTACK SHA3 <key>... <M> <N>: the predicate is set aside and its hash, the keys and the counts are pushed. */
  lemma {:induction false} LockHead(env: Env, vm: VM, base: seq<bytes>, pred: bytes, keys: seq<bytes>, quorum: int64) returns (w: VM)
    requires |keys| <= MAX_INT32 && Loaded(vm, P2SPItems(keys, quorum)) && vm.dataStack == base + [pred]
    requires vm.runLimit >= LockBudget(keys, pred)
    ensures CanRun(vm) && Loaded(w, P2SP_TAIL) && Outcome(env, vm) == Outcome(env, w) && w.altStack == vm.altStack + [pred]
    ensures var m, n := Instr(Int(quorum)).data, Instr(Int(|keys|)).data;
            && w.dataStack == base + [env.crypto.sha3(pred)] + keys + [m] + [n]
            && w.runLimit == vm.runLimit - 61 - HashCost(pred) - StackCost(keys) - |keys| - |m| - |n|
    ensures w.depth == vm.depth && w.expansionReserved == vm.expansionReserved
  {
    hide Outcome, EncodeAll, WellFormed, Instr, StackCost, HashCost;
    var counts := [Int(quorum), Int(|keys|)] + P2SP_TAIL;
    var later := KeyItems(keys) + counts;
    var items := P2SPItems(keys, quorum);
    assert items == P2SP_HEAD + later;
    var w1 := RunDup(env, vm, items, base, pred);
    assert items[1..] == [Plain(OP_TOALTSTACK), Plain(OP_SHA3)] + later;
    var w2 := RunToAlt(env, w1, items[1..], base + [pred], pred);
    assert items[1..][1..] == [Plain(OP_SHA3)] + later;
    var w3 := RunSha3(env, w2, items[1..][1..], base, pred);
    assert items[1..][1..][1..] == later;
    var w4 := PushKeys(env, w3, keys, counts);
    IntItem(quorum);
    IntItem(|keys|);
    var w5 := RunPush(env, w4, counts);
    assert counts[1..] == [Int(|keys|)] + P2SP_TAIL;
    w := RunPush(env, w5, counts[1..]);
    assert counts[1..][1..] == P2SP_TAIL;
  }

  /** CHECKMULTISIG VERIFY FROMALTSTACK 0: the run goes on to the predicate exactly when the signatures are good. */
  lemma {:induction false} LockSignatures(env: Env, vm: VM, rest: seq<bytes>, sigs: seq<bytes>, msg: bytes, keys: seq<bytes>,
                                          m: bytes, n: bytes, alt: seq<bytes>, pred: bytes) returns (w: VM)
    requires Loaded(vm, P2SP_TAIL) && |msg| == 32 && vm.altStack == alt + [pred]
    requires vm.dataStack == MultiSigStack(rest, sigs, msg, keys) + [m] + [n]
    requires AsInt64(m) == Some(|sigs|) && AsInt64(n) == Some(|keys|) && GoodParams(|sigs|, |keys|) && |keys| <= MAX_INT32
    requires vm.runLimit >= 1024 * |keys| + 256
    ensures CanRun(vm)
    ensures !Authorized(env.crypto, msg, keys, sigs) ==> Fails(env, vm)
    ensures Authorized(env.crypto, msg, keys, sigs) ==>
              && Loaded(w, [Plain(OP_CHECKPREDICATE)]) && Outcome(env, vm) == Outcome(env, w)
              && w.dataStack == rest + [pred] + [Instr(Int(0)).data] && w.altStack == alt && w.depth == vm.depth
              && w.runLimit == vm.runLimit - 1024 * |keys| + StackCost(sigs) + StackCost(keys) + 44 + |m| + |n| - |Instr(Int(0)).data|
  {
    hide Outcome, EncodeAll, WellFormed, Instr, StackCost, AsInt64, Authorized, MultiSigStack, AsBool;
    var ok := Authorized(env.crypto, msg, keys, sigs);
    var items := P2SP_TAIL;
    var w1 := RunMultiSig(env, vm, items, rest, sigs, msg, keys, m, n);
    BoolReads(ok);
    assert items[1..] == [Plain(OP_VERIFY), Plain(OP_FROMALTSTACK), Int(0), Plain(OP_CHECKPREDICATE)];
    w := RunVerify(env, w1, items[1..], rest, BoolBytes(ok));
    if ok {
      assert items[1..][1..] == [Plain(OP_FROMALTSTACK), Int(0), Plain(OP_CHECKPREDICATE)];
      var w2 := RunFromAlt(env, w, items[1..][1..], alt, pred);
      IntItem(0);
      assert items[1..][1..][1..] == [Int(0), Plain(OP_CHECKPREDICATE)];
      w := RunPush(env, w2, items[1..][1..][1..]);
      assert items[1..][1..][1..][1..] == [Plain(OP_CHECKPREDICATE)];
    }
  }

  /** The predicate, run on its arguments with everything the lock has left. */
  ghost function PredicateRun(env: Env, limit: int, depth: nat, keys: seq<bytes>, sigs: seq<bytes>, pred: bytes, args: seq<bytes>): Option<Res<VM>>
    requires PredicateLimit(limit, keys, sigs, pred) >= 0
  {
    Outcome(env, Child(pred, PredicateLimit(limit, keys, sigs, pred), depth + 1, args))
  }

  lemma {:induction false} ZeroItem()
    ensures Instr(Int(0)).data == []
  {
    IntBytesEmpty(0);
  }

  /**
   * Lock and witness fit together: run on the arguments of a witness with exactly the required number of
   * signatures, with enough run limit, the lock succeeds exactly when the keys have the right size, the
   * signatures match keys in order over the hash of the predicate, and the predicate succeeds on its
   * arguments.
   */
  lemma {:induction false} LockFitsWitness(env: Env, vm: VM, args: seq<bytes>, sigs: seq<bytes>, pred: bytes, keys: seq<bytes>)
    requires |args| <= MAX_INT64 && 1 <= |sigs| <= |keys| <= MAX_INT32
    requires AtStart(vm, P2SPItems(keys, |sigs|)) && vm.dataStack == Materialized(args, sigs, pred)
    requires vm.runLimit >= LockBudget(keys, pred)
    ensures PredicateLimit(vm.runLimit, keys, sigs, pred) >= 0
    ensures Passes(Outcome(env, vm)) <==>
              && Authorized(env.crypto, env.crypto.sha3(pred), keys, sigs)
              && Passes(PredicateRun(env, vm.runLimit, vm.depth, keys, sigs, pred, args))
  {
    hide Outcome, EncodeAll, WellFormed, Instr, StackCost, AsInt64, Int64Bytes, Authorized, AsBool, HashCost, P2SPItems, MultiSigStack;
    LockIsWellFormed(keys, |sigs|);
    StartLoads(vm, P2SPItems(keys, |sigs|));
    var count := Int64Bytes(|args|);
    var base := args + [count];
    var msg := env.crypto.sha3(pred);
    var w1 := LockHead(env, vm, base + sigs, pred, keys, |sigs|);
    var m, n := Instr(Int(|sigs|)).data, Instr(Int(|keys|)).data;
    IntItem(|sigs|);
    IntItem(|keys|);
    LockStack(base, sigs, msg, keys);
    var w2 := LockSignatures(env, w1, base, sigs, msg, keys, m, n, vm.altStack, pred);
    if Authorized(env.crypto, msg, keys, sigs) {
      ZeroItem();
      IntItem(0);
      Int64RoundTrip(|args|);
      LockPredicate(env, w2, args, count, pred);
    }
  }

  lemma {:induction false} LockStack(base: seq<bytes>, sigs: seq<bytes>, msg: bytes, keys: seq<bytes>)
    ensures base + sigs + [msg] + keys == MultiSigStack(base, sigs, msg, keys)
  {
  }

  lemma {:induction false} LockIsWellFormed(keys: seq<bytes>, quorum: int64)
    requires |keys| <= MAX_INT64
    ensures forall i :: 0 <= i < |P2SPItems(keys, quorum)| ==> WellFormed(P2SPItems(keys, quorum)[i])
  {
  }

  /** The last step of the lock. */
  lemma {:induction false} LockPredicate(env: Env, vm: VM, args: seq<bytes>, count: bytes, pred: bytes)
    requires Loaded(vm, [Plain(OP_CHECKPREDICATE)]) && vm.runLimit >= 256
    requires vm.dataStack == args + [count] + [pred] + [[]] && AsInt64(count) == Some(|args|) && AsInt64([]) == Some(0)
    ensures Passes(Outcome(env, vm)) <==> Passes(Outcome(env, Child(pred, vm.runLimit - 256, vm.depth + 1, args)))
  {
    hide Outcome, EncodeAll, Loaded, AsInt64, FalseResult;
    var items := [Plain(OP_CHECKPREDICATE)];
    assert [] + args == args;
    var child := Outcome(env, Child(pred, vm.runLimit - 256, vm.depth + 1, args));
    var w := RunPredicate(env, vm, items, [], args, count, pred, []);
    if !Unsettled(child) {
      assert items[1..] == [];
      Finished(env, w);
      TopIs(w, Succeeds(child.value));
    }
  }

  lemma {:induction false} TopIs(vm: VM, v: bool)
    requires vm.dataStack == [] + [BoolBytes(v)]
    ensures FalseResult(vm) == !v
  {
    BoolReads(v);
  }

  // ---------------------------------------------------------------- Verify

  /** The same through Verify: the machine accepts the spending witness exactly in that case. */
  lemma {:induction false} VerifyLock(env: Env, args: seq<bytes>, sigs: seq<bytes>, pred: bytes, keys: seq<bytes>)
    requires |args| <= MAX_INT64 && 1 <= |sigs| <= |keys| <= MAX_INT32 && env.vmVersion == 1
    requires env.code == EncodeAll(P2SPItems(keys, |sigs|)) && |env.code| <= MAX_INT32
    requires env.arguments == Materialized(args, sigs, pred)
    requires INITIAL_RUN_LIMIT - StackCost(env.arguments) >= LockBudget(keys, pred)
    ensures PredicateLimit(INITIAL_RUN_LIMIT - StackCost(env.arguments), keys, sigs, pred) >= 0
    ensures Verify(env) == Accepted <==>
              && Authorized(env.crypto, env.crypto.sha3(pred), keys, sigs)
              && Passes(PredicateRun(env, INITIAL_RUN_LIMIT - StackCost(env.arguments), 0, keys, sigs, pred, args))
  {
    hide Outcome, PushAll, EncodeAll, StackCost, Materialized, P2SPItems, Authorized, LockBudget, PredicateLimit;
    EmptyStack();
    var vm := Start(env).value;
    assert [] + env.arguments == env.arguments;
    LockBudgetPositive(keys, pred);
    LockFitsWitness(env, vm, args, sigs, pred, keys);
  }

  lemma {:induction false} LockBudgetPositive(keys: seq<bytes>, pred: bytes)
    ensures LockBudget(keys, pred) >= 0
  {
  }
}
