/**
 * Without the condition of the module Metering the run limit bounds nothing: a program whose every turn through
 * a loop gives back in CHECKPREDICATE exactly what the turn cost.
 */
module Endless {
  import opened Basics
  import opened VmTypes
  import opened Opcodes
  import opened Machine
  import opened Programs
  import opened Assembly
  import opened CryptoOps
  import opened Interpreter
  import opened Outcomes
  import opened Metering
  import opened Straightline

  /** 0 [PROGRAM] 1 CHECKPREDICATE DROP JUMP:0 */
  const TURN: bytes := [OP_0, OP_DATA_1, OP_PROGRAM, OP_1, OP_CHECKPREDICATE, OP_DROP, OP_JUMP, 0, 0, 0, 0]

  function Nops(n: nat): (b: bytes)
    ensures |b| == n
  {
    if n == 0 then [] else [OP_NOP] + Nops(n - 1)
  }

  /** The loop, padded to the 62 bytes at which what CHECKPREDICATE gives back is what a turn costs. */
  const LOOP: bytes := TURN + Nops(51)

  /** Before the instruction at pc, with this stack and run limit. */
  ghost predicate At(env: Env, vm: VM, pc: nat, stack: seq<bytes>, limit: int)
  {
    && vm.program == LOOP && vm.pc == pc && vm.dataStack == stack && vm.runLimit == limit && |env.code| == 62
  }

  /** A step that succeeds, as the charge at its end leaves it. */
  lemma {:induction false} StepIs(env: Env, vm: VM, inst: Instruction, done: VM)
    requires CanRun(vm) && ParseOp(vm.program, vm.pc) == Value(inst) && !IsExpansion(inst.op)
    requires ExecOutcome(env, Begin(vm, inst), inst.op) == Some(Go(done)) && done.deferredCost <= done.runLimit
    ensures StepOutcome(env, vm) == Some(Go(done.(runLimit := done.runLimit - done.deferredCost, pc := done.nextPC)))
  {
    hide ParseOp, ExecOutcome;
  }

  lemma {:induction false} PushStep(env: Env, vm: VM, pc: nat, item: Item, stack: seq<bytes>, limit: int) returns (w: VM)
    requires At(env, vm, pc, stack, limit) && pc < 62 && !item.Plain? && limit >= 9 + |Instr(item).data|
    requires ParseOp(LOOP, pc) == Value(Instr(item))
    ensures StepOutcome(env, vm) == Some(Go(w))
    ensures At(env, w, pc + Instr(item).len, stack + [Instr(item).data], limit - 9 - |Instr(item).data|)
  {
    hide ParseOp, Instr, ExecLeaf, StepOutcome, LOOP, StackCost;
    var begun := Begin(vm, Instr(item));
    PushExec(env, begun, item);
    var done := begun.(runLimit := begun.runLimit - 9 - |begun.data|, dataStack := begun.dataStack + [begun.data]);
    StepIs(env, vm, Instr(item), done);
    w := done.(runLimit := done.runLimit, pc := done.nextPC);
  }

  /** The six instructions of the loop. */
  lemma {:induction false} LoopParses()
    ensures ParseOp(LOOP, 0) == Value(Instr(Data([])))
    ensures ParseOp(LOOP, 1) == Value(Instr(Data([OP_PROGRAM])))
    ensures ParseOp(LOOP, 3) == Value(Instr(Int(1)))
    ensures ParseOp(LOOP, 4) == Value(Instruction(OP_CHECKPREDICATE, 1, []))
    ensures ParseOp(LOOP, 5) == Value(Instruction(OP_DROP, 1, []))
    ensures ParseOp(LOOP, 6) == Value(Instruction(OP_JUMP, 5, [0, 0, 0, 0]))
    ensures Instr(Data([])) == Instruction(OP_0, 1, [])
    ensures Instr(Data([OP_PROGRAM])) == Instruction(OP_DATA_1, 2, [OP_PROGRAM])
    ensures Instr(Int(1)) == Instruction(OP_1, 1, [1])
  {
    hide Int64Bytes, LOOP;
    LoopBytes();
    SmallInt(1);
    assert LOOP[2..3] == [LOOP[2]];
    assert LOOP[7..11] == [LOOP[7], LOOP[8], LOOP[9], LOOP[10]];
  }

  lemma {:induction false} LoopBytes()
    ensures |LOOP| == 62
    ensures LOOP[0] == OP_0 && LOOP[1] == OP_DATA_1 && LOOP[2] == OP_PROGRAM && LOOP[3] == OP_1
    ensures LOOP[4] == OP_CHECKPREDICATE && LOOP[5] == OP_DROP && LOOP[6] == OP_JUMP
    ensures LOOP[7] == 0 && LOOP[8] == 0 && LOOP[9] == 0 && LOOP[10] == 0
  {
  }

  // ---------------------------------------------------------------- CHECKPREDICATE gives back what the turn costs

  lemma {:induction false} NumberItems()
    ensures AsInt64([1]) == Some(1) && AsInt64([]) == Some(0)
  {
    Int64RoundTrip(1);
    SmallInt(1);
    Int64RoundTrip(0);
    IntBytesEmpty(0);
  }

  lemma {:induction false} OpensChild(vm: VM)
    requires Fresh(vm) && vm.dataStack == [[], [OP_PROGRAM], [1]] && vm.runLimit >= 257
    ensures OpenPredicate(vm)
         == Go((vm.(runLimit := vm.runLimit - 257, deferredCost := -218, dataStack := []), Child([OP_PROGRAM], 1, vm.depth + 1, [])))
  {
    hide Pop, PopInt64, AsInt64, Weight, SplitStack;
    NumberItems();
    var s: seq<bytes> := [];
    var v1 := vm.(runLimit := vm.runLimit - 256, deferredCost := -192);
    assert vm.dataStack == s + [[]] + [[OP_PROGRAM]] + [[1]];
    PopTop(v1, s + [[]] + [[OP_PROGRAM]], [1]);
    var v2 := Less(v1, s + [[]] + [[OP_PROGRAM]], [1]);
    PopTop(v2, s + [[]], [OP_PROGRAM]);
    var v3 := Less(v2, s + [[]], [OP_PROGRAM]);
    PopTop(v3, s, []);
    var v4 := Less(v3, s, []);
    assert PopOperands(vm) == Go((v4, 1, [OP_PROGRAM], 0));
    SplitsNothing(v4);
  }

  lemma {:induction false} SplitsNothing(vm: VM)
    requires Ready(vm) && vm.deferredCost <= -216 && vm.dataStack == [] && vm.runLimit >= 1
    ensures SplitStack(vm, 1, [OP_PROGRAM], 0) == Go((vm.(runLimit := vm.runLimit - 1), Child([OP_PROGRAM], 1, vm.depth + 1, [])))
  {
    hide StackCost;
    assert vm.dataStack[..0] == [] && vm.dataStack[0..] == [];
  }

  /** The child stops on its end charge, and the parent gets 70 for the one unit it lent. */
  lemma {:induction false} PredicateStep(env: Env, vm: VM, limit: int) returns (w: VM)
    requires At(env, vm, 4, [[], [OP_PROGRAM], [1]], limit) && limit >= 257
    ensures StepOutcome(env, vm) == Some(Go(w)) && At(env, w, 5, [[]], limit + 23)
  {
    hide ParseOp, Instr, StepOutcome, OpenPredicate, Settle, Outcome, StackCost, LOOP;
    LoopParses();
    var inst := Instruction(OP_CHECKPREDICATE, 1, []);
    var begun := Begin(vm, inst);
    OpensChild(begun);
    EndChargeKeepsTheItem(env, vm.depth + 1);
    var parent := begun.(runLimit := begun.runLimit - 257, deferredCost := -218, dataStack := []);
    var done := Settle(parent, Unpaid(env, vm.depth + 1), false);
    assert ExecOutcome(env, begun, OP_CHECKPREDICATE) == Some(Go(done));
    SettledUnpaid(env, parent, vm.depth + 1);
    StepIs(env, vm, inst, done);
    w := done.(runLimit := done.runLimit - done.deferredCost, pc := done.nextPC);
  }

  lemma {:induction false} SettledUnpaid(env: Env, parent: VM, depth: nat)
    requires |env.code| == 62 && parent.dataStack == []
    ensures var w := Settle(parent, Unpaid(env, depth), false);
            w.deferredCost == parent.deferredCost - 62 && w.dataStack == [[]] && w.runLimit == parent.runLimit
            && w.nextPC == parent.nextPC && w.program == parent.program
  {
    hide StackCost;
    EmptyStack();
    StackCostFirst([env.code]);
    assert [env.code][1..] == parent.dataStack;
  }

  // ---------------------------------------------------------------- DROP and JUMP

  lemma {:induction false} JumpExec(env: Env, vm: VM)
    requires Fresh(vm) && vm.data == [0, 0, 0, 0] && vm.runLimit >= 1
    ensures ExecLeaf(env, vm, OP_JUMP) == Go(vm.(runLimit := vm.runLimit - 1, nextPC := 0))
  {
    hide StackCost, ExecStack, ExecBytes, ExecNumeric, ExecContext, OpCheckMultiSig, Uint;
    assert ExecLeaf(env, vm, OP_JUMP) == ExecControl(vm, OP_JUMP) == OpJump(vm);
    ZeroTarget();
  }

  lemma {:induction false} DropStep(env: Env, vm: VM, limit: int) returns (w: VM)
    requires At(env, vm, 5, [[]], limit) && limit >= 1
    ensures StepOutcome(env, vm) == Some(Go(w)) && At(env, w, 6, [], limit + 7)
  {
    hide ParseOp, Instr, StepOutcome, StackCost, ExecLeaf, LOOP;
    LoopParses();
    var inst := Instruction(OP_DROP, 1, []);
    var begun := Begin(vm, inst);
    DropExec(env, begun, [], []);
    var done := begun.(runLimit := limit + 7, dataStack := []);
    StepIs(env, vm, inst, done);
    w := done.(runLimit := done.runLimit, pc := done.nextPC);
  }

  lemma {:induction false} JumpStep(env: Env, vm: VM, limit: int) returns (w: VM)
    requires At(env, vm, 6, [], limit) && limit >= 1
    ensures StepOutcome(env, vm) == Some(Go(w)) && At(env, w, 0, [], limit - 1)
  {
    hide ParseOp, Instr, StepOutcome, StackCost, ExecLeaf, LOOP;
    LoopParses();
    var inst := Instruction(OP_JUMP, 5, [0, 0, 0, 0]);
    var begun := Begin(vm, inst);
    JumpExec(env, begun);
    var done := begun.(runLimit := limit - 1, nextPC := 0);
    StepIs(env, vm, inst, done);
    w := done.(runLimit := done.runLimit, pc := done.nextPC);
  }

  lemma {:induction false} ZeroTarget()
    ensures Uint([0, 0, 0, 0]) == 0
  {
    var z: bytes := [0, 0, 0, 0];
    assert z[1..] == [0, 0, 0] && z[1..][1..] == [0, 0] && z[1..][1..][1..] == [0] && z[1..][1..][1..][1..] == [];
  }

  // ---------------------------------------------------------------- the loop

  /** One turn: six steps, every one of them successful, back to the same stack and the same run limit. */
  lemma {:induction false} Turn(env: Env, vm: VM, limit: int) returns (w6: VM)
    requires At(env, vm, 0, [], limit) && limit >= 286
    ensures forall n: nat :: n <= 6 ==> After(env, vm, n).Some?
    ensures At(env, w6, 0, [], limit) && forall m: nat :: After(env, vm, 6 + m) == After(env, w6, m)
  {
    hide ParseOp, Instr, StepOutcome;
    LoopParses();
    var s0: seq<bytes> := [];
    var s1: seq<bytes> := [[]];
    var s2: seq<bytes> := [[], [OP_PROGRAM]];
    assert s0 + [[]] == s1 && s1 + [[OP_PROGRAM]] == s2 && s2 + [[1]] == [[], [OP_PROGRAM], [1]];
    var w1 := PushStep(env, vm, 0, Data([]), [], limit);
    var w2 := PushStep(env, w1, 1, Data([OP_PROGRAM]), [[]], limit - 9);
    var w3 := PushStep(env, w2, 3, Int(1), [[], [OP_PROGRAM]], limit - 19);
    var w4 := PredicateStep(env, w3, limit - 29);
    var w5 := DropStep(env, w4, limit - 6);
    w6 := JumpStep(env, w5, limit + 1);
    SixSteps(env, vm, w1, w2, w3, w4, w5, w6);
  }

  lemma {:induction false} SixSteps(env: Env, vm: VM, w1: VM, w2: VM, w3: VM, w4: VM, w5: VM, w6: VM)
    requires CanRun(vm) && CanRun(w1) && CanRun(w2) && CanRun(w3) && CanRun(w4) && CanRun(w5) && CanRun(w6)
    requires forall u :: u in [vm, w1, w2, w3, w4, w5] ==> u.program == LOOP && u.pc < 62
    requires StepOutcome(env, vm) == Some(Go(w1)) && StepOutcome(env, w1) == Some(Go(w2)) && StepOutcome(env, w2) == Some(Go(w3))
    requires StepOutcome(env, w3) == Some(Go(w4)) && StepOutcome(env, w4) == Some(Go(w5)) && StepOutcome(env, w5) == Some(Go(w6))
    ensures forall n: nat :: n <= 6 ==> After(env, vm, n).Some?
    ensures forall m: nat :: After(env, vm, 6 + m) == After(env, w6, m)
  {
    hide StepOutcome;
    var us := [vm, w1, w2, w3, w4, w5];
    assert us[0] == vm && us[1] == w1 && us[2] == w2 && us[3] == w3 && us[4] == w4 && us[5] == w5;
    OneStep(env, vm, w1);
    OneStep(env, w1, w2);
    OneStep(env, w2, w3);
    OneStep(env, w3, w4);
    OneStep(env, w4, w5);
    OneStep(env, w5, w6);
    forall m: nat ensures After(env, vm, 6 + m) == After(env, w6, m) {
      assert After(env, w5, 1 + m) == After(env, w6, m);
      assert After(env, w4, 1 + (1 + m)) == After(env, w5, 1 + m);
      assert After(env, w3, 1 + (2 + m)) == After(env, w4, 2 + m);
      assert After(env, w2, 1 + (3 + m)) == After(env, w3, 3 + m);
      assert After(env, w1, 1 + (4 + m)) == After(env, w2, 4 + m);
      assert After(env, vm, 1 + (5 + m)) == After(env, w1, 5 + m);
    }
    forall n: nat | n <= 6 ensures After(env, vm, n).Some? {
      FewSteps(env, vm, w1, w2, w3, w4, w5, w6, n);
    }
  }

  lemma {:induction false} FewSteps(env: Env, vm: VM, w1: VM, w2: VM, w3: VM, w4: VM, w5: VM, w6: VM, n: nat)
    requires CanRun(vm) && CanRun(w1) && CanRun(w2) && CanRun(w3) && CanRun(w4) && CanRun(w5) && CanRun(w6) && n <= 6
    requires forall m: nat :: After(env, vm, 1 + m) == After(env, w1, m)
    requires forall m: nat :: After(env, w1, 1 + m) == After(env, w2, m)
    requires forall m: nat :: After(env, w2, 1 + m) == After(env, w3, m)
    requires forall m: nat :: After(env, w3, 1 + m) == After(env, w4, m)
    requires forall m: nat :: After(env, w4, 1 + m) == After(env, w5, m)
    requires forall m: nat :: After(env, w5, 1 + m) == After(env, w6, m)
    ensures After(env, vm, n).Some?
  {
    hide StepOutcome;
    if n >= 1 { assert After(env, vm, 1 + (n - 1)) == After(env, w1, n - 1); }
    if n >= 2 { assert After(env, w1, 1 + (n - 2)) == After(env, w2, n - 2); }
    if n >= 3 { assert After(env, w2, 1 + (n - 3)) == After(env, w3, n - 3); }
    if n >= 4 { assert After(env, w3, 1 + (n - 4)) == After(env, w4, n - 4); }
    if n >= 5 { assert After(env, w4, 1 + (n - 5)) == After(env, w5, n - 5); }
    if n >= 6 { assert After(env, w5, 1 + (n - 6)) == After(env, w6, n - 6); }
  }

  lemma {:induction false} OneStep(env: Env, vm: VM, w: VM)
    requires CanRun(vm) && CanRun(w) && vm.program == LOOP && vm.pc < 62 && StepOutcome(env, vm) == Some(Go(w))
    ensures forall m: nat :: After(env, vm, 1 + m) == After(env, w, m)
  {
    hide StepOutcome;
    assert |LOOP| == 62;
  }

  /** After every number of steps there is another. */
  lemma {:induction false} LoopGoesOn(env: Env, vm: VM, limit: int, n: nat)
    requires At(env, vm, 0, [], limit) && limit >= 286
    ensures After(env, vm, n).Some?
    decreases n
  {
    hide After;
    var w := Turn(env, vm, limit);
    if n > 6 {
      LoopGoesOn(env, w, limit, n - 6);
      assert After(env, vm, 6 + (n - 6)) == After(env, w, n - 6);
    }
  }

  /** Verification of this program, without arguments, never returns. */
  lemma {:induction false} VerifyNeverReturns(env: Env)
    requires env.vmVersion == 1 && env.code == LOOP && env.arguments == []
    ensures Verify(env) == NeverReturns
  {
    hide After, Outcome, StackCost;
    var vm := Initial(env);
    assert Start(env) == Go(vm) by { NoArguments(vm); }
    forall n: nat ensures After(env, vm, n).Some? {
      LoopGoesOn(env, vm, INITIAL_RUN_LIMIT, n);
    }
    ForeverHasNoOutcome(env, vm);
  }

  lemma {:induction false} NoArguments(vm: VM)
    requires Ready(vm)
    ensures PushAll(vm, []) == Go(vm)
  {
  }
}
