/**
 * What the run limit of protocol/vm guarantees. Every step is paid for, and so every run ends within a bound,
 * as long as no nested machine stops on the charge at the end of a step: such a machine has the item it
 * could not pay for already on its stack, and CHECKPREDICATE refunds it.
 */
module Metering {
  import opened Basics
  import opened VmTypes
  import opened Opcodes
  import opened Machine
  import opened Programs
  import opened CryptoOps
  import opened Interpreter
  import opened Outcomes

  // ---------------------------------------------------------------- the condition

  ghost predicate StopsOnEndCharge(f: Waited)
  {
    f.Done? && f.r.Stop? && f.r.err == EndCharge
  }

  /** Within k steps, no nested machine stops on its end-of-step charge, nor one nested in it. */
  ghost predicate CleanRun(env: Env, vm: VM, k: nat)
    requires CanRun(vm)
    decreases k, 0
  {
    hide Step, CleanStep;
    || vm.pc >= |vm.program| % TWO_32
    || k == 0
    || (CleanStep(env, vm, k - 1) &&
        (var f := Step(env, vm, k - 1); f.Done? && f.r.Go? ==> CleanRun(env, f.r.value, k - 1)))
  }

  ghost predicate CleanStep(env: Env, vm: VM, k: nat)
    requires CanRun(vm)
    decreases k, 2
  {
    hide ParseOp, CleanPredicate;
    var parsed := ParseOp(vm.program, vm.pc);
    parsed.Value? && parsed.value.op == OP_CHECKPREDICATE ==> CleanPredicate(env, Begin(vm, parsed.value), k)
  }

  ghost predicate CleanPredicate(env: Env, vm: VM, k: nat)
    requires Ready(vm)
    decreases k, 1
  {
    hide OpenPredicate, Run, CleanRun;
    var start := OpenPredicate(vm);
    start.Go? ==> CleanRun(env, start.value.1, k) && !StopsOnEndCharge(Run(env, start.value.1, k))
  }

  /** No machine nested in the run, at any depth, stops on the charge at the end of a step. */
  ghost predicate NoNestedEndCharge(env: Env, vm: VM)
    requires CanRun(vm)
  {
    forall k: nat :: CleanRun(env, vm, k)
  }

  /** A condition to read off the program: without CHECKPREDICATE there are no nested machines. */
  lemma {:induction false} NoPredicateIsClean(env: Env, vm: VM, k: nat)
    requires CanRun(vm) && OP_CHECKPREDICATE !in vm.program
    ensures CleanRun(env, vm, k)
    decreases k
  {
    hide ParseOp, Step, CleanPredicate;
    if vm.pc < |vm.program| % TWO_32 && k > 0 {
      var f := Step(env, vm, k - 1);
      if f.Done? && f.r.Go? { NoPredicateIsClean(env, f.r.value, k - 1); }
    }
  }

  // ---------------------------------------------------------------- bounds

  /** Weight and depth together, inside a step. */
  function Pressure(vm: VM): int
  {
    2 * Weight(vm) + |vm.dataStack|
  }

  /** What a run keeps: no step is ever paid for twice, so steps plus potential never grow. */
  ghost predicate RunBound(vm: VM, r: Res<VM>)
  {
    match r
    case Go(w) => w.runLimit >= 0 && Owned(w) <= Owned(vm) && w.steps + Potential(w) <= vm.steps + Potential(vm)
    case Stop(w, e) =>
      && w.runLimit >= 0
      && w.steps <= vm.steps + Potential(vm) + 1
      && (e != EndCharge && e != Unexpected ==>
            Owned(w) <= Owned(vm) && w.steps + 2 * Owned(w) <= vm.steps + Potential(vm) + 1)
  }

  /** What an operation keeps inside a step; `vm` already counts the step. */
  ghost predicate ExecBound(vm: VM, r: Res<VM>)
  {
    match r
    case Go(w) =>
      && vm.steps <= w.steps <= vm.steps + Pressure(vm)
      && w.runLimit >= 0
      && Weight(w) <= Weight(vm)
      && w.steps + Pressure(w) < vm.steps + Pressure(vm)
    case Stop(w, e) =>
      && w.runLimit >= 0
      && e != EndCharge
      && w.steps <= vm.steps + Pressure(vm)
      && (e != Unexpected ==> w.steps == vm.steps && Owned(w) <= Weight(vm))
  }

  /** What a step keeps. */
  ghost predicate StepBound(vm: VM, r: Res<VM>)
  {
    match r
    case Go(w) =>
      && w.runLimit >= 0
      && w.steps > vm.steps
      && Owned(w) <= Owned(vm)
      && w.steps + Potential(w) <= vm.steps + Potential(vm)
    case Stop(w, e) =>
      && w.runLimit >= 0
      && w.steps <= vm.steps + Potential(vm) + 1
      && (e != EndCharge && e != Unexpected ==> w.steps <= vm.steps + 1 && Owned(w) <= Owned(vm))
  }

  lemma {:induction false} LeafBound(vm: VM, r: Res<VM>)
    requires Ready(vm) && MultiSigMeter(vm, r)
    ensures ExecBound(vm, r)
  {
  }

  lemma {:induction false} CloseBound(vm: VM, parent: VM, child: VM, r: Res<VM>)
    requires Ready(vm) && Ready(parent) && SameFrame(parent, vm) && parent.deferredCost <= -216
    requires child.runLimit >= 0 && child.steps == 0
    requires Weight(parent) + Owned(child) == Weight(vm) - 64
    requires |parent.dataStack| + |child.dataStack| == |vm.dataStack| - 3
    requires RunBound(child, r) && !(r.Stop? && r.err == EndCharge)
    ensures ExecBound(vm, Close(parent, r))
    ensures Close(parent, r).Go? ==> Weight(Close(parent, r).value) <= Weight(vm) - 64
  {
    hide StackCost, AsBool;
  }

  lemma {:induction false} StoppedBound(vm: VM, w: VM, e: VmError)
    requires Ready(vm) && vm.deferredCost == 0 && Stopped(vm, w) && e != EndCharge
    ensures ExecBound(vm, Stop(w, e))
  {
    hide StackCost;
  }

  lemma {:induction false} EndStepBound(vm: VM, begun: VM, r: Res<VM>)
    requires vm.runLimit >= 0 && begun.runLimit == vm.runLimit && begun.deferredCost == 0
    requires begun.dataStack == vm.dataStack && begun.altStack == vm.altStack && begun.steps == vm.steps + 1
    requires ExecBound(begun, r)
    ensures StepBound(vm, Finish(r))
    ensures r.Go? && EndStep(r.value).Go? ==> Owned(EndStep(r.value).value) == Weight(r.value)
    ensures r.Go? && EndStep(r.value).Go? ==> EndStep(r.value).value.dataStack == r.value.dataStack
  {
    hide StackCost;
  }

  /** The operation the next step executes, if the program has one there. */
  function NextOp(vm: VM): Option<Op>
    requires vm.pc < TWO_32
  {
    match ParseOp(vm.program, vm.pc)
    case Fail(_) => None
    case Value(inst) => Some(inst.op)
  }

  /**
   * What a step costs: something, except that CHECKMULTISIG may cost nothing and then leaves the data stack two
   * items shorter; and at least 64 for CHECKPREDICATE.
   */
  ghost predicate Lowers(op: Option<Op>, vm: VM, w: VM)
  {
    && (op == Some(OP_CHECKPREDICATE) ==> Owned(w) <= Owned(vm) - 64)
    && (Owned(w) < Owned(vm) || (op == Some(OP_CHECKMULTISIG) && Owned(w) == Owned(vm) && |w.dataStack| == |vm.dataStack| - 2))
  }

  // ---------------------------------------------------------------- clean runs are paid for, and end

  lemma {:induction false} PredicatePaid(env: Env, vm: VM, k: nat)
    requires Ready(vm) && vm.deferredCost == 0 && CleanPredicate(env, vm, k)
    ensures var f := CheckPredicate(env, vm, k);
            && (f.Done? ==> ExecBound(vm, f.r))
            && (f.Done? && f.r.Go? ==> Weight(f.r.value) <= Weight(vm) - 64)
            && (k >= Potential(vm) ==> f.Done?)
    decreases k, 1
  {
    hide Close, ExecBound, OpenPredicate, StackCost, RunBound, Run, CleanRun;
    var start := OpenPredicate(vm);
    if start.Stop? {
      StoppedBound(vm, start.vm, start.err);
    } else {
      var (parent, child) := start.value;
      assert Potential(child) < Potential(vm);
      RunPaid(env, child, k);
      var f := Run(env, child, k);
      if f.Done? { CloseBound(vm, parent, child, f.r); }
    }
  }

  lemma {:induction false} StepPaid(env: Env, vm: VM, k: nat)
    requires CanRun(vm) && CleanStep(env, vm, k)
    ensures var f := Step(env, vm, k);
            && (f.Done? ==> StepBound(vm, f.r))
            && (f.Done? && f.r.Go? ==> Lowers(NextOp(vm), vm, f.r.value))
            && (k >= Potential(vm) ==> f.Done?)
    decreases k, 3
  {
    hide ParseOp, ExecLeaf, CheckPredicate, CleanPredicate, ExecBound, StackCost;
    match ParseOp(vm.program, vm.pc)
    case Fail(_) =>
    case Value(inst) =>
      if !IsExpansion(inst.op) {
        var begun := Begin(vm, inst);
        assert Potential(begun) == Potential(vm) && Weight(begun) == Owned(vm);
        if inst.op == OP_CHECKPREDICATE {
          PredicatePaid(env, begun, k);
          var f := CheckPredicate(env, begun, k);
          if f.Done? { EndStepBound(vm, begun, f.r); }
        } else {
          LeafPaid(env, vm, inst);
        }
      }
  }

  lemma {:induction false} LeafPaid(env: Env, vm: VM, inst: Instruction)
    requires CanRun(vm) && ParseOp(vm.program, vm.pc) == Value(inst) && !IsExpansion(inst.op) && inst.op != OP_CHECKPREDICATE
    ensures var r := Finish(ExecLeaf(env, Begin(vm, inst), inst.op));
            StepBound(vm, r) && (r.Go? ==> Lowers(Some(inst.op), vm, r.value))
  {
    hide ParseOp, ExecLeaf, ExecBound, StackCost, StepBound;
    var begun := Begin(vm, inst);
    var r := ExecLeaf(env, begun, inst.op);
    LeafBound(begun, r);
    EndStepBound(vm, begun, r);
  }

  lemma {:induction false} RunPaid(env: Env, vm: VM, k: nat)
    requires CanRun(vm) && CleanRun(env, vm, k)
    ensures var f := Run(env, vm, k);
            && (f.Done? ==> RunBound(vm, f.r))
            && (k > Potential(vm) ==> f.Done?)
    decreases k, 0
  {
    hide Step, CleanStep, StackCost;
    if vm.pc < |vm.program| % TWO_32 && k > 0 {
      StepPaid(env, vm, k - 1);
      var f := Step(env, vm, k - 1);
      if f.Done? && f.r.Go? { RunPaid(env, f.r.value, k - 1); }
    }
  }

  /** Every run in which no nested machine stops on its end charge ends, and what it comes to is within the bound. */
  lemma {:induction false} CleanRunsEnd(env: Env, vm: VM)
    requires CanRun(vm) && NoNestedEndCharge(env, vm)
    ensures Outcome(env, vm).Some? && RunBound(vm, Outcome(env, vm).value)
  {
    hide Run, CleanRun, RunBound, StackCost, Outcome;
    var k := Potential(vm) + 1;
    RunPaid(env, vm, k);
    OutcomeIs(env, vm, k);
  }

  // ---------------------------------------------------------------- every step, every state

  lemma {:induction false} CleanFewer(env: Env, vm: VM, k: nat)
    requires CanRun(vm) && CleanRun(env, vm, k + 1)
    ensures CleanRun(env, vm, k)
    decreases k, 0
  {
    hide Step, StackCost, CleanPredicate, ParseOp;
    if vm.pc < |vm.program| % TWO_32 && k > 0 {
      var parsed := ParseOp(vm.program, vm.pc);
      if parsed.Value? && parsed.value.op == OP_CHECKPREDICATE { CleanPredicateFewer(env, Begin(vm, parsed.value), k - 1); }
      var f := Step(env, vm, k - 1);
      if f.Done? && f.r.Go? {
        StepWaits(env, vm, k - 1);
        CleanFewer(env, f.r.value, k - 1);
      }
    }
  }

  lemma {:induction false} CleanPredicateFewer(env: Env, vm: VM, k: nat)
    requires Ready(vm) && CleanPredicate(env, vm, k + 1)
    ensures CleanPredicate(env, vm, k)
    decreases k, 1
  {
    hide OpenPredicate, Run, CleanRun, StackCost;
    var start := OpenPredicate(vm);
    if start.Go? {
      CleanFewer(env, start.value.1, k);
      if Run(env, start.value.1, k).Done? { RunWaits(env, start.value.1, k); }
    }
  }

  lemma {:induction false} CleanUpTo(env: Env, vm: VM, j: nat, k: nat)
    requires CanRun(vm) && j <= k && CleanRun(env, vm, k)
    ensures CleanRun(env, vm, j)
    decreases k
  {
    hide CleanRun;
    if j < k {
      CleanFewer(env, vm, k - 1);
      CleanUpTo(env, vm, j, k - 1);
    }
  }

  /**
   * Every successful step of such a run is paid for, leaves the run limit at zero or more, and leaves such a
   * run.
   */
  lemma {:induction false} StepLowers(env: Env, vm: VM)
    requires CanRun(vm) && vm.pc < |vm.program| % TWO_32 && NoNestedEndCharge(env, vm)
    requires StepOutcome(env, vm).Some? && StepOutcome(env, vm).value.Go?
    ensures var w := StepOutcome(env, vm).value.value;
            CanRun(w) && Lowers(NextOp(vm), vm, w) && StepBound(vm, Go(w)) && NoNestedEndCharge(env, w)
  {
    hide Step, StepOutcome, CleanStep, StackCost, Lowers, StepBound;
    var k := StepTakes(env, vm);
    var w := StepOutcome(env, vm).value.value;
    assert CleanRun(env, vm, k + 1);
    StepPaid(env, vm, k);
    forall j: nat ensures CleanRun(env, w, j) {
      var m := if j <= k then k else j;
      StepWaitsLonger(env, vm, k, m);
      assert CleanRun(env, vm, m + 1);
      CleanUpTo(env, w, j, m);
    }
  }

  /**
   * Safety over whole runs: in every state such a run passes through the run limit is not negative, the run
   * limit and everything on the two stacks together are within what the machine started with, and the number of
   * steps taken is at most the potential it started with.
   */
  lemma {:induction false} EveryReachedStateIsPaidFor(env: Env, vm: VM, n: nat)
    requires CanRun(vm) && NoNestedEndCharge(env, vm) && After(env, vm, n).Some?
    ensures var w := After(env, vm, n).value;
            && 0 <= w.runLimit && Owned(w) <= Owned(vm)
            && n + Potential(w) <= Potential(vm)
            && n <= w.steps - vm.steps
    decreases n
  {
    hide StepOutcome, StackCost, NoNestedEndCharge, Lowers;
    if n > 0 {
      StepLowers(env, vm);
      EveryReachedStateIsPaidFor(env, StepOutcome(env, vm).value.value, n - 1);
    }
  }

  // ---------------------------------------------------------------- nested machines

  /**
   * The exact account of CHECKPREDICATE: the child starts at least 280 below the machine that opens it, and
   * whatever state the child is left in, the step costs 64 plus what the child used. It lowers what is owned if
   * and only if the child hands back less than 64 more than it was given.
   */
  lemma {:induction false} PredicateStepExact(vm: VM, end: VM, ok: bool)
    requires Ready(vm) && OpenPredicate(vm).Go?
    ensures var (parent, child) := OpenPredicate(vm).value;
            && Owned(child) <= Weight(vm) - 280
            && Weight(Settle(parent, end, ok)) == Weight(vm) - 64 - (Owned(child) - Owned(end))
            && (Weight(Settle(parent, end, ok)) < Weight(vm) <==> Owned(end) < Owned(child) + 64)
  {
    hide OpenPredicate, StackCost;
  }

  /** The machine a child with the context opcode PROGRAM and one unit is left as. */
  function Unpaid(env: Env, depth: nat): VM
  {
    Child([OP_PROGRAM], 1, depth, []).(nextPC := 1, runLimit := 0, deferredCost := ItemCost(env.code), dataStack := [env.code], steps := 1)
  }

  /**
   * A child that stops on the charge at the end of a step keeps the item it could not pay for: here one
   * unit buys the context's whole program.
   */
  lemma {:induction false} EndChargeKeepsTheItem(env: Env, depth: nat)
    ensures var child := Child([OP_PROGRAM], 1, depth, []);
            && Outcome(env, child) == Some(Stop(Unpaid(env, depth), EndCharge))
            && Owned(Unpaid(env, depth)) == Owned(child) - 1 + ItemCost(env.code)
  {
    hide StepOutcome, Outcome, StackCost;
    var child := Child([OP_PROGRAM], 1, depth, []);
    UnpaidStep(env, depth);
    OutcomeUnfolds(env, child);
    EmptyStack();
    StackCostPush([], env.code);
    assert [] + [env.code] == [env.code];
  }

  lemma {:induction false} UnpaidStep(env: Env, depth: nat)
    ensures StepOutcome(env, Child([OP_PROGRAM], 1, depth, [])) == Some(Stop(Unpaid(env, depth), EndCharge))
  {
    hide StackCost;
    var child := Child([OP_PROGRAM], 1, depth, []);
    var inst := Instruction(OP_PROGRAM, 1, []);
    assert ParseOp(child.program, 0) == Value(inst);
    UnpaidExec(env, Begin(child, inst));
    assert [] + [env.code] == [env.code];
  }

  lemma {:induction false} UnpaidExec(env: Env, vm: VM)
    requires Ready(vm) && vm.runLimit >= 1
    ensures ExecLeaf(env, vm, OP_PROGRAM) == Go(PushDeferred(vm.(runLimit := vm.runLimit - 1), env.code))
  {
    hide StackCost, ExecControl, ExecStack, ExecBytes, ExecNumeric, OpCheckMultiSig;
  }

  // ---------------------------------------------------------------- Verify

  const INITIAL_RUN_LIMIT := 10000

  function PushAll(vm: VM, args: seq<bytes>): (r: Res<VM>)
    requires Ready(vm)
    ensures r.Go? <==> StackCost(args) <= vm.runLimit
    ensures r.Go? ==> Ready(r.value) && SameFrame(r.value, vm) && Owned(r.value) == Owned(vm)
    ensures r.Go? ==> r.value.dataStack == vm.dataStack + args && r.value.altStack == vm.altStack
    ensures Ended(r).steps == vm.steps && (r.Stop? ==> r.err == RunLimitExceeded)
    decreases |args|
  {
    hide StackCost;
    StackCostFirst(args);
    if args == [] then Go(vm)
    else
      var vm :- Push(vm, args[0]);
      PushAll(vm, args[1..])
  }

  function Initial(env: Env): VM
  {
    Child(env.code, INITIAL_RUN_LIMIT, 0, []).(expansionReserved := env.txVersion == Some(1))
  }

  /** The machine with its arguments pushed. */
  function Start(env: Env): Res<VM>
  {
    PushAll(Initial(env), env.arguments)
  }

  datatype Verdict = Accepted | Rejected(err: VmError) | NeverReturns

  /** The verdict a result stands for. */
  function Judge(r: Res<VM>): Verdict
  {
    match r
    case Stop(_, e) => Rejected(e)
    case Go(vm) => if FalseResult(vm) then Rejected(FalseVMResult) else Accepted
  }

  ghost function Verify(env: Env): Verdict
  {
    if env.vmVersion != 1 then Rejected(UnsupportedVM)
    else
      match Start(env)
      case Stop(_, e) => Rejected(e)
      case Go(vm) =>
        var o := Outcome(env, vm);
        if o.None? then NeverReturns else Judge(o.value)
  }

  /**
   * If no nested machine stops on its end charge, verification returns, and begins at most 21251 instructions,
   * counting those of every nested machine.
   */
  lemma {:induction false} VerifyIsBounded(env: Env)
    requires Start(env).Go? ==> NoNestedEndCharge(env, Start(env).value)
    ensures Verify(env) != NeverReturns
    ensures Start(env).Go? ==>
              var o := Outcome(env, Start(env).value);
              && o.Some? && Ended(o.value).steps <= 21251
              && (o.value.Go? ==> Owned(o.value.value) <= INITIAL_RUN_LIMIT)
  {
    hide StackCost, Outcome, NoNestedEndCharge, PushAll;
    if Start(env).Go? {
      var vm := Start(env).value;
      CleanRunsEnd(env, vm);
      EmptyStack();
      StackCostDepth(vm.dataStack);
    }
  }

  lemma {:induction false} EmptyStack()
    ensures StackCost([]) == 0
  {
  }
}
