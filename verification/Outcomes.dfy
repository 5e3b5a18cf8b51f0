/**
 * What a run of the machine comes to, however long it takes: the equations of protocol/vm/vm.go without a
 * number of steps to wait for.
 */
module Outcomes {
  import opened Basics
  import opened Opcodes
  import opened Machine
  import opened Programs
  import opened Interpreter

  // ---------------------------------------------------------------- waiting longer changes nothing

  lemma {:induction false} PredicateWaits(env: Env, vm: VM, k: nat)
    requires Ready(vm) && vm.deferredCost == 0 && CheckPredicate(env, vm, k).Done?
    ensures CheckPredicate(env, vm, k + 1) == CheckPredicate(env, vm, k)
    decreases k, 1
  {
    hide Close, OpenPredicate, Run, StackCost;
    var start := OpenPredicate(vm);
    if start.Go? { RunWaits(env, start.value.1, k); }
  }

  lemma {:induction false} StepWaits(env: Env, vm: VM, k: nat)
    requires CanRun(vm) && Step(env, vm, k).Done?
    ensures Step(env, vm, k + 1) == Step(env, vm, k)
    decreases k, 3
  {
    hide ParseOp, ExecLeaf, CheckPredicate, StackCost, Finish;
    match ParseOp(vm.program, vm.pc)
    case Fail(_) =>
    case Value(inst) =>
      if inst.op == OP_CHECKPREDICATE { PredicateWaits(env, Begin(vm, inst), k); }
  }

  lemma {:induction false} RunWaits(env: Env, vm: VM, k: nat)
    requires CanRun(vm) && Run(env, vm, k).Done?
    ensures Run(env, vm, k + 1) == Run(env, vm, k)
    decreases k, 0
  {
    hide Step, StackCost;
    if vm.pc < |vm.program| % TWO_32 {
      StepWaits(env, vm, k - 1);
      var f := Step(env, vm, k - 1);
      if f.r.Go? { RunWaits(env, f.r.value, k - 1); }
    }
  }

  lemma {:induction false} RunWaitsLonger(env: Env, vm: VM, k: nat, j: nat)
    requires CanRun(vm) && Run(env, vm, k).Done? && k <= j
    ensures Run(env, vm, j) == Run(env, vm, k)
    decreases j - k
  {
    hide Run;
    if k < j {
      RunWaits(env, vm, k);
      RunWaitsLonger(env, vm, k + 1, j);
    }
  }

  lemma {:induction false} StepWaitsLonger(env: Env, vm: VM, k: nat, j: nat)
    requires CanRun(vm) && Step(env, vm, k).Done? && k <= j
    ensures Step(env, vm, j) == Step(env, vm, k)
    decreases j - k
  {
    hide Step;
    if k < j {
      StepWaits(env, vm, k);
      StepWaitsLonger(env, vm, k + 1, j);
    }
  }

  // ---------------------------------------------------------------- outcomes

  /** What the run comes to, or nothing if it never ends. */
  ghost function Outcome(env: Env, vm: VM): (o: Option<Res<VM>>)
    requires CanRun(vm)
    ensures o.Some? ==> Ended(o.value).runLimit >= 0
  {
    if k: nat :| Run(env, vm, k).Done? then Some(Run(env, vm, k).r) else None
  }

  lemma {:induction false} OutcomeIs(env: Env, vm: VM, k: nat)
    requires CanRun(vm) && Run(env, vm, k).Done?
    ensures Outcome(env, vm) == Some(Run(env, vm, k).r)
  {
    hide Run;
    var j: nat :| Run(env, vm, j).Done? && Outcome(env, vm) == Some(Run(env, vm, j).r);
    if j <= k { RunWaitsLonger(env, vm, j, k); } else { RunWaitsLonger(env, vm, k, j); }
  }

  lemma {:induction false} OutcomeTakes(env: Env, vm: VM) returns (k: nat)
    requires CanRun(vm) && Outcome(env, vm).Some?
    ensures Run(env, vm, k) == Done(Outcome(env, vm).value)
  {
    hide Run;
    k :| Run(env, vm, k).Done? && Outcome(env, vm) == Some(Run(env, vm, k).r);
  }

  /** The run ends with an error. */
  ghost predicate Fails(env: Env, vm: VM)
    requires CanRun(vm)
  {
    Outcome(env, vm).Some? && Outcome(env, vm).value.Stop?
  }

  /** CHECKPREDICATE: the parent waits for its child's outcome, and settles. */
  ghost function PredicateOutcome(env: Env, vm: VM): Option<Res<VM>>
    requires Ready(vm)
  {
    hide OpenPredicate;
    match OpenPredicate(vm)
    case Stop(w, e) => Some(Stop(w, e))
    case Go((parent, child)) =>
      var o := Outcome(env, child);
      if o.None? then None else Some(Close(parent, o.value))
  }

  ghost function ExecOutcome(env: Env, vm: VM, op: Op): Option<Res<VM>>
    requires Ready(vm) && !IsExpansion(op)
    requires op == OP_JUMP || op == OP_JUMPIF ==> |vm.data| == 4
  {
    if op == OP_CHECKPREDICATE then PredicateOutcome(env, vm) else Some(ExecLeaf(env, vm, op))
  }

  /** One step of the source. */
  ghost function StepOutcome(env: Env, vm: VM): Option<Res<VM>>
    requires CanRun(vm)
  {
    hide ParseOp, ExecOutcome;
    match ParseOp(vm.program, vm.pc)
    case Fail(e) => Some(Stop(vm, e))
    case Value(inst) =>
      if IsExpansion(inst.op) then Some(ExpansionStep(vm, inst))
      else
        var o := ExecOutcome(env, Begin(vm, inst), inst.op);
        if o.None? then None else Some(Finish(o.value))
  }

  lemma {:induction false} PredicateOutcomeIs(env: Env, vm: VM, k: nat)
    requires Ready(vm) && vm.deferredCost == 0 && CheckPredicate(env, vm, k).Done?
    ensures PredicateOutcome(env, vm) == Some(CheckPredicate(env, vm, k).r)
  {
    hide OpenPredicate, Close, Run, Outcome;
    var start := OpenPredicate(vm);
    if start.Go? { OutcomeIs(env, start.value.1, k); }
  }

  lemma {:induction false} PredicateTakes(env: Env, vm: VM) returns (k: nat)
    requires Ready(vm) && vm.deferredCost == 0 && PredicateOutcome(env, vm).Some?
    ensures CheckPredicate(env, vm, k) == Done(PredicateOutcome(env, vm).value)
  {
    hide OpenPredicate, Close, Run, Outcome;
    var start := OpenPredicate(vm);
    k := 0;
    if start.Go? { k := OutcomeTakes(env, start.value.1); }
  }

  lemma {:induction false} StepOutcomeIs(env: Env, vm: VM, k: nat)
    requires CanRun(vm) && Step(env, vm, k).Done?
    ensures StepOutcome(env, vm) == Some(Step(env, vm, k).r)
  {
    hide ParseOp, ExecLeaf, CheckPredicate, PredicateOutcome, Finish, StackCost;
    match ParseOp(vm.program, vm.pc)
    case Fail(_) =>
    case Value(inst) =>
      if inst.op == OP_CHECKPREDICATE { PredicateOutcomeIs(env, Begin(vm, inst), k); }
  }

  lemma {:induction false} StepTakes(env: Env, vm: VM) returns (k: nat)
    requires CanRun(vm) && StepOutcome(env, vm).Some?
    ensures Step(env, vm, k) == Done(StepOutcome(env, vm).value)
    ensures StepKeeps(vm, StepOutcome(env, vm).value)
  {
    hide ParseOp, ExecLeaf, CheckPredicate, PredicateOutcome, Finish, StackCost, StepKeeps;
    k := 0;
    var parsed := ParseOp(vm.program, vm.pc);
    if parsed.Value? && parsed.value.op == OP_CHECKPREDICATE {
      k := PredicateTakes(env, Begin(vm, parsed.value));
    }
  }

  /** The loop of run: at the end of the program it is done; otherwise it is a step and the rest of the run. */
  lemma {:induction false} OutcomeUnfolds(env: Env, vm: VM)
    requires CanRun(vm)
    ensures vm.pc >= |vm.program| % TWO_32 ==> Outcome(env, vm) == Some(Go(vm))
    ensures vm.pc < |vm.program| % TWO_32 ==>
              match StepOutcome(env, vm)
              case None => Outcome(env, vm) == None
              case Some(Stop(w, e)) => Outcome(env, vm) == Some(Stop(w, e))
              case Some(Go(w)) => CanRun(w) && Outcome(env, vm) == Outcome(env, w)
  {
    hide Step, StepOutcome, Outcome, StackCost;
    if vm.pc >= |vm.program| % TWO_32 {
      OutcomeIs(env, vm, 0);
    } else if StepOutcome(env, vm).None? {
      if Outcome(env, vm).Some? { StepTakesPart(env, vm); }
    } else {
      var k := StepTakes(env, vm);
      var f := Step(env, vm, k);
      if f.r.Stop? {
        OutcomeIs(env, vm, k + 1);
      } else {
        AfterFirst(env, vm, f.r.value, k);
      }
    }
  }

  lemma {:induction false} StepTakesPart(env: Env, vm: VM)
    requires CanRun(vm) && vm.pc < |vm.program| % TWO_32 && Outcome(env, vm).Some?
    ensures StepOutcome(env, vm).Some?
  {
    hide Step, StepOutcome, Outcome, StackCost;
    var k := OutcomeTakes(env, vm);
    StepOutcomeIs(env, vm, k - 1);
  }

  lemma {:induction false} AfterFirst(env: Env, vm: VM, w: VM, k: nat)
    requires CanRun(vm) && vm.pc < |vm.program| % TWO_32 && Step(env, vm, k) == Done(Go(w))
    ensures Outcome(env, vm) == Outcome(env, w)
  {
    hide Step, Outcome, StackCost;
    if Outcome(env, w).Some? {
      var j := OutcomeTakes(env, w);
      var m := if j <= k then k else j;
      StepWaitsLonger(env, vm, k, m);
      RunWaitsLonger(env, w, j, m);
      OutcomeIs(env, vm, m + 1);
    }
    if Outcome(env, vm).Some? {
      var j := OutcomeTakes(env, vm);
      var m := if j <= k then k + 1 else j;
      RunWaitsLonger(env, vm, j, m);
      StepWaitsLonger(env, vm, k, m - 1);
      OutcomeIs(env, w, m - 1);
    }
  }

  // ---------------------------------------------------------------- the states of a run

  /** The state after n successful steps, if the run gets that far. */
  ghost function After(env: Env, vm: VM, n: nat): (r: Option<VM>)
    requires CanRun(vm)
    ensures r.Some? ==> CanRun(r.value)
    decreases n
  {
    hide StepOutcome;
    if n == 0 then Some(vm)
    else if vm.pc >= |vm.program| % TWO_32 then None
    else
      match StepOutcome(env, vm)
      case None => None
      case Some(Stop(_, _)) => None
      case Some(Go(w)) =>
        StepGoes(env, vm);
        After(env, w, n - 1)
  }

  lemma {:induction false} StepGoes(env: Env, vm: VM)
    requires CanRun(vm) && StepOutcome(env, vm).Some?
    ensures StepKeeps(vm, StepOutcome(env, vm).value)
  {
    var _ := StepTakes(env, vm);
  }

  /** A run that was waited for k steps and is done has no state after k + 1 steps. */
  lemma {:induction false} DoneHasNoMore(env: Env, vm: VM, k: nat)
    requires CanRun(vm) && Run(env, vm, k).Done?
    ensures After(env, vm, k + 1).None?
    decreases k
  {
    hide Step, StepOutcome, StackCost;
    if vm.pc < |vm.program| % TWO_32 {
      StepOutcomeIs(env, vm, k - 1);
      var f := Step(env, vm, k - 1);
      if f.r.Go? { DoneHasNoMore(env, f.r.value, k - 1); }
    }
  }

  /** A run with a state after every number of steps has no outcome. */
  lemma {:induction false} ForeverHasNoOutcome(env: Env, vm: VM)
    requires CanRun(vm) && forall n: nat :: After(env, vm, n).Some?
    ensures Outcome(env, vm).None?
  {
    hide Run, After, Outcome;
    if Outcome(env, vm).Some? {
      var k := OutcomeTakes(env, vm);
      DoneHasNoMore(env, vm, k);
    }
  }
}
