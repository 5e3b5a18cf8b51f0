/** protocol/vm/vm.go, control.go and crypto.go as they run: a machine updated in place, step after step. */
module VirtualMachines {
  import opened Basics
  import opened VmTypes
  import opened Opcodes
  import opened Checked
  import opened Machine
  import opened Programs
  import opened DataOps
  import opened CryptoOps
  import opened Interpreter
  import opened Outcomes
  import opened Metering

  function ErrorOf<T>(r: Res<T>): Option<VmError>
  {
    if r.Go? then None else Some(r.err)
  }

  /** CHECKMULTISIG's matching loop, which shortens two slices. */
  method MatchSignatures(c: Crypto, msg: bytes, keys0: seq<bytes>, sigs0: seq<bytes>) returns (ok: bool)
    ensures ok == Greedy(c, msg, keys0, sigs0)
  {
    var keys, sigs := keys0, sigs0;
    while |sigs| > 0 && |keys| > 0
      invariant Greedy(c, msg, keys, sigs) == Greedy(c, msg, keys0, sigs0)
      decreases |keys|
    {
      if c.verify(keys[0], msg, sigs[0]) {
        sigs := sigs[1..];
      }
      keys := keys[1..];
    }
    ok := |sigs| == 0;
  }

  /** `rest` goes on from where `items` were popped, and `whole` is the two together. */
  ghost predicate Extends(whole: Res<(VM, seq<bytes>)>, items: seq<bytes>, rest: Res<(VM, seq<bytes>)>)
  {
    match rest
    case Stop(w, e) => whole == Stop(w, e)
    case Go(v) => whole == Go((v.0, items + v.1))
  }

  lemma {:induction false} ExtendsStart(whole: Res<(VM, seq<bytes>)>)
    ensures Extends(whole, [], whole)
  {
    if whole.Go? { assert [] + whole.value.1 == whole.value.1; }
  }

  lemma {:induction false} ExtendsStep(whole: Res<(VM, seq<bytes>)>, items: seq<bytes>, vm: VM, n: nat)
    requires Ready(vm) && n > 0 && Extends(whole, items, PopMany(vm, n))
    ensures var r := Machine.Pop(vm, true);
            && (r.Stop? ==> whole == Stop(r.vm, r.err))
            && (r.Go? ==> Extends(whole, items + [r.value.1], PopMany(r.value.0, n - 1)))
  {
    hide Weight;
    var r := Machine.Pop(vm, true);
    if r.Go? {
      var rest := PopMany(r.value.0, n - 1);
      if rest.Go? {
        assert items + ([r.value.1] + rest.value.1) == items + [r.value.1] + rest.value.1;
      }
    }
  }

  lemma {:induction false} ExtendsEnd(whole: Res<(VM, seq<bytes>)>, items: seq<bytes>, vm: VM)
    requires Ready(vm) && Extends(whole, items, PopMany(vm, 0))
    ensures whole == Go((vm, items))
  {
    assert items + [] == items;
  }

  class VirtualMachine {
    var program: bytes
    var pc: nat
    var nextPC: nat
    var runLimit: int
    var deferredCost: int
    var expansionReserved: bool
    var data: bytes
    var depth: nat
    var dataStack: seq<bytes>
    var altStack: seq<bytes>
    var steps: nat

    /** The state of the machine as a value. */
    function View(): VM
      reads this
    {
      VM(program, pc, nextPC, runLimit, deferredCost, expansionReserved, data, depth, dataStack, altStack, steps)
    }

    constructor (vm: VM)
      ensures View() == vm
    {
      program, pc, nextPC := vm.program, vm.pc, vm.nextPC;
      runLimit, deferredCost, expansionReserved := vm.runLimit, vm.deferredCost, vm.expansionReserved;
      data, depth := vm.data, vm.depth;
      dataStack, altStack, steps := vm.dataStack, vm.altStack, vm.steps;
    }

    /** Opcodes that are modelled on values leave their result here. */
    method Load(vm: VM)
      modifies this
      ensures View() == vm
    {
      program, pc, nextPC := vm.program, vm.pc, vm.nextPC;
      runLimit, deferredCost, expansionReserved := vm.runLimit, vm.deferredCost, vm.expansionReserved;
      data, depth := vm.data, vm.depth;
      dataStack, altStack, steps := vm.dataStack, vm.altStack, vm.steps;
    }

    /** The machine is where r says, and so is the error. */
    ghost predicate Is(r: Res<VM>, err: Option<VmError>)
      reads this
    {
      View() == Ended(r) && err == ErrorOf(r)
    }

    /** The same of a step or run that was waited for. */
    ghost predicate Came(f: Waited, done: bool, err: Option<VmError>)
      reads this
    {
      done == f.Done? && (done ==> Is(f.r, err))
    }

    method ApplyCost(n: int) returns (err: Option<VmError>)
      modifies this
      ensures Is(Machine.ApplyCost(old(View()), n), err)
    {
      if n > runLimit {
        return Some(RunLimitExceeded);
      }
      runLimit := runLimit - n;
      return None;
    }

    method DeferCost(n: int)
      modifies this
      ensures View() == Machine.DeferCost(old(View()), n)
    {
      deferredCost := deferredCost + n;
    }

    method Push(item: bytes, deferred: bool) returns (err: Option<VmError>)
      modifies this
      ensures deferred ==> Is(Go(Machine.PushDeferred(old(View()), item)), err)
      ensures !deferred ==> Is(Machine.Push(old(View()), item), err)
    {
      var cost := 8 + |item|;
      if deferred {
        DeferCost(cost);
      } else {
        err := ApplyCost(cost);
        if err.Some? {
          return;
        }
      }
      dataStack := dataStack + [item];
      return None;
    }

    method Pop(deferred: bool) returns (item: bytes, err: Option<VmError>)
      modifies this
      ensures var r := Machine.Pop(old(View()), deferred);
              && err == ErrorOf(r)
              && (r.Go? ==> (View(), item) == r.value)
              && (r.Stop? ==> View() == r.vm)
    {
      if |dataStack| == 0 {
        return [], Some(DataStackUnderflow);
      }
      item := dataStack[|dataStack| - 1];
      dataStack := dataStack[..|dataStack| - 1];
      var cost := 8 + |item|;
      if deferred {
        DeferCost(0 - cost);
      } else {
        runLimit := runLimit + cost;
      }
      err := None;
    }

    method PopInt64(deferred: bool) returns (n: int64, err: Option<VmError>)
      modifies this
      ensures var r := Machine.PopInt64(old(View()), deferred);
              && err == ErrorOf(r)
              && (r.Go? ==> (View(), n) == r.value)
              && (r.Stop? ==> View() == r.vm)
    {
      var item;
      item, err := Pop(deferred);
      if err.Some? {
        return 0, err;
      }
      match AsInt64(item)
      case None => return 0, Some(BadValue);
      case Some(m) => n := m;
    }

    /** falseResult: the stack is empty or its top is false. */
    method IsFalse() returns (f: bool)
      ensures f == FalseResult(View())
    {
      if |dataStack| == 0 {
        return true;
      }
      var top := ComputeAsBool(dataStack[|dataStack| - 1]);
      return !top;
    }

    // -------------------------------------------------------------- bitwise.go and splice.go

    method OpInvert() returns (err: Option<VmError>)
      requires Ready(View())
      modifies this
      ensures Is(DataOps.OpInvert(old(View())), err)
    {
      hide Inverted, StackCost;
      err := ApplyCost(1);
      if err.Some? {
        return;
      }
      if |dataStack| == 0 {
        return Some(DataStackUnderflow);
      }
      var top := |dataStack| - 1;
      err := ApplyCost(|dataStack[top]|);
      if err.Some? {
        return;
      }
      var newTop := ComputeInverted(dataStack[top]);
      dataStack := dataStack[..top] + [newTop];
      return None;
    }

    /** The two operands of AND, OR and XOR: the first one popped is the second. */
    method OpAnd() returns (err: Option<VmError>)
      requires Ready(View())
      modifies this
      ensures Is(DataOps.OpAnd(old(View())), err)
    {
      hide Machine.Pop, Machine.PushDeferred, Conjoined, Weight;
      var a, b;
      err := ApplyCost(1);
      if err.Some? {
        return;
      }
      b, err := Pop(true);
      if err.Some? {
        return;
      }
      a, err := Pop(true);
      if err.Some? {
        return;
      }
      err := ApplyCost(Min(|a|, |b|));
      if err.Some? {
        return;
      }
      var res := ComputeConjoined(a, b);
      err := Push(res, true);
    }

    method OpOr(xor: bool) returns (err: Option<VmError>)
      requires Ready(View())
      modifies this
      ensures Is(DataOps.OpOr(old(View()), xor), err)
    {
      hide Machine.Pop, Machine.PushDeferred, Disjoined, Weight;
      var a, b;
      err := ApplyCost(1);
      if err.Some? {
        return;
      }
      b, err := Pop(true);
      if err.Some? {
        return;
      }
      a, err := Pop(true);
      if err.Some? {
        return;
      }
      err := ApplyCost(Max(|a|, |b|));
      if err.Some? {
        return;
      }
      var res := ComputeDisjoined(a, b, xor);
      err := Push(res, true);
    }

    method OpSize() returns (err: Option<VmError>)
      requires Ready(View())
      modifies this
      ensures Is(DataOps.OpSize(old(View())), err)
    {
      hide Machine.PushDeferred, Weight, Int64Bytes;
      err := ApplyCost(1);
      if err.Some? {
        return;
      }
      if |dataStack| == 0 {
        return Some(DataStackUnderflow);
      }
      var size := ComputeInt64Bytes(Signed(|dataStack[|dataStack| - 1]| % TWO_64));
      err := Push(size, true);
    }

    // -------------------------------------------------------------- crypto.go

    method PopItems(count: nat) returns (items: seq<bytes>, err: Option<VmError>)
      requires Ready(View())
      modifies this
      ensures var r := PopMany(old(View()), count);
              && err == ErrorOf(r)
              && (r.Go? ==> (View(), items) == r.value)
              && (r.Stop? ==> View() == r.vm)
    {
      hide Machine.Pop, PopMany, Weight, Extends;
      items := [];
      ghost var whole := PopMany(View(), count);
      ExtendsStart(whole);
      for i := 0 to count
        invariant Ready(View())
        invariant Extends(whole, items, PopMany(View(), count - i))
      {
        var item;
        ExtendsStep(whole, items, View(), count - i);
        item, err := Pop(true);
        if err.Some? {
          return;
        }
        items := items + [item];
      }
      ExtendsEnd(whole, items, View());
      err := None;
    }

    method OpCheckMultiSig(c: Crypto) returns (err: Option<VmError>)
      requires Ready(View())
      modifies this
      ensures Is(CryptoOps.OpCheckMultiSig(c, old(View())), err)
    {
      hide Machine.Pop, Machine.PopInt64, PopMany, Greedy, AsInt64, Weight;
      var numPubkeys;
      numPubkeys, err := PopInt64(true);
      if err.Some? {
        return;
      }
      var pubCost := MulInt64(numPubkeys, 1024);
      if numPubkeys < 0 || pubCost.None? {
        return Some(BadValue);
      }
      err := ApplyCost(pubCost.value);
      if err.Some? {
        return;
      }
      var numSigs;
      numSigs, err := PopInt64(true);
      if err.Some? {
        return;
      }
      if numSigs < 0 || numSigs > numPubkeys || (numPubkeys > 0 && numSigs == 0) {
        return Some(BadValue);
      }
      ghost var counted := View();
      assert PopCounts(old(View())) == Go((counted, numPubkeys, numSigs));
      err := FinishMultiSig(c, numPubkeys, numSigs);
    }

    method FinishMultiSig(c: Crypto, numPubkeys: nat, numSigs: nat) returns (err: Option<VmError>)
      requires Ready(View())
      modifies this
      ensures Is(MultiSigTail(c, old(View()), numPubkeys, numSigs), err)
    {
      hide Machine.Pop, PopMany, Greedy, Weight;
      var keys, msg, sigs;
      keys, err := PopItems(numPubkeys);
      if err.Some? {
        return;
      }
      msg, err := Pop(true);
      if err.Some? {
        return;
      }
      if |msg| != 32 {
        return Some(BadValue);
      }
      sigs, err := PopItems(numSigs);
      if err.Some? {
        return;
      }
      for i := 0 to |keys|
        invariant AllKeySized(keys[..i])
      {
        if |keys[i]| != PUBLIC_KEY_SIZE {
          assert !AllKeySized(keys);
          err := Push(BoolBytes(false), true);
          return;
        }
      }
      assert keys[..|keys|] == keys;
      var ok := MatchSignatures(c, msg, keys, sigs);
      err := Push(BoolBytes(ok), true);
    }

    // -------------------------------------------------------------- control.go

    method OpVerify() returns (err: Option<VmError>)
      requires Ready(View())
      modifies this
      ensures Is(Interpreter.OpVerify(old(View())), err)
    {
      hide Machine.Pop, AsBool, Weight;
      err := ApplyCost(1);
      if err.Some? {
        return;
      }
      var p;
      p, err := Pop(true);
      if err.Some? {
        return;
      }
      var ok := ComputeAsBool(p);
      return if ok then None else Some(VerifyFailed);
    }

    method OpJumpIf() returns (err: Option<VmError>)
      requires Ready(View()) && |data| == 4
      modifies this
      ensures Is(Interpreter.OpJumpIf(old(View())), err)
    {
      hide Machine.Pop, AsBool, Weight, Uint;
      err := ApplyCost(1);
      if err.Some? {
        return;
      }
      var p;
      p, err := Pop(true);
      if err.Some? {
        return;
      }
      var jump := ComputeAsBool(p);
      if jump {
        nextPC := Uint(data);
      }
      return None;
    }

    /** CHECKPREDICATE, for those who wait k steps: a fresh machine is run and its account settled. */
    method OpCheckPredicate(env: Env, k: nat) returns (done: bool, err: Option<VmError>)
      requires Ready(View()) && deferredCost == 0
      modifies this
      ensures Came(CheckPredicate(env, old(View()), k), done, err)
      decreases k, 1
    {
      hide OpenPredicate, Interpreter.Run, StackCost, Close;
      var start := OpenPredicate(View());
      if start.Stop? {
        Load(start.vm);
        return true, Some(start.err);
      }
      var (parent, state) := start.value;
      Load(parent);
      var child := new VirtualMachine(state);
      var childErr;
      done, childErr := child.Run(env, k);
      if !done {
        return false, None;
      }
      err := Settle(child, childErr, Interpreter.Run(env, state, k).r);
    }

    /** What the child still owns comes back, and the verdict is pushed; a panic unwinds. */
    method Settle(child: VirtualMachine, childErr: Option<VmError>, ghost r: Res<VM>) returns (err: Option<VmError>)
      requires child != this && child.Is(r, childErr)
      modifies this
      ensures Is(Close(old(View()), r), err)
    {
      hide Interpreter.Settle, AsBool;
      if childErr == Some(Unexpected) {
        steps := steps + child.steps;
        return Some(Unexpected);
      }
      var bad := child.IsFalse();
      Refund(child, childErr == None && !bad);
      return None;
    }

    method Refund(child: VirtualMachine, ok: bool)
      requires child != this
      modifies this
      ensures View() == Interpreter.Settle(old(View()), child.View(), ok)
    {
      hide StackCost, Machine.DeferCost, Machine.PushDeferred;
      DeferCost(-child.runLimit);
      var cost: int := ComputeStackCost(child.dataStack);
      DeferCost(-cost);
      cost := ComputeStackCost(child.altStack);
      DeferCost(-cost);
      var _ := Push(BoolBytes(ok), true);
      steps := steps + child.steps;
    }

    // -------------------------------------------------------------- vm.go

    method Step(env: Env, k: nat) returns (done: bool, err: Option<VmError>)
      requires CanRun(View())
      modifies this
      ensures Came(Interpreter.Step(env, old(View()), k), done, err)
      decreases k, 3
    {
      hide ParseOp, Exec, StackCost, EndStep, Keeps;
      var parsed := ParseOp(program, pc);
      if parsed.Fail? {
        return true, Some(parsed.err);
      }
      var inst := parsed.value;
      if IsExpansion(inst.op) {
        if expansionReserved {
          return true, Some(DisallowedOpcode);
        }
        nextPC := pc + inst.len;
        pc := nextPC;
        steps := steps + 1;
        err := ApplyCost(1);
        return true, err;
      }
      ghost var was := View();
      nextPC := pc + inst.len;
      deferredCost := 0;
      data := inst.data;
      steps := steps + 1;
      assert View() == Begin(was, inst);
      done, err := Execute(env, inst.op, k);
      if done && err.None? {
        err := PayDeferred();
      }
    }

    /** The charge at the end of the step, and the next instruction. */
    method PayDeferred() returns (err: Option<VmError>)
      modifies this
      ensures Is(EndStep(old(View())), err)
    {
      if deferredCost > runLimit {
        return Some(EndCharge);
      }
      runLimit := runLimit - deferredCost;
      pc := nextPC;
      return None;
    }

    method Execute(env: Env, op: Op, k: nat) returns (done: bool, err: Option<VmError>)
      requires Ready(View()) && deferredCost == 0 && !IsExpansion(op)
      requires op == OP_JUMP || op == OP_JUMPIF ==> |data| == 4
      modifies this
      ensures Came(Exec(env, old(View()), op, k), done, err)
      decreases k, 2
    {
      hide ExecLeaf, CheckPredicate, StackCost, Ready;
      if op == OP_CHECKPREDICATE {
        done, err := OpCheckPredicate(env, k);
      } else {
        err := ExecuteLeaf(env, op);
        done := true;
      }
    }

    /** The opcodes with loops run here; the others are functions whose result is loaded. */
    method ExecuteLeaf(env: Env, op: Op) returns (err: Option<VmError>)
      requires Ready(View()) && !IsExpansion(op) && op != OP_CHECKPREDICATE
      requires op == OP_JUMP || op == OP_JUMPIF ==> |data| == 4
      modifies this
      ensures Is(ExecLeaf(env, old(View()), op), err)
    {
      hide ExecLeaf, StackCost, Ready, Weight;
      LeafIs(env, View(), op);
      if op == OP_CHECKMULTISIG {
        err := OpCheckMultiSig(env.crypto);
      } else if op == OP_VERIFY {
        err := OpVerify();
      } else if op == OP_JUMPIF {
        err := OpJumpIf();
      } else if op == OP_SIZE {
        err := OpSize();
      } else if op == OP_INVERT {
        err := OpInvert();
      } else if op == OP_AND {
        err := OpAnd();
      } else if op == OP_OR || op == OP_XOR {
        err := OpOr(op == OP_XOR);
      } else {
        var r := ExecLeaf(env, View(), op);
        Load(Ended(r));
        err := ErrorOf(r);
      }
    }

    method Run(env: Env, k: nat) returns (done: bool, err: Option<VmError>)
      requires CanRun(View())
      modifies this
      ensures Came(Interpreter.Run(env, old(View()), k), done, err)
      decreases k, 0
    {
      hide Interpreter.Step, StackCost;
      var left: nat := k;
      while pc < |program| % TWO_32
        invariant CanRun(View()) && left <= k
        invariant Interpreter.Run(env, View(), left) == Interpreter.Run(env, old(View()), k)
        decreases left
      {
        if left == 0 {
          return false, None;
        }
        left := left - 1;
        done, err := Step(env, left);
        if !done || err.Some? {
          return;
        }
      }
      return true, None;
    }
  }

  /** Which function each of these opcodes is. */
  lemma {:induction false} LeafIs(env: Env, vm: VM, op: Op)
    requires Ready(vm) && (op == OP_JUMPIF ==> |vm.data| == 4)
    ensures op == OP_CHECKMULTISIG ==> ExecLeaf(env, vm, op) == CryptoOps.OpCheckMultiSig(env.crypto, vm)
    ensures op == OP_VERIFY ==> ExecLeaf(env, vm, op) == Interpreter.OpVerify(vm)
    ensures op == OP_JUMPIF ==> ExecLeaf(env, vm, op) == Interpreter.OpJumpIf(vm)
    ensures op == OP_SIZE ==> ExecLeaf(env, vm, op) == DataOps.OpSize(vm)
    ensures op == OP_INVERT ==> ExecLeaf(env, vm, op) == DataOps.OpInvert(vm)
    ensures op == OP_AND ==> ExecLeaf(env, vm, op) == DataOps.OpAnd(vm)
    ensures op == OP_OR || op == OP_XOR ==> ExecLeaf(env, vm, op) == DataOps.OpOr(vm, op == OP_XOR)
  {
    hide ExecStack, ExecNumeric, ExecContext, CryptoOps.OpCheckMultiSig, Interpreter.OpVerify, Interpreter.OpJumpIf;
    hide DataOps.OpSize, DataOps.OpInvert, DataOps.OpAnd, DataOps.OpOr, Ready;
  }

  /** What vm.Verify has come to after k steps of the run: an answer, or none yet. */
  function VerifyFor(env: Env, k: nat): Option<Verdict>
  {
    if env.vmVersion != 1 then Some(Rejected(UnsupportedVM))
    else
      match Start(env)
      case Stop(_, e) => Some(Rejected(e))
      case Go(vm) =>
        match Interpreter.Run(env, vm, k)
        case Unfinished => None
        case Done(r) => Some(Judge(r))
  }

  /** Waiting tells nothing but the verdict, and the verdict is told to those who wait long enough. */
  lemma {:induction false} VerifyForTells(env: Env, k: nat)
    ensures VerifyFor(env, k).Some? ==> VerifyFor(env, k).value == Verify(env)
    ensures Verify(env) != NeverReturns ==> exists j: nat :: VerifyFor(env, j) == Some(Verify(env))
  {
    hide Interpreter.Run, Outcome, PushAll, StackCost, Judge;
    if env.vmVersion == 1 && Start(env).Go? {
      var vm := Start(env).value;
      if Interpreter.Run(env, vm, k).Done? {
        OutcomeIs(env, vm, k);
        Judged(Interpreter.Run(env, vm, k).r);
      }
      if Outcome(env, vm).Some? {
        var j := OutcomeTakes(env, vm);
        assert VerifyFor(env, j) == Some(Verify(env));
      }
    } else {
      assert VerifyFor(env, 0) == Some(Verify(env));
    }
  }

  lemma {:induction false} Judged(r: Res<VM>)
    ensures Judge(r) != NeverReturns
  {
  }

  /** vm.Verify, for those who wait k steps: push the arguments, run, and read the verdict off the top of the stack. */
  method VerifyContext(env: Env, k: nat) returns (verdict: Option<Verdict>)
    ensures verdict == VerifyFor(env, k)
  {
    hide Machine.Push, Interpreter.Run, StackCost, Weight;
    if env.vmVersion != 1 {
      return Some(Rejected(UnsupportedVM));
    }
    var vm := new VirtualMachine(Initial(env));
    var args := env.arguments;
    for i := 0 to |args|
      invariant Ready(vm.View()) && vm.pc == 0
      invariant PushAll(vm.View(), args[i..]) == Start(env)
    {
      assert args[i..][1..] == args[i + 1..];
      var err := vm.Push(args[i], false);
      if err.Some? {
        return Some(Rejected(err.value));
      }
    }
    var done, err := vm.Run(env, k);
    if !done {
      return None;
    }
    if err.Some? {
      return Some(Rejected(err.value));
    }
    var bad := vm.IsFalse();
    return Some(if bad then Rejected(FalseVMResult) else Accepted);
  }
}
