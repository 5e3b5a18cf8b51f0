/** The machine does what the table of effects says, for every opcode but CHECKPREDICATE. */
module EffectsHold {
  import opened Basics
  import opened VmTypes
  import opened Opcodes
  import opened Machine
  import opened StackOps
  import opened Interpreter
  import opened Effects
  import OpMeaning

  /** The result of an operation is the effect, or the refusal, and a run limit that is too low stops it. */
  ghost predicate Agrees(vm: VM, r: Res<VM>, e: Effect)
  {
    match e
    case Refuses(err, need) => r.Stop? && r.err == (if vm.runLimit < need then RunLimitExceeded else err)
    case Does(take, give, alt, jump, fee, need) =>
      if vm.runLimit < need then r.Stop? && r.err == RunLimitExceeded
      else
        && r.Go? && take <= |vm.dataStack|
        && r.value.dataStack == vm.dataStack[..|vm.dataStack| - take] + give && r.value.altStack == alt
        && r.value.nextPC == (if jump.Some? then jump.value else vm.nextPC)
        && Weight(r.value) == Weight(vm) - fee
  }

  /** An operation that stops agrees with a refusal for the same error, and with anything that needs more than the run limit. */
  lemma {:induction false} Stops(vm: VM, r: Res<VM>, e: Effect)
    ensures r.Stop? && vm.runLimit < e.need && r.err == RunLimitExceeded ==> Agrees(vm, r, e)
    ensures r.Stop? && vm.runLimit >= e.need && e.Refuses? && r.err == e.err ==> Agrees(vm, r, e)
  {
  }

  // ---------------------------------------------------------------- pushes and control

  lemma {:induction false} MinusOne()
    ensures Int64Bytes(-1) == [255, 255, 255, 255, 255, 255, 255, 255]
  {
  }

  lemma {:induction false} PushHolds(vm: VM, op: Op)
    requires Ready(vm) && op < OP_TOALTSTACK && !IsExpansion(op) && op < OP_NOP
    ensures Agrees(vm, ExecControl(vm, op), ControlEffect(op, vm.data, vm.dataStack, vm.altStack))
  {
    hide Weight, StackCost, AsBool, Uint, Int64Bytes;
    MinusOne();
    assert vm.dataStack[..|vm.dataStack|] == vm.dataStack;
  }

  lemma {:induction false} FlowHolds(vm: VM, op: Op)
    requires Ready(vm) && (op == OP_NOP || op == OP_JUMP || op == OP_FAIL) && (op == OP_JUMP ==> |vm.data| == 4)
    ensures Agrees(vm, ExecControl(vm, op), ControlEffect(op, vm.data, vm.dataStack, vm.altStack))
  {
    hide StackCost, Uint;
    assert vm.dataStack[..|vm.dataStack|] + [] == vm.dataStack;
  }

  lemma {:induction false} JumpIfHolds(vm: VM)
    requires Ready(vm) && |vm.data| == 4
    ensures Agrees(vm, OpJumpIf(vm), ControlEffect(OP_JUMPIF, vm.data, vm.dataStack, vm.altStack))
  {
    hide StackCost, AsBool, Uint;
    var s, l := vm.dataStack, |vm.dataStack|;
    if l > 0 {
      StackCostPush(s[..l - 1], s[l - 1]);
      assert s[..l - 1] + [s[l - 1]] == s && s[..l - 1] + [] == s[..l - 1];
    }
  }

  lemma {:induction false} VerifyHolds(vm: VM)
    requires Ready(vm)
    ensures Agrees(vm, OpVerify(vm), ControlEffect(OP_VERIFY, vm.data, vm.dataStack, vm.altStack))
  {
    hide Weight, StackCost, AsBool;
    if vm.dataStack != [] { assert vm.dataStack[..|vm.dataStack| - 1] + [] == vm.dataStack[..|vm.dataStack| - 1]; }
  }

  lemma {:induction false} ControlHolds(vm: VM, op: Op)
    requires Ready(vm) && op < OP_TOALTSTACK && !IsExpansion(op)
    requires op == OP_JUMP || op == OP_JUMPIF ==> |vm.data| == 4
    ensures Agrees(vm, ExecControl(vm, op), ControlEffect(op, vm.data, vm.dataStack, vm.altStack))
  {
    hide Agrees, ControlEffect, Ready;
    if op < OP_NOP {
      PushHolds(vm, op);
    } else if op == OP_JUMPIF {
      JumpIfHolds(vm);
    } else if op == OP_VERIFY {
      VerifyHolds(vm);
    } else {
      FlowHolds(vm, op);
    }
  }

  // ---------------------------------------------------------------- the stacks

  lemma {:induction false} ToAltHolds(vm: VM)
    requires Ready(vm)
    ensures Agrees(vm, OpToAltStack(vm), ToAltEffect(vm.dataStack, vm.altStack))
  {
    hide StackCost;
    var s, l, a := vm.dataStack, |vm.dataStack|, vm.altStack;
    if l > 0 {
      StackCostPush(a, s[l - 1]);
      StackCostPush(s[..l - 1], s[l - 1]);
      assert s[..l - 1] + [s[l - 1]] == s && s[..l - 1] + [] == s[..l - 1];
    }
  }

  lemma {:induction false} FromAltHolds(vm: VM)
    requires Ready(vm)
    ensures Agrees(vm, OpFromAltStack(vm), FromAltEffect(vm.dataStack, vm.altStack))
  {
    hide StackCost;
    var s, l, a := vm.dataStack, |vm.dataStack|, vm.altStack;
    if |a| > 0 {
      StackCostPush(s, a[|a| - 1]);
      StackCostPush(a[..|a| - 1], a[|a| - 1]);
      assert a[..|a| - 1] + [a[|a| - 1]] == a && s[..l] == s;
    }
  }

  lemma {:induction false} NothingPicked(s: seq<bytes>, t: seq<bytes>)
    ensures t + Picked(s, []) == t
  {
  }

  lemma {:induction false} DropHolds(vm: VM)
    requires Ready(vm)
    ensures Agrees(vm, OpDrop(vm), Arrange(vm.dataStack, vm.altStack, 1, [], 1))
  {
    hide Weight, StackCost, Picked;
    var s, l := vm.dataStack, |vm.dataStack|;
    if l >= 1 { NothingPicked(s, s[..l - 1]); }
  }

  lemma {:induction false} Drop2Holds(vm: VM)
    requires Ready(vm)
    ensures Agrees(vm, Op2Drop(vm), Arrange(vm.dataStack, vm.altStack, 2, [], 2))
  {
    hide Weight, StackCost, Picked;
    var s, l := vm.dataStack, |vm.dataStack|;
    if l >= 2 {
      NothingPicked(s, s[..l - 2]);
      assert s[..l - 1][..l - 2] == s[..l - 2];
    }
  }

  lemma {:induction false} NipHolds(vm: VM)
    requires Ready(vm)
    ensures Agrees(vm, OpNip(vm), Arrange(vm.dataStack, vm.altStack, 2, [0], 1))
  {
    hide StackCost, Picked;
    var s, l := vm.dataStack, |vm.dataStack|;
    if l >= 2 {
      assert Picked(s, [0]) == [s[l - 1]] by { PickedOne(s); }
      assert s[..l - 1][..l - 2] == s[..l - 2];
      StackCostPush(s[..l - 2], s[l - 1]);
      StackCostPush(s[..l - 2], s[l - 2]);
      StackCostPush(s[..l - 1], s[l - 1]);
      assert s[..l - 2] + [s[l - 2]] == s[..l - 1] && s[..l - 1] + [s[l - 1]] == s;
    }
  }

  lemma {:induction false} PickedOne(s: seq<bytes>)
    requires s != []
    ensures Picked(s, [0]) == [s[|s| - 1]]
  {
  }

  lemma {:induction false} Copies(vm: VM, n: nat, times: nat, block: seq<bytes>)
    requires Ready(vm) && 1 <= n <= |vm.dataStack| && times <= n
    requires block == vm.dataStack[|vm.dataStack| - n..|vm.dataStack| - n + times]
    ensures var r := CopyUp(vm, n, times);
      && (r.Go? <==> vm.runLimit >= StackCost(block)) && (r.Stop? ==> r.err == RunLimitExceeded)
      && (r.Go? ==> && r.value.dataStack == vm.dataStack + block && r.value.altStack == vm.altStack
                    && r.value.nextPC == vm.nextPC && Weight(r.value) == Weight(vm))
  {
    hide Weight, StackCost, CopyUp;
    OpMeaning.CopyUpMeaning(vm, n, times);
  }

  /** Copying a block of the stack to the top for a fee. */
  lemma {:induction false} CopyHolds(vm: VM, n: nat, times: nat, fee: nat)
    requires Ready(vm) && 1 <= n && times <= n
    ensures var r := ApplyCost(vm, fee);
            Agrees(vm, if r.Stop? then r else if |vm.dataStack| < n then Stop(r.value, DataStackUnderflow) else CopyUp(r.value, n, times),
                   Copy(vm.dataStack, vm.altStack, n, times, fee))
  {
    hide Weight, StackCost, CopyUp;
    var s, l := vm.dataStack, |vm.dataStack|;
    if n <= l && fee <= vm.runLimit {
      Copies(ApplyCost(vm, fee).value, n, times, s[l - n..l - n + times]);
    }
    assert s[..l] == s;
  }

  lemma {:induction false} CopiesHold(vm: VM)
    requires Ready(vm)
    ensures Agrees(vm, NDup(vm, 1), Copy(vm.dataStack, vm.altStack, 1, 1, 1))
    ensures Agrees(vm, NDup(vm, 2), Copy(vm.dataStack, vm.altStack, 2, 2, 2))
    ensures Agrees(vm, NDup(vm, 3), Copy(vm.dataStack, vm.altStack, 3, 3, 3))
    ensures Agrees(vm, Op2Over(vm), Copy(vm.dataStack, vm.altStack, 4, 2, 2))
  {
    hide Weight, StackCost, CopyUp, Agrees, Copy, ApplyCost;
    CopyHolds(vm, 1, 1, 1);
    CopyHolds(vm, 2, 2, 2);
    CopyHolds(vm, 3, 3, 3);
    CopyHolds(vm, 4, 2, 2);
  }

  lemma {:induction false} OverHolds(vm: VM)
    requires Ready(vm)
    ensures Agrees(vm, OpOver(vm), Copy(vm.dataStack, vm.altStack, 2, 1, 1))
  {
    hide Weight, StackCost;
    var s, l := vm.dataStack, |vm.dataStack|;
    if l >= 2 {
      assert s[l - 2..l - 2 + 1] == [s[l - 2]];
      StackCostFirst([s[l - 2]]);
      StackCostFirst([s[l - 2]][1..]);
      assert s[..l] == s;
    }
  }

  lemma {:induction false} Blocks(vm: VM, i: nat, j: nat)
    requires i <= j <= |vm.dataStack|
    ensures var w := SwapBlocks(vm, i, j);
            w.dataStack == vm.dataStack[..i] + vm.dataStack[j..] + vm.dataStack[i..j] && w.altStack == vm.altStack
  {
    hide Weight, StackCost;
  }

  lemma {:induction false} ArrangedBlocks(s: seq<bytes>, i: nat, j: nat, depths: seq<nat>)
    requires i <= j <= |s| && |depths| == |s| - i
    requires forall k :: 0 <= k < |depths| ==> depths[k] < |s|
    requires forall k :: 0 <= k < |s| - j ==> depths[k] == |s| - j - 1 - k
    requires forall k :: |s| - j <= k < |s| - i ==> depths[k] == |s| - 1 - (i + k - (|s| - j))
    ensures s[..i] + s[j..] + s[i..j] == s[..i] + Picked(s, depths)
  {
  }

  lemma {:induction false} SwapHolds(vm: VM)
    requires Ready(vm)
    ensures Agrees(vm, OpSwap(vm), Arrange(vm.dataStack, vm.altStack, 2, [0, 1], 1))
  {
    hide Weight, StackCost, SwapBlocks, Picked;
    var s, l := vm.dataStack, |vm.dataStack|;
    if l >= 2 && vm.runLimit >= 1 {
      Blocks(vm.(runLimit := vm.runLimit - 1), l - 2, l - 1);
      ArrangedBlocks(s, l - 2, l - 1, [0, 1]);
    }
  }

  lemma {:induction false} Swap2Holds(vm: VM)
    requires Ready(vm)
    ensures Agrees(vm, Op2Swap(vm), Arrange(vm.dataStack, vm.altStack, 4, [1, 0, 3, 2], 2))
  {
    hide Weight, StackCost, SwapBlocks, Picked;
    var s, l := vm.dataStack, |vm.dataStack|;
    if l >= 4 && vm.runLimit >= 2 {
      Blocks(vm.(runLimit := vm.runLimit - 2), l - 4, l - 2);
      ArrangedBlocks(s, l - 4, l - 2, [1, 0, 3, 2]);
    }
  }

  lemma {:induction false} Rot2Holds(vm: VM)
    requires Ready(vm)
    ensures Agrees(vm, Op2Rot(vm), Arrange(vm.dataStack, vm.altStack, 6, [3, 2, 1, 0, 5, 4], 2))
  {
    hide Weight, StackCost, SwapBlocks, Picked;
    var s, l := vm.dataStack, |vm.dataStack|;
    if l >= 6 && vm.runLimit >= 2 {
      Blocks(vm.(runLimit := vm.runLimit - 2), l - 6, l - 4);
      ArrangedBlocks(s, l - 6, l - 4, [3, 2, 1, 0, 5, 4]);
    }
  }

  lemma {:induction false} RotHolds(vm: VM)
    requires Ready(vm)
    ensures Agrees(vm, OpRot(vm), Arrange(vm.dataStack, vm.altStack, 3, [1, 0, 2], 2))
  {
    hide Weight, StackCost, SwapBlocks, Picked;
    var s, l := vm.dataStack, |vm.dataStack|;
    if l >= 3 && vm.runLimit >= 2 {
      Blocks(vm.(runLimit := vm.runLimit - 2), l - 3, l - 2);
      ArrangedBlocks(s, l - 3, l - 2, [1, 0, 2]);
    }
  }

  lemma {:induction false} IntPopped(vm: VM)
    ensures var r := PopInt64(vm, false);
      if vm.dataStack == [] then r == Stop(vm, DataStackUnderflow)
      else
        var x := At(vm.dataStack, 0);
        if IsInt(x) then
          r == Go((vm.(dataStack := vm.dataStack[..|vm.dataStack| - 1], runLimit := vm.runLimit + 8 + |x|), IntOf(x)))
        else r.Stop? && r.err == BadValue
  {
    hide Weight, StackCost, AsInt64;
  }

  lemma {:induction false} Rolled(s: seq<bytes>, n: nat)
    requires n + 2 <= |s|
    ensures var t, i := s[..|s| - 1], |s| - 2 - n;
            t[..i] + t[i + 1..] + t[i..i + 1] == s[..|s| - (n + 2)] + (s[|s| - 1 - n..|s| - 1] + [At(s, n + 1)])
  {
  }

  /** The machine after the count was popped and its price returned. */
  function CountPopped(vm: VM): VM
    requires vm.dataStack != []
  {
    vm.(dataStack := vm.dataStack[..|vm.dataStack| - 1], runLimit := vm.runLimit - 2 + 8 + |At(vm.dataStack, 0)|)
  }

  lemma {:induction false} RollGives(vm: VM, n: nat)
    requires Ready(vm) && vm.runLimit >= 2 && n + 2 <= |vm.dataStack|
    ensures var i := |vm.dataStack| - 2 - n;
            Agrees(vm, Go(SwapBlocks(CountPopped(vm), i, i + 1)),
                   Moves(vm.altStack, n + 2, vm.dataStack[i + 1..|vm.dataStack| - 1] + [At(vm.dataStack, n + 1)], 2, 2))
  {
    hide SwapBlocks, StackCost;
    var s, l := vm.dataStack, |vm.dataStack|;
    Blocks(CountPopped(vm), l - 2 - n, l - 1 - n);
    Rolled(s, n);
    StackCostPush(s[..l - 1], s[l - 1]);
    assert s[..l - 1] + [s[l - 1]] == s;
  }

  lemma {:induction false} RollHolds(vm: VM)
    requires Ready(vm)
    ensures Agrees(vm, OpRoll(vm), RollEffect(vm.dataStack, vm.altStack))
  {
    hide Agrees, Weight, StackCost, SwapBlocks, PopInt64, AsInt64, IntOf, IsInt, Meter, SameFrame, Stopped;
    var s := vm.dataStack;
    Stops(vm, OpRoll(vm), RollEffect(vm.dataStack, vm.altStack));
    if vm.runLimit >= 2 {
      IntPopped(vm.(runLimit := vm.runLimit - 2));
      if |s| >= 1 {
        var n: int := IntOf(At(s, 0));
        if 0 <= n && n + 2 <= |s| { RollGives(vm, n); }
      }
    }
  }

  lemma {:induction false} PickHolds(vm: VM)
    requires Ready(vm)
    ensures Agrees(vm, OpPick(vm), PickEffect(vm.dataStack, vm.altStack))
  {
    hide Weight, StackCost, PopInt64, AsInt64;
    if vm.runLimit >= 2 { IntPopped(vm.(runLimit := vm.runLimit - 2)); }
  }

  lemma {:induction false} IfDupHolds(vm: VM)
    requires Ready(vm)
    ensures Agrees(vm, OpIfDup(vm), IfDupEffect(vm.dataStack, vm.altStack))
    ensures Agrees(vm, OpDepth(vm), DepthEffect(vm.dataStack, vm.altStack))
  {
    hide Weight, StackCost, AsBool, Int64Bytes;
    var s, l := vm.dataStack, |vm.dataStack|;
    assert s[..l] == s && s + [] == s;
  }

  lemma {:induction false} TuckCost(s: seq<bytes>)
    requires |s| >= 2
    ensures var rest, top2 := s[..|s| - 2], s[|s| - 2..];
      && rest + [At(s, 0)] + top2 == rest + [At(s, 0), At(s, 1), At(s, 0)]
      && StackCost(rest + [At(s, 0), At(s, 1), At(s, 0)]) == StackCost(s) + 8 + |At(s, 0)|
  {
    hide StackCost;
    var rest, top2 := s[..|s| - 2], s[|s| - 2..];
    assert rest + [At(s, 0)] + top2 == rest + [At(s, 0), At(s, 1), At(s, 0)];
    StackCostSplit(s, |s| - 2);
    StackCostConcat(rest + [At(s, 0)], top2);
    StackCostPush(rest, At(s, 0));
  }

  lemma {:induction false} TuckIs(vm: VM)
    requires Ready(vm)
    ensures var s, l := vm.dataStack, |vm.dataStack|;
      if vm.runLimit < 1 then OpTuck(vm) == Stop(vm, RunLimitExceeded)
      else if l < 2 then OpTuck(vm).Stop? && OpTuck(vm).err == DataStackUnderflow
      else if vm.runLimit < 9 + |At(s, 0)| then OpTuck(vm).Stop? && OpTuck(vm).err == RunLimitExceeded
      else OpTuck(vm) == Go(vm.(runLimit := vm.runLimit - 9 - |At(s, 0)|, dataStack := s[..l - 2] + [At(s, 0)] + s[l - 2..]))
  {
    hide Weight, StackCost;
  }

  lemma {:induction false} TuckGives(vm: VM)
    requires |vm.dataStack| >= 2 && vm.runLimit >= 9 + |At(vm.dataStack, 0)|
    ensures var s, l := vm.dataStack, |vm.dataStack|;
            Agrees(vm, Go(vm.(runLimit := vm.runLimit - 9 - |At(s, 0)|, dataStack := s[..l - 2] + [At(s, 0)] + s[l - 2..])),
                   TuckEffect(s, vm.altStack))
  {
    hide StackCost, At;
    TuckCost(vm.dataStack);
  }

  lemma {:induction false} TuckHolds(vm: VM)
    requires Ready(vm)
    ensures Agrees(vm, OpTuck(vm), TuckEffect(vm.dataStack, vm.altStack))
  {
    hide Agrees, Weight, StackCost, OpTuck, At;
    Stops(vm, OpTuck(vm), TuckEffect(vm.dataStack, vm.altStack));
    TuckIs(vm);
    if |vm.dataStack| >= 2 && vm.runLimit >= 9 + |At(vm.dataStack, 0)| { TuckGives(vm); }
  }

  lemma {:induction false} StackHolds(vm: VM, op: Op)
    requires Ready(vm) && OP_TOALTSTACK <= op <= OP_TUCK
    ensures Agrees(vm, ExecStack(vm, op), StackEffect(op, vm.dataStack, vm.altStack))
  {
    hide Agrees, Arrange, Copy, Ready, OpToAltStack, OpFromAltStack, OpDrop, Op2Drop, OpNip, NDup, Op2Over, OpOver, OpSwap, Op2Swap, Op2Rot,
      OpRot, OpRoll, OpPick, OpIfDup, OpDepth, OpTuck, ToAltEffect, FromAltEffect, RollEffect, PickEffect, IfDupEffect, DepthEffect, TuckEffect;
    if op <= OP_2DROP {
      ToAltHolds(vm);
      FromAltHolds(vm);
      Drop2Holds(vm);
    } else if op <= OP_2SWAP {
      CopiesHold(vm);
      Rot2Holds(vm);
      Swap2Holds(vm);
    } else if op <= OP_NIP {
      IfDupHolds(vm);
      DropHolds(vm);
      CopiesHold(vm);
      NipHolds(vm);
    } else if op <= OP_ROLL {
      OverHolds(vm);
      PickHolds(vm);
      RollHolds(vm);
    } else {
      RotHolds(vm);
      SwapHolds(vm);
      TuckHolds(vm);
    }
  }
}
