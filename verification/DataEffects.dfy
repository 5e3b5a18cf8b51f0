/** The opcodes that compute a value from the top of the stack do what the table of effects says. */
module DataEffects {
  import opened Basics
  import opened VmTypes
  import opened Opcodes
  import opened Checked
  import opened Machine
  import opened DataOps
  import opened Interpreter
  import opened Effects
  import opened EffectsHold

  /** The stack without its top k items. */
  function Under(s: seq<bytes>, k: nat): seq<bytes>
    requires k <= |s|
  {
    s[..|s| - k]
  }

  /** The machine after k items were popped and their price put off to the end of the step. */
  function Without(vm: VM, k: nat): VM
    requires k <= |vm.dataStack|
  {
    vm.(dataStack := Under(vm.dataStack, k), deferredCost := vm.deferredCost - PriceOf(vm.dataStack, k))
  }

  function PriceOf(s: seq<bytes>, k: nat): nat
    requires k <= |s|
  {
    if k == 0 then 0 else PriceOf(s, k - 1) + 8 + |At(s, k - 1)|
  }

  /** The next pop, after k of them. */
  lemma {:induction false} PopNext(vm: VM, k: nat)
    requires k <= |vm.dataStack|
    ensures var v := Without(vm, k);
      if k == |vm.dataStack| then
        Pop(v, true) == Stop(v, DataStackUnderflow) && PopInt64(v, true) == Stop(v, DataStackUnderflow)
      else
        var x := At(vm.dataStack, k);
        && Pop(v, true) == Go((Without(vm, k + 1), x))
        && PopInt64(v, true) == if IsInt(x) then Go((Without(vm, k + 1), IntOf(x))) else Stop(Without(vm, k + 1), BadValue)
  {
    hide Weight, StackCost, AsInt64;
    var s, l := vm.dataStack, |vm.dataStack|;
    assert s[..l - k] == Under(s, k);
    if k < l {
      assert s[..l - k][..l - k - 1] == s[..l - (k + 1)];
    }
  }

  lemma {:induction false} PopFirst(vm: VM)
    ensures Without(vm, 0) == vm
  {
    assert vm.dataStack[..|vm.dataStack|] == vm.dataStack;
  }

  /** What is popped and put off is still owned. */
  lemma {:induction false} WithoutKeeps(vm: VM, k: nat)
    requires k <= |vm.dataStack|
    ensures Weight(Without(vm, k)) == Weight(vm) && (Ready(vm) ==> Ready(Without(vm, k)))
  {
    hide Weight;
    if k == 0 {
      PopFirst(vm);
    } else {
      WithoutKeeps(vm, k - 1);
      PopNext(vm, k - 1);
    }
  }

  /** The run limit after a fee. */
  function Paid(vm: VM, fee: int): VM
  {
    vm.(runLimit := vm.runLimit - fee)
  }

  /** A fee paid, k items gone and one in their place, its price put off. */
  lemma {:induction false} GivesOne(vm: VM, fee: nat, k: nat, item: bytes)
    requires k <= |vm.dataStack| && fee <= vm.runLimit
    ensures Agrees(vm, Go(PushDeferred(Without(Paid(vm, fee), k), item)), Moves(vm.altStack, k, [item], fee, fee))
  {
    hide StackCost, PriceOf;
    WithoutKeeps(Paid(vm, fee), k);
  }

  lemma {:induction false} GivesNone(vm: VM, fee: nat, k: nat)
    requires k <= |vm.dataStack| && fee <= vm.runLimit
    ensures Agrees(vm, Go(Without(Paid(vm, fee), k)), Moves(vm.altStack, k, [], fee, fee))
  {
    hide StackCost, PriceOf;
    WithoutKeeps(Paid(vm, fee), k);
    assert Under(vm.dataStack, k) + [] == Under(vm.dataStack, k);
  }

  lemma {:induction false} UnaryHolds(vm: VM, op: Op)
    requires Ready(vm)
    ensures Agrees(vm, OpUnary(vm, op), UnaryEffect(op, vm.dataStack, vm.altStack))
  {
    hide At, Agrees, Meter, SameFrame, Stopped, Ready, Weight, Pop, PopInt64, IsInt, IntOf, UnaryValue, Without, PushDeferred;
    Stops(vm, OpUnary(vm, op), UnaryEffect(op, vm.dataStack, vm.altStack));
    var v := Paid(vm, 2);
    PopFirst(v);
    PopNext(v, 0);
    if vm.runLimit >= 2 && |vm.dataStack| >= 1 {
      var r := UnaryValue(op, IntOf(At(vm.dataStack, 0)));
      if r.Value? { GivesOne(vm, 2, 1, r.value); }
    }
  }

  lemma {:induction false} BinaryHolds(vm: VM, op: Op)
    requires Ready(vm) && op != OP_NUMEQUALVERIFY
    ensures Agrees(vm, OpBinary(vm, op), BinaryEffect(op, vm.dataStack, vm.altStack))
  {
    hide At, Agrees, Meter, SameFrame, Stopped, Ready, Weight, Pop, PopInt64, IsInt, IntOf, BinaryValue, Without, PushDeferred;
    Stops(vm, OpBinary(vm, op), BinaryEffect(op, vm.dataStack, vm.altStack));
    var s := vm.dataStack;
    var v := Paid(vm, BinaryCost(op));
    PopFirst(v);
    PopNext(v, 0);
    if |s| > 0 { PopNext(v, 1); }
    if vm.runLimit >= BinaryCost(op) && |s| >= 2 {
      var r := BinaryValue(op, IntOf(At(s, 1)), IntOf(At(s, 0)));
      if r.Value? { GivesOne(vm, BinaryCost(op), 2, r.value); }
    }
  }

  lemma {:induction false} NumEqualVerifyHolds(vm: VM)
    requires Ready(vm)
    ensures Agrees(vm, OpNumEqualVerify(vm), BinaryEffect(OP_NUMEQUALVERIFY, vm.dataStack, vm.altStack))
  {
    hide At, Agrees, Meter, SameFrame, Stopped, Ready, Weight, Pop, PopInt64, IsInt, IntOf, Without;
    Stops(vm, OpNumEqualVerify(vm), BinaryEffect(OP_NUMEQUALVERIFY, vm.dataStack, vm.altStack));
    var v := Paid(vm, 2);
    PopFirst(v);
    PopNext(v, 0);
    if |vm.dataStack| > 0 { PopNext(v, 1); }
    if vm.runLimit >= 2 && |vm.dataStack| >= 2 { GivesNone(vm, 2, 2); }
  }

  lemma {:induction false} BooleanHolds(vm: VM, both: bool)
    requires Ready(vm)
    ensures Agrees(vm, OpBoolean(vm, both), BooleanEffect(both, vm.dataStack, vm.altStack))
  {
    hide At, Agrees, Meter, SameFrame, Stopped, Ready, Weight, Pop, AsBool, Without, PushDeferred;
    Stops(vm, OpBoolean(vm, both), BooleanEffect(both, vm.dataStack, vm.altStack));
    var s, v := vm.dataStack, Paid(vm, 2);
    PopFirst(v);
    PopNext(v, 0);
    if |s| > 0 { PopNext(v, 1); }
    if vm.runLimit >= 2 && |s| >= 2 {
      var a, b := AsBool(At(s, 1)), AsBool(At(s, 0));
      GivesOne(vm, 2, 2, BoolBytes(if both then a && b else a || b));
    }
  }

  lemma {:induction false} WithinHolds(vm: VM)
    requires Ready(vm)
    ensures Agrees(vm, OpWithin(vm), WithinEffect(vm.dataStack, vm.altStack))
  {
    hide At, Agrees, Meter, SameFrame, Stopped, Ready, Weight, Pop, PopInt64, IsInt, IntOf, Without, PushDeferred;
    Stops(vm, OpWithin(vm), WithinEffect(vm.dataStack, vm.altStack));
    var s, v := vm.dataStack, Paid(vm, 4);
    PopFirst(v);
    PopNext(v, 0);
    if |s| > 0 { PopNext(v, 1); }
    if |s| > 1 { PopNext(v, 2); }
    if vm.runLimit >= 4 && |s| >= 3 {
      GivesOne(vm, 4, 3, BoolBytes(IntOf(At(s, 1)) <= IntOf(At(s, 2)) < IntOf(At(s, 0))));
    }
  }

  lemma {:induction false} Shifted(x: int64, y: int64)
    requires y >= 0
    ensures y == 0 ==> Shift(x, y) == x && InInt64(Shift(x, y))
    ensures x != 0 && y != 0 ==> LshiftInt64(x, y) == if y >= 64 || !InInt64(Shift(x, y)) then None else Some(Shift(x, y))
  {
    assert Pow2(0) == 1;
  }

  lemma {:induction false} LshiftHolds(vm: VM)
    requires Ready(vm)
    ensures Agrees(vm, OpLshift(vm), LshiftEffect(vm.dataStack, vm.altStack))
  {
    hide At, Agrees, Meter, SameFrame, Stopped, Ready, Weight, Pop, PopInt64, IsInt, IntOf, Without, PushDeferred, LshiftInt64, Shift, Int64Bytes;
    Stops(vm, OpLshift(vm), LshiftEffect(vm.dataStack, vm.altStack));
    var s, v := vm.dataStack, Paid(vm, 8);
    PopFirst(v);
    PopNext(v, 0);
    if |s| > 0 { PopNext(v, 1); }
    if vm.runLimit >= 8 && |s| >= 2 && IntOf(At(s, 0)) >= 0 {
      var x, y := IntOf(At(s, 1)), IntOf(At(s, 0));
      Shifted(x, y);
      GivesOne(vm, 8, 2, Int64Bytes(x));
      if InInt64(Shift(x, y)) { GivesOne(vm, 8, 2, Int64Bytes(Shift(x, y))); }
    }
  }

  lemma {:induction false} NumericHolds(vm: VM, op: Op)
    requires Ready(vm) && OP_1ADD <= op <= OP_WITHIN && !IsExpansion(op)
    ensures Agrees(vm, ExecNumeric(vm, op), NumericEffect(op, vm.dataStack, vm.altStack))
  {
    hide Agrees, Ready, OpUnary, OpLshift, OpBoolean, OpNumEqualVerify, OpWithin, OpBinary, UnaryEffect, LshiftEffect, BooleanEffect,
      WithinEffect, BinaryEffect;
    if op <= OP_0NOTEQUAL {
      UnaryHolds(vm, op);
    } else if op == OP_LSHIFT {
      LshiftHolds(vm);
    } else if op == OP_BOOLAND || op == OP_BOOLOR {
      BooleanHolds(vm, op == OP_BOOLAND);
    } else if op == OP_WITHIN {
      WithinHolds(vm);
    } else if op == OP_NUMEQUALVERIFY {
      NumEqualVerifyHolds(vm);
    } else {
      BinaryHolds(vm, op);
    }
  }

  // ---------------------------------------------------------------- strings

  lemma {:induction false} PayLater(vm: VM, a: int, k: nat, b: int)
    requires k <= |vm.dataStack|
    ensures ApplyCost(Without(Paid(vm, a), k), b) ==
            if b > vm.runLimit - a then Stop(Without(Paid(vm, a), k), RunLimitExceeded) else Go(Without(Paid(vm, a + b), k))
  {
    hide Weight, PriceOf;
  }

  lemma {:induction false} EqualHolds(vm: VM, op: Op)
    requires Ready(vm) && (op == OP_EQUAL || op == OP_EQUALVERIFY)
    ensures Agrees(vm, if op == OP_EQUAL then OpEqual(vm) else OpEqualVerify(vm), PairEffect(op, vm.dataStack, vm.altStack))
  {
    hide At, Agrees, Meter, SameFrame, Stopped, Ready, Weight, Pop, Without, PushDeferred;
    Stops(vm, if op == OP_EQUAL then OpEqual(vm) else OpEqualVerify(vm), PairEffect(op, vm.dataStack, vm.altStack));
    var s, v := vm.dataStack, Paid(vm, 1);
    PopFirst(v);
    PopNext(v, 0);
    if |s| > 0 { PopNext(v, 1); }
    if vm.runLimit >= 1 && |s| >= 2 {
      var a, b := At(s, 1), At(s, 0);
      var less := Min(|a|, |b|);
      PayLater(vm, 1, 2, less);
      if 1 + less <= vm.runLimit {
        GivesOne(vm, 1 + less, 2, BoolBytes(a == b));
        GivesNone(vm, 1 + less, 2);
      }
    }
  }

  lemma {:induction false} AndHolds(vm: VM)
    requires Ready(vm)
    ensures Agrees(vm, OpAnd(vm), PairEffect(OP_AND, vm.dataStack, vm.altStack))
  {
    hide At, Agrees, Meter, SameFrame, Stopped, Ready, Weight, Pop, Without, PushDeferred, Conjoined, Disjoined;
    Stops(vm, OpAnd(vm), PairEffect(OP_AND, vm.dataStack, vm.altStack));
    var s, v := vm.dataStack, Paid(vm, 1);
    PopFirst(v);
    PopNext(v, 0);
    if |s| > 0 { PopNext(v, 1); }
    if vm.runLimit >= 1 && |s| >= 2 {
      var a, b := At(s, 1), At(s, 0);
      PayLater(vm, 1, 2, Min(|a|, |b|));
      if 1 + Min(|a|, |b|) <= vm.runLimit { GivesOne(vm, 1 + Min(|a|, |b|), 2, Conjoined(a, b)); }
    }
  }

  lemma {:induction false} OrHolds(vm: VM, xor: bool)
    requires Ready(vm)
    ensures Agrees(vm, OpOr(vm, xor), PairEffect(if xor then OP_XOR else OP_OR, vm.dataStack, vm.altStack))
  {
    hide At, Agrees, Meter, SameFrame, Stopped, Ready, Weight, Pop, Without, PushDeferred, Conjoined, Disjoined;
    Stops(vm, OpOr(vm, xor), PairEffect(if xor then OP_XOR else OP_OR, vm.dataStack, vm.altStack));
    var s, v := vm.dataStack, Paid(vm, 1);
    PopFirst(v);
    PopNext(v, 0);
    if |s| > 0 { PopNext(v, 1); }
    if vm.runLimit >= 1 && |s| >= 2 {
      var a, b := At(s, 1), At(s, 0);
      PayLater(vm, 1, 2, Max(|a|, |b|));
      if 1 + Max(|a|, |b|) <= vm.runLimit { GivesOne(vm, 1 + Max(|a|, |b|), 2, Disjoined(a, b, xor)); }
    }
  }

  /** A fee paid for good, and n more paid now and put back at the end of the step. */
  function Back(vm: VM, fee: int, n: int): VM
  {
    vm.(runLimit := vm.runLimit - fee - n, deferredCost := vm.deferredCost - n)
  }

  lemma {:induction false} LendLater(vm: VM, a: int, k: nat, n: int)
    requires k <= |vm.dataStack| && n <= vm.runLimit - a
    ensures ApplyCost(Without(Paid(vm, a), k), n).Go?
    ensures DeferCost(ApplyCost(Without(Paid(vm, a), k), n).value, 0 - n) == Without(Back(vm, a, n), k)
  {
    hide Weight, PriceOf;
  }

  lemma {:induction false} GivesBack(vm: VM, fee: nat, n: nat, k: nat, item: bytes)
    requires k <= |vm.dataStack| && fee + n <= vm.runLimit
    ensures Agrees(vm, Go(PushDeferred(Without(Back(vm, fee, n), k), item)), Moves(vm.altStack, k, [item], fee, fee + n))
  {
    hide StackCost, PriceOf;
    WithoutKeeps(Back(vm, fee, n), k);
  }

  lemma {:induction false} CatHolds(vm: VM, pushdata: bool)
    requires Ready(vm)
    ensures Agrees(vm, OpCat(vm, pushdata), CatEffect(pushdata, vm.dataStack, vm.altStack))
  {
    hide At, Agrees, Meter, SameFrame, Stopped, Ready, Weight, Pop, Without, PushDeferred, PushdataBytes, DeferCost;
    Stops(vm, OpCat(vm, pushdata), CatEffect(pushdata, vm.dataStack, vm.altStack));
    var s, v := vm.dataStack, Paid(vm, 4);
    PopFirst(v);
    PopNext(v, 0);
    if |s| > 0 { PopNext(v, 1); }
    if vm.runLimit >= 4 && |s| >= 2 {
      var a, b := At(s, 1), At(s, 0);
      PayLater(vm, 4, 2, |a| + |b|);
      if 4 + |a| + |b| <= vm.runLimit {
        LendLater(vm, 4, 2, |a| + |b|);
        GivesBack(vm, 4, |a| + |b|, 2, a + if pushdata then PushdataBytes(b) else b);
      }
    }
  }

  lemma {:induction false} SizePopped(vm: VM)
    requires Ready(vm)
    ensures var s, r := vm.dataStack, PopSize(vm);
      if vm.runLimit < 4 then r.Stop? && r.err == RunLimitExceeded
      else if |s| < 1 then r.Stop? && r.err == DataStackUnderflow
      else if !IsInt(At(s, 0)) || IntOf(At(s, 0)) < 0 then r.Stop? && r.err == BadValue
      else if vm.runLimit < 4 + IntOf(At(s, 0)) then r.Stop? && r.err == RunLimitExceeded
      else r == Go((Without(Back(vm, 4, IntOf(At(s, 0))), 1), IntOf(At(s, 0))))
  {
    hide Weight, Pop, PopInt64, IsInt, IntOf, Without, DeferCost;
    var s, v := vm.dataStack, Paid(vm, 4);
    PopFirst(v);
    PopNext(v, 0);
    if vm.runLimit >= 4 && |s| >= 1 {
      var size: int := IntOf(At(s, 0));
      PayLater(vm, 4, 1, size);
      if 4 + size <= vm.runLimit { LendLater(vm, 4, 1, size); }
    }
  }

  lemma {:induction false} SideHolds(vm: VM, left: bool)
    requires Ready(vm)
    ensures Agrees(vm, OpLeftRight(vm, left), SideEffect(left, vm.dataStack, vm.altStack))
  {
    hide At, Agrees, Meter, SameFrame, Stopped, Ready, Weight, Pop, PopSize, IsInt, IntOf, Without, PushDeferred;
    Stops(vm, OpLeftRight(vm, left), SideEffect(left, vm.dataStack, vm.altStack));
    SizePopped(vm);
    var s := vm.dataStack;
    if |s| >= 1 && IntOf(At(s, 0)) >= 0 && vm.runLimit >= 4 + IntOf(At(s, 0)) {
      var size: int := IntOf(At(s, 0));
      PopNext(Back(vm, 4, size), 1);
      if |s| >= 2 && size <= |At(s, 1)| {
        var str := At(s, 1);
        GivesBack(vm, 4, size, 2, if left then str[..size] else str[|str| - size..]);
      }
    }
  }

  /** SUBSTR after the size. */
  function SubstrTail(vm: VM, size: nat): Res<VM>
    requires Ready(vm) && size <= MAX_INT64
  {
    hide Weight, Pop, PopInt64, ApplyCost, PushDeferred, AsInt64, AsBool;
    var (vm, offset) :- PopInt64(vm, true);
    if offset < 0 then Stop(vm, BadValue)
    else
      var (vm, str) :- Pop(vm, true);
      match AddInt64(offset, size)
      case None => Stop(vm, BadValue)
      case Some(end) =>
        if end > |str| then Stop(vm, BadValue) else Go(PushDeferred(vm, str[offset..end]))
  }

  lemma {:induction false} SubstrRest(v: VM, size: nat)
    requires |v.dataStack| >= 1 && Ready(Without(v, 1)) && size <= MAX_INT64
    ensures var s, r := v.dataStack, SubstrTail(Without(v, 1), size);
      if |s| < 2 then r.Stop? && r.err == DataStackUnderflow
      else if !IsInt(At(s, 1)) || IntOf(At(s, 1)) < 0 then r.Stop? && r.err == BadValue
      else
        var offset: int := IntOf(At(s, 1));
        if |s| < 3 then r.Stop? && r.err == DataStackUnderflow
        else if offset + size > MAX_INT64 || offset + size > |At(s, 2)| then r.Stop? && r.err == BadValue
        else r == Go(PushDeferred(Without(v, 3), At(s, 2)[offset..offset + size]))
  {
    hide At, SameFrame, Ready, Weight, Pop, PopInt64, IsInt, IntOf, Without, PushDeferred;
    PopNext(v, 1);
    if |v.dataStack| >= 2 { PopNext(v, 2); }
  }

  lemma {:induction false} SubstrHolds(vm: VM)
    requires Ready(vm)
    ensures Agrees(vm, OpSubstr(vm), SubstrEffect(vm.dataStack, vm.altStack))
  {
    hide At, Agrees, Meter, SameFrame, Stopped, Weight, OpSubstr, SubstrTail, PopSize, IsInt, IntOf, Without, PushDeferred;
    Stops(vm, OpSubstr(vm), SubstrEffect(vm.dataStack, vm.altStack));
    SizePopped(vm);
    SubstrIs(vm);
    var s := vm.dataStack;
    if PopSize(vm).Go? {
      var size: int := IntOf(At(s, 0));
      SubstrRest(Back(vm, 4, size), size);
      var offset: int := if |s| >= 2 then IntOf(At(s, 1)) else 0;
      if |s| >= 3 && 0 <= offset && offset + size <= |At(s, 2)| {
        GivesBack(vm, 4, size, 3, At(s, 2)[offset..offset + size]);
      }
    }
  }

  lemma {:induction false} SubstrIs(vm: VM)
    requires Ready(vm)
    ensures var r := PopSize(vm);
      if r.Stop? then OpSubstr(vm) == Stop(r.vm, r.err) else OpSubstr(vm) == SubstrTail(r.value.0, r.value.1)
  {
    hide Weight, PopSize, Pop, PopInt64, PushDeferred;
  }

  lemma {:induction false} SizeHolds(vm: VM)
    requires Ready(vm)
    ensures Agrees(vm, OpSize(vm), SizeEffect(vm.dataStack, vm.altStack))
  {
    hide Weight, StackCost, Int64Bytes;
    assert vm.dataStack[..|vm.dataStack|] == vm.dataStack;
  }

  lemma {:induction false} InvertHolds(vm: VM)
    requires Ready(vm)
    ensures Agrees(vm, OpInvert(vm), InvertEffect(vm.dataStack, vm.altStack))
  {
    hide StackCost, Inverted;
    var s, l := vm.dataStack, |vm.dataStack|;
    if l > 0 {
      StackCostPush(s[..l - 1], Inverted(s[l - 1]));
      StackCostPush(s[..l - 1], s[l - 1]);
      assert s[..l - 1] + [s[l - 1]] == s;
    }
  }

  lemma {:induction false} BytesHolds(vm: VM, op: Op)
    requires Ready(vm) && OP_CAT <= op <= OP_CATPUSHDATA
    ensures Agrees(vm, ExecBytes(vm, op), BytesEffect(op, vm.dataStack, vm.altStack))
  {
    hide Agrees, Ready, OpCat, OpSubstr, OpLeftRight, OpSize, OpInvert, OpAnd, OpOr, OpEqual, OpEqualVerify, CatEffect, SubstrEffect,
      SideEffect, SizeEffect, InvertEffect, PairEffect;
    if op == OP_CAT || op == OP_CATPUSHDATA {
      CatHolds(vm, op == OP_CATPUSHDATA);
    } else if op == OP_SUBSTR {
      SubstrHolds(vm);
    } else if op == OP_LEFT || op == OP_RIGHT {
      SideHolds(vm, op == OP_LEFT);
    } else if op == OP_SIZE {
      SizeHolds(vm);
    } else if op == OP_INVERT {
      InvertHolds(vm);
    } else if op == OP_AND {
      AndHolds(vm);
    } else if op == OP_OR || op == OP_XOR {
      OrHolds(vm, op == OP_XOR);
    } else {
      EqualHolds(vm, op);
    }
  }
}
