/**
 * protocol/vm/vm.go: the state of the metered stack machine and the primitives every opcode is made of.
 *
 * Weight is what the machine still owns: the run limit, less the cost put off to the end of the step, plus
 * the price of everything on the two stacks. Pushing and popping move value between the three and keep it.
 */
module Machine {
  import opened Basics
  import opened VmTypes

  datatype VmError =
    | AltStackUnderflow
    | BadValue
    | Context
    | DataStackUnderflow
    | DisallowedOpcode
    | DivZero
    | LongProgram
    | Overflow
    | Range
    | Return
    | RunLimitExceeded
    | ShortProgram
    | VerifyFailed
    | UnsupportedVM
    | FalseVMResult
    | CheckOutputError
    /** A run-time panic, which Verify turns into ErrUnexpected. */
    | Unexpected
    /** ErrRunLimitExceeded, from the charge at the end of a step: its item is already on the stack. */
    | EndCharge

  datatype VM = VM(
    program: bytes,
    pc: nat,
    nextPC: nat,
    runLimit: int,
    deferredCost: int,
    expansionReserved: bool,
    data: bytes,
    depth: nat,
    dataStack: seq<bytes>,
    altStack: seq<bytes>,
    // counts the steps begun by this machine and by the machines nested in it; nothing reads it
    steps: nat)

  /** What an operation returns: a value, or the machine as the error left it. */
  datatype Res<+T> = Go(value: T) | Stop(vm: VM, err: VmError) {
    predicate IsFailure()
    {
      Stop?
    }

    function PropagateFailure<U>(): Res<U>
      requires Stop?
    {
      Stop(vm, err)
    }

    function Extract(): T
      requires Go?
    {
      value
    }
  }

  /** A computed value, or the error that computing it gives. */
  datatype Computed<+T> = Value(value: T) | Fail(err: VmError)

  function ItemCost(item: bytes): nat
  {
    8 + |item|
  }

  function StackCost(stack: seq<bytes>): nat
  {
    if stack == [] then 0 else StackCost(stack[..|stack| - 1]) + ItemCost(stack[|stack| - 1])
  }

  method ComputeStackCost(stack: seq<bytes>) returns (result: nat)
    ensures result == StackCost(stack)
  {
    result := 8 * |stack|;
    for i := 0 to |stack|
      invariant result == StackCost(stack[..i]) + 8 * (|stack| - i)
    {
      assert stack[..i + 1][..i] == stack[..i];
      result := result + |stack[i]|;
    }
    assert stack[..|stack|] == stack;
  }

  lemma {:induction false} StackCostConcat(s: seq<bytes>, t: seq<bytes>)
    ensures StackCost(s + t) == StackCost(s) + StackCost(t)
    decreases |t|
  {
    if t == [] {
      assert s + t == s;
    } else {
      StackCostConcat(s, t[..|t| - 1]);
      assert (s + t)[..|s + t| - 1] == s + t[..|t| - 1];
    }
  }

  lemma {:induction false} StackCostSplit(s: seq<bytes>, k: nat)
    requires k <= |s|
    ensures StackCost(s[..k]) + StackCost(s[k..]) == StackCost(s)
  {
    StackCostConcat(s[..k], s[k..]);
    assert s[..k] + s[k..] == s;
  }

  lemma {:induction false} StackCostFirst(s: seq<bytes>)
    ensures s != [] ==> StackCost(s) == ItemCost(s[0]) + StackCost(s[1..])
    ensures s == [] ==> StackCost(s) == 0
  {
    if s != [] {
      StackCostSplit(s, 1);
      assert s[..1] == [s[0]];
      assert [s[0]][..0] == s[..0];
    }
  }

  lemma {:induction false} StackCostPush(s: seq<bytes>, x: bytes)
    ensures StackCost(s + [x]) == StackCost(s) + ItemCost(x)
  {
    assert (s + [x])[..|s|] == s;
  }

  lemma {:induction false} StackCostDepth(s: seq<bytes>)
    ensures StackCost(s) >= 8 * |s|
  {
    if s != [] { StackCostDepth(s[..|s| - 1]); }
  }

  function Weight(vm: VM): int
  {
    Owned(vm) - vm.deferredCost
  }

  /** Run limit plus the price of both stacks: the measure between two steps. */
  function Owned(vm: VM): int
  {
    vm.runLimit + StackCost(vm.dataStack) + StackCost(vm.altStack)
  }

  /** Twice what is owned plus the depth of the data stack: every step lowers it. */
  function Potential(vm: VM): (p: int)
    ensures vm.runLimit >= 0 ==> p >= 0
  {
    2 * Owned(vm) + |vm.dataStack|
  }

  /** Inside an operation, before it pushes its result: nothing is owed. */
  ghost predicate Ready(vm: VM)
  {
    vm.runLimit >= 0 && vm.deferredCost <= 0 && vm.nextPC < TWO_32
  }

  /** The parts of the machine no opcode changes. */
  ghost predicate SameFrame(a: VM, b: VM)
  {
    && a.program == b.program
    && a.pc == b.pc
    && a.expansionReserved == b.expansionReserved
    && a.depth == b.depth
    && a.steps == b.steps
  }

  // ---------------------------------------------------------------- primitives

  /** Positive cost lowers the run limit, negative cost raises it. */
  function ApplyCost(vm: VM, n: int): (r: Res<VM>)
    ensures r.Go? <==> n <= vm.runLimit
    ensures r.Go? ==> Weight(r.value) == Weight(vm) - n && SameFrame(r.value, vm) && r.value.dataStack == vm.dataStack
    ensures r.Go? ==> r.value.deferredCost == vm.deferredCost
    ensures r.Go? && Ready(vm) ==> Ready(r.value)
    ensures r.Stop? ==> r.vm == vm && r.err == RunLimitExceeded
  {
    if n > vm.runLimit then Stop(vm, RunLimitExceeded) else Go(vm.(runLimit := vm.runLimit - n))
  }

  function DeferCost(vm: VM, n: int): (w: VM)
    ensures Weight(w) == Weight(vm) - n
    ensures SameFrame(w, vm) && w.dataStack == vm.dataStack && w.runLimit == vm.runLimit
    ensures w.deferredCost == vm.deferredCost + n
    ensures Ready(vm) && n <= 0 ==> Ready(w)
  {
    vm.(deferredCost := vm.deferredCost + n)
  }

  /** push with a cost put off to the end of the step, which cannot fail. */
  function PushDeferred(vm: VM, item: bytes): (w: VM)
    ensures Weight(w) == Weight(vm) && SameFrame(w, vm)
    ensures w.dataStack == vm.dataStack + [item] && w.runLimit == vm.runLimit && w.nextPC == vm.nextPC
  {
    StackCostPush(vm.dataStack, item);
    vm.(deferredCost := vm.deferredCost + ItemCost(item), dataStack := vm.dataStack + [item])
  }

  /** push paid for at once. */
  function Push(vm: VM, item: bytes): (r: Res<VM>)
    ensures r.Go? <==> ItemCost(item) <= vm.runLimit
    ensures r.Go? ==> Weight(r.value) == Weight(vm) && SameFrame(r.value, vm) && r.value.dataStack == vm.dataStack + [item]
    ensures r.Go? && Ready(vm) ==> Ready(r.value)
    ensures r.Stop? ==> r.vm == vm && r.err == RunLimitExceeded
  {
    var vm :- ApplyCost(vm, ItemCost(item));
    StackCostPush(vm.dataStack, item);
    Go(vm.(dataStack := vm.dataStack + [item]))
  }

  function Pop(vm: VM, deferred: bool): (r: Res<(VM, bytes)>)
    ensures r.Go? <==> vm.dataStack != []
    ensures r.Go? ==> r.value.0.dataStack + [r.value.1] == vm.dataStack
    ensures r.Go? ==> Weight(r.value.0) == Weight(vm) && SameFrame(r.value.0, vm)
    ensures r.Go? && deferred ==> r.value.0.runLimit == vm.runLimit && r.value.0.deferredCost == vm.deferredCost - ItemCost(r.value.1)
    ensures r.Go? && Ready(vm) ==> Ready(r.value.0)
    ensures r.Stop? ==> r.vm == vm && r.err == DataStackUnderflow
  {
    if vm.dataStack == [] then Stop(vm, DataStackUnderflow)
    else
      var top := |vm.dataStack| - 1;
      var item := vm.dataStack[top];
      var vm := vm.(dataStack := vm.dataStack[..top]);
      if deferred then Go((vm.(deferredCost := vm.deferredCost - ItemCost(item)), item))
      else Go((vm.(runLimit := vm.runLimit + ItemCost(item)), item))
  }

  function PopInt64(vm: VM, deferred: bool): (r: Res<(VM, int64)>)
    ensures r.Go? <==> vm.dataStack != [] && |vm.dataStack[|vm.dataStack| - 1]| <= 8
    ensures r.Go? ==> r.value.0.dataStack == vm.dataStack[..|vm.dataStack| - 1]
    ensures r.Go? ==> Some(r.value.1) == AsInt64(vm.dataStack[|vm.dataStack| - 1])
    ensures r.Go? ==> Weight(r.value.0) == Weight(vm) && SameFrame(r.value.0, vm)
    ensures r.Go? && deferred ==> r.value.0.runLimit == vm.runLimit && r.value.0.deferredCost <= vm.deferredCost - 8
    ensures r.Go? && Ready(vm) ==> Ready(r.value.0)
    ensures r.Stop? ==> Weight(r.vm) == Weight(vm) && SameFrame(r.vm, vm) && (Ready(vm) ==> Ready(r.vm))
    ensures r.Stop? ==> r.err == DataStackUnderflow || r.err == BadValue
  {
    var (vm, item) :- Pop(vm, deferred);
    match AsInt64(item)
    case None => Stop(vm, BadValue)
    case Some(n) => Go((vm, n))
  }

  function Top(vm: VM): (r: Res<bytes>)
    ensures r.Go? <==> vm.dataStack != []
    ensures r.Go? ==> r.value == vm.dataStack[|vm.dataStack| - 1]
    ensures r.Stop? ==> r.vm == vm && r.err == DataStackUnderflow
  {
    if vm.dataStack == [] then Stop(vm, DataStackUnderflow) else Go(vm.dataStack[|vm.dataStack| - 1])
  }

  function PushBool(vm: VM, b: bool): VM
  {
    PushDeferred(vm, BoolBytes(b))
  }

  function PushInt64(vm: VM, n: int64): VM
  {
    PushDeferred(vm, Int64Bytes(n))
  }

  function FalseResult(vm: VM): bool
  {
    vm.dataStack == [] || !AsBool(vm.dataStack[|vm.dataStack| - 1])
  }

  // ---------------------------------------------------------------- what every opcode keeps

  /** A stopped operation owns no more than before it, whatever it had put off. */
  ghost predicate Stopped(vm: VM, w: VM)
  {
    w.runLimit >= 0 && w.deferredCost <= 0 && Weight(w) <= Weight(vm) && SameFrame(w, vm)
  }

  /**
   * The account of one opcode: it gives up at least one unit, and at least one for each item by which it
   * deepens the data stack.
   */
  ghost predicate Meter(vm: VM, r: Res<VM>)
  {
    match r
    case Go(w) =>
      && Weight(w) <= Weight(vm) - 1
      && Weight(w) + |w.dataStack| <= Weight(vm) + |vm.dataStack|
      && w.runLimit >= 0 && w.nextPC < TWO_32 && SameFrame(w, vm)
    case Stop(w, e) => Stopped(vm, w) && e != EndCharge
  }
}
