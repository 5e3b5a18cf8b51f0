/** CHECKPREDICATE: exactly which machine it starts, with what, and when it is refused. */
module PredicateEffects {
  import opened Basics
  import opened Machine
  import opened Interpreter
  import opened Effects
  import opened DataEffects

  /** What opening a predicate comes to: an error, or a program with its own run limit and the number of items handed to it. */
  datatype Opening =
    | NotOpened(err: VmError)
    | Opened(program: bytes, limit: nat, items: nat)

  /** the items, their number, the program, its run limit; a limit of zero lends all that is left after the charge of 256 */
  function OpeningOf(vm: VM): (o: Opening)
    ensures o.Opened? ==> o.items + 3 <= |vm.dataStack|
  {
    var s := vm.dataStack;
    if vm.runLimit < 256 then NotOpened(RunLimitExceeded)
    else if |s| < 1 then NotOpened(DataStackUnderflow)
    else if !IsInt(At(s, 0)) then NotOpened(BadValue)
    else if |s| < 3 then NotOpened(DataStackUnderflow)
    else if !IsInt(At(s, 2)) then NotOpened(BadValue)
    else
      var limit, n := IntOf(At(s, 0)), IntOf(At(s, 2));
      if limit < 0 then NotOpened(BadValue)
      else if n > |s| - 3 then NotOpened(DataStackUnderflow)
      else if limit > vm.runLimit - 256 then NotOpened(RunLimitExceeded)
      else if n < 0 then NotOpened(Unexpected)
      else Opened(At(s, 1), if limit == 0 then vm.runLimit - 256 else limit, n)
  }

  /** The machine after the charge, most of which comes back at the end of the step. */
  function Charged(vm: VM): VM
  {
    vm.(runLimit := vm.runLimit - 256, deferredCost := vm.deferredCost - 192)
  }

  lemma {:induction false} ChargeIs(vm: VM)
    ensures vm.runLimit < 256 ==> ApplyCost(vm, 256) == Stop(vm, RunLimitExceeded)
    ensures vm.runLimit >= 256 ==> ApplyCost(vm, 256).Go? && DeferCost(ApplyCost(vm, 256).value, -256 + 64) == Charged(vm)
  {
    hide Weight;
  }

  lemma {:induction false} OperandsPopped(vm: VM)
    requires Ready(vm)
    ensures var s, r := vm.dataStack, PopOperands(vm);
      if vm.runLimit < 256 then r.Stop? && r.err == RunLimitExceeded
      else if |s| < 1 then r.Stop? && r.err == DataStackUnderflow
      else if !IsInt(At(s, 0)) then r.Stop? && r.err == BadValue
      else if |s| < 3 then r.Stop? && r.err == DataStackUnderflow
      else if !IsInt(At(s, 2)) then r.Stop? && r.err == BadValue
      else r == Go((Without(Charged(vm), 3), IntOf(At(s, 0)), At(s, 1), IntOf(At(s, 2))))
  {
    hide At, SameFrame, Stopped, Ready, Weight, Owned, Pop, PopInt64, IsInt, IntOf, Without, Popped, ApplyCost, DeferCost;
    var s, v := vm.dataStack, Charged(vm);
    ChargeIs(vm);
    PopFirst(v);
    PopNext(v, 0);
    if |s| >= 1 { PopNext(v, 1); }
    if |s| >= 2 { PopNext(v, 2); }
  }

  /**
   * CHECKPREDICATE opens a machine at the start of the given program, one level deeper, with the given limit and the
   * items named, in their order, on an otherwise fresh stack; the parent keeps the rest of both.
   */
  lemma {:induction false} PredicateOpens(vm: VM)
    requires Ready(vm)
    ensures var r := OpenPredicate(vm);
      match OpeningOf(vm)
      case NotOpened(err) => r.Stop? && r.err == err
      case Opened(program, limit, items) =>
        && r.Go?
        && var (parent, child) := r.value;
           var s, l := vm.dataStack, |vm.dataStack|;
           && child == VM(program, 0, 0, limit, 0, false, [], vm.depth + 1, s[l - 3 - items..l - 3], [], 0)
           && parent.dataStack == s[..l - 3 - items] && parent.altStack == vm.altStack
           && parent.runLimit == vm.runLimit - 256 - limit && parent.nextPC == vm.nextPC
           && Weight(parent) == Weight(vm) - 64 - limit - StackCost(s[l - 3 - items..l - 3])
  {
    hide At, Weight, PopOperands, IsInt, IntOf, Popped, StackCost, PriceOf;
    OperandsPopped(vm);
    var s, l := vm.dataStack, |vm.dataStack|;
    match OpeningOf(vm)
    case NotOpened(err) =>
    case Opened(program, limit, items) =>
      assert Under(s, 3)[..l - 3 - items] == s[..l - 3 - items];
      assert Under(s, 3)[l - 3 - items..] == s[l - 3 - items..l - 3];
      OwnedByChild(OpenPredicate(vm).value.1);
  }

  lemma {:induction false} OwnedByChild(child: VM)
    ensures child.altStack == [] ==> Owned(child) == child.runLimit + StackCost(child.dataStack)
  {
    assert StackCost([]) == 0;
  }
}
