/** protocol/vm/stack.go: opcodes that rearrange the two stacks. */
module StackOps {
  import opened Basics
  import opened VmTypes
  import opened Checked
  import opened Machine

  function OpToAltStack(vm: VM): (r: Res<VM>)
    requires Ready(vm)
    ensures Meter(vm, r)
  {
    var vm :- ApplyCost(vm, 2);
    if vm.dataStack == [] then Stop(vm, DataStackUnderflow)
    else
      var top := |vm.dataStack| - 1;
      StackCostPush(vm.altStack, vm.dataStack[top]);
      Go(vm.(altStack := vm.altStack + [vm.dataStack[top]], dataStack := vm.dataStack[..top]))
  }

  function OpFromAltStack(vm: VM): (r: Res<VM>)
    requires Ready(vm)
    ensures Meter(vm, r)
  {
    var vm :- ApplyCost(vm, 2);
    if vm.altStack == [] then Stop(vm, AltStackUnderflow)
    else
      var top := |vm.altStack| - 1;
      StackCostPush(vm.dataStack, vm.altStack[top]);
      Go(vm.(dataStack := vm.dataStack + [vm.altStack[top]], altStack := vm.altStack[..top]))
  }

  function Op2Drop(vm: VM): (r: Res<VM>)
    requires Ready(vm)
    ensures Meter(vm, r)
  {
    hide Weight, Pop, ApplyCost;
    var vm :- ApplyCost(vm, 2);
    var (vm, _) :- Pop(vm, false);
    var (vm, _) :- Pop(vm, false);
    Go(vm)
  }

  /** The loop of nDup and op2Over: push the item n below the top, `times` times. */
  function CopyUp(vm: VM, n: nat, times: nat): (r: Res<VM>)
    requires Ready(vm) && 1 <= n <= |vm.dataStack|
    ensures r.Go? ==> Weight(r.value) == Weight(vm) && |r.value.dataStack| == |vm.dataStack| + times
    ensures r.Go? ==> Ready(r.value) && SameFrame(r.value, vm)
    ensures r.Stop? ==> Stopped(vm, r.vm) && r.err == RunLimitExceeded
    decreases times
  {
    hide Weight, Push;
    if times == 0 then Go(vm)
    else
      var vm :- Push(vm, vm.dataStack[|vm.dataStack| - n]);
      CopyUp(vm, n, times - 1)
  }

  function NDup(vm: VM, n: nat): (r: Res<VM>)
    requires Ready(vm) && n >= 1
    ensures Meter(vm, r)
  {
    hide Weight, ApplyCost, CopyUp;
    var vm :- ApplyCost(vm, n);
    if |vm.dataStack| < n then Stop(vm, DataStackUnderflow) else CopyUp(vm, n, n)
  }

  function Op2Over(vm: VM): (r: Res<VM>)
    requires Ready(vm)
    ensures Meter(vm, r)
  {
    hide Weight, ApplyCost, CopyUp;
    var vm :- ApplyCost(vm, 2);
    if |vm.dataStack| < 4 then Stop(vm, DataStackUnderflow) else CopyUp(vm, 4, 2)
  }

  /** The stack cost does not depend on the order of the blocks. */
  lemma {:induction false} StackCostSwapped(s: seq<bytes>, i: nat, j: nat)
    requires i <= j <= |s|
    ensures StackCost(s[..i] + s[j..] + s[i..j]) == StackCost(s)
  {
    hide StackCost;
    StackCostConcat(s[..i] + s[j..], s[i..j]);
    StackCostConcat(s[..i], s[j..]);
    StackCostSplit(s, j);
    StackCostSplit(s[..j], i);
    assert s[..j][..i] == s[..i] && s[..j][i..] == s[i..j];
  }

  /** Swap the blocks s[i..j] and s[j..]: 2ROT, 2SWAP, ROT, ROLL and SWAP each end with this. */
  function SwapBlocks(vm: VM, i: nat, j: nat): (w: VM)
    requires i <= j <= |vm.dataStack|
    ensures Weight(w) == Weight(vm) && SameFrame(w, vm)
    ensures |w.dataStack| == |vm.dataStack| && w.runLimit == vm.runLimit && w.nextPC == vm.nextPC
  {
    StackCostSwapped(vm.dataStack, i, j);
    vm.(dataStack := vm.dataStack[..i] + vm.dataStack[j..] + vm.dataStack[i..j])
  }

  function Op2Rot(vm: VM): (r: Res<VM>)
    requires Ready(vm)
    ensures Meter(vm, r)
  {
    hide Weight, ApplyCost, SwapBlocks;
    var vm :- ApplyCost(vm, 2);
    var l := |vm.dataStack|;
    if l < 6 then Stop(vm, DataStackUnderflow) else Go(SwapBlocks(vm, l - 6, l - 4))
  }

  function Op2Swap(vm: VM): (r: Res<VM>)
    requires Ready(vm)
    ensures Meter(vm, r)
  {
    hide Weight, ApplyCost, SwapBlocks;
    var vm :- ApplyCost(vm, 2);
    var l := |vm.dataStack|;
    if l < 4 then Stop(vm, DataStackUnderflow) else Go(SwapBlocks(vm, l - 4, l - 2))
  }

  function OpSwap(vm: VM): (r: Res<VM>)
    requires Ready(vm)
    ensures Meter(vm, r)
  {
    hide Weight, ApplyCost, SwapBlocks;
    var vm :- ApplyCost(vm, 1);
    var l := |vm.dataStack|;
    if l < 2 then Stop(vm, DataStackUnderflow) else Go(SwapBlocks(vm, l - 2, l - 1))
  }

  function Rot(vm: VM, n: int): (r: Res<VM>)
    requires Ready(vm)
    ensures r.Go? ==> Weight(r.value) == Weight(vm) && |r.value.dataStack| == |vm.dataStack|
    ensures r.Go? ==> SameFrame(r.value, vm) && r.value.runLimit == vm.runLimit && r.value.nextPC == vm.nextPC
    ensures r.Stop? ==> r.vm == vm && (r.err == BadValue || r.err == DataStackUnderflow)
  {
    hide Weight, SwapBlocks;
    if n < 1 then Stop(vm, BadValue)
    else if |vm.dataStack| < n then Stop(vm, DataStackUnderflow)
    else
      var index := |vm.dataStack| - n;
      Go(SwapBlocks(vm, index, index + 1))
  }

  function OpRot(vm: VM): (r: Res<VM>)
    requires Ready(vm)
    ensures Meter(vm, r)
  {
    hide Weight, ApplyCost, Rot;
    var vm :- ApplyCost(vm, 2);
    Rot(vm, 3)
  }

  function OpRoll(vm: VM): (r: Res<VM>)
    requires Ready(vm)
    ensures Meter(vm, r)
  {
    hide Weight, ApplyCost, PopInt64, AsInt64, Rot;
    var vm :- ApplyCost(vm, 2);
    var (vm, n) :- PopInt64(vm, false);
    if n < 0 then Stop(vm, BadValue)
    else
      match AddInt64(n, 1)
      case None => Stop(vm, BadValue)
      case Some(off) => Rot(vm, off)
  }

  function OpPick(vm: VM): (r: Res<VM>)
    requires Ready(vm)
    ensures Meter(vm, r)
  {
    hide Weight, ApplyCost, PopInt64, AsInt64, Push;
    var vm :- ApplyCost(vm, 2);
    var (vm, n) :- PopInt64(vm, false);
    if n < 0 then Stop(vm, BadValue)
    else
      match AddInt64(n, 1)
      case None => Stop(vm, BadValue)
      case Some(off) =>
        if |vm.dataStack| < off then Stop(vm, DataStackUnderflow)
        else Push(vm, vm.dataStack[|vm.dataStack| - off])
  }

  function OpIfDup(vm: VM): (r: Res<VM>)
    requires Ready(vm)
    ensures Meter(vm, r)
  {
    hide Weight, ApplyCost, Push;
    var vm :- ApplyCost(vm, 1);
    var item :- Top(vm);
    if AsBool(item) then Push(vm, item) else Go(vm)
  }

  function OpDepth(vm: VM): (r: Res<VM>)
    requires Ready(vm)
    ensures Meter(vm, r)
  {
    hide Weight, ApplyCost, Push;
    var vm :- ApplyCost(vm, 1);
    Push(vm, Int64Bytes(Signed(|vm.dataStack| % TWO_64)))
  }

  function OpDrop(vm: VM): (r: Res<VM>)
    requires Ready(vm)
    ensures Meter(vm, r)
  {
    hide Weight, ApplyCost, Pop;
    var vm :- ApplyCost(vm, 1);
    var (vm, _) :- Pop(vm, false);
    Go(vm)
  }

  /** NIP lifts the top item off without accounting, drops the one below it, and puts the top back. */
  function OpNip(vm: VM): (r: Res<VM>)
    requires Ready(vm)
    ensures Meter(vm, r)
  {
    var vm :- ApplyCost(vm, 1);
    var top :- Top(vm);
    var lifted := vm.(dataStack := vm.dataStack[..|vm.dataStack| - 1]);
    var (vm, _) :- Pop(lifted, false);
    StackCostPush(vm.dataStack, top);
    Go(vm.(dataStack := vm.dataStack + [top]))
  }

  function OpOver(vm: VM): (r: Res<VM>)
    requires Ready(vm)
    ensures Meter(vm, r)
  {
    hide Weight, ApplyCost, Push;
    var vm :- ApplyCost(vm, 1);
    if |vm.dataStack| < 2 then Stop(vm, DataStackUnderflow)
    else Push(vm, vm.dataStack[|vm.dataStack| - 2])
  }

  /** TUCK lifts the top two items off without accounting, pushes the top one, and puts the two back. */
  function OpTuck(vm: VM): (r: Res<VM>)
    requires Ready(vm)
    ensures Meter(vm, r)
  {
    var vm :- ApplyCost(vm, 1);
    var l := |vm.dataStack|;
    if l < 2 then Stop(vm, DataStackUnderflow)
    else
      var top2 := vm.dataStack[l - 2..];
      StackCostSplit(vm.dataStack, l - 2);
      var vm :- Push(vm.(dataStack := vm.dataStack[..l - 2]), top2[1]);
      StackCostConcat(vm.dataStack, top2);
      Go(vm.(dataStack := vm.dataStack + top2))
  }
}
