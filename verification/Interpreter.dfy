/**
 * protocol/vm/vm.go and control.go: dispatch, the step, nested machines and the run.
 *
 * A run need not end, so Run takes the number of steps its caller waits for and may come back unfinished. The
 * module Outcomes says what a run comes to without that number.
 */
module Interpreter {
  import opened Basics
  import opened VmTypes
  import opened Opcodes
  import opened Machine
  import opened Programs
  import opened DataOps
  import opened StackOps
  import opened CryptoOps

  type uint64 = n: int | 0 <= n < TWO_64

  datatype Env = Env(
    vmVersion: uint64,
    code: bytes,
    arguments: seq<bytes>,
    entryID: bytes,
    txVersion: Option<uint64>,
    blockHash: Option<bytes>,
    blockTimeMS: Option<uint64>,
    nextConsensusProgram: Option<bytes>,
    assetID: Option<bytes>,
    amount: Option<uint64>,
    minTimeMS: Option<uint64>,
    maxTimeMS: Option<uint64>,
    entryData: Option<bytes>,
    txData: Option<bytes>,
    destPos: Option<uint64>,
    anchorID: Option<bytes>,
    spentOutputID: Option<bytes>,
    txSigHash: Option<bytes>,
    checkOutput: Option<OutputChecker>,
    crypto: Crypto)

  function AsItem(n: Option<uint64>): Option<bytes>
  {
    if n.None? then None else Some(Int64Bytes(Signed(n.value)))
  }

  /** MAXTIME reads zero and everything above the signed range as the largest time. */
  function MaxTimeItem(n: Option<uint64>): Option<bytes>
  {
    if n.None? then None
    else if n.value == 0 || n.value > MAX_INT64 then Some(Int64Bytes(MAX_INT64))
    else Some(Int64Bytes(n.value))
  }

  // ---------------------------------------------------------------- control.go

  function OpVerify(vm: VM): (r: Res<VM>)
    requires Ready(vm)
    ensures Meter(vm, r)
  {
    hide Weight, ApplyCost, Pop;
    var vm :- ApplyCost(vm, 1);
    var (vm, p) :- Pop(vm, true);
    if AsBool(p) then Go(vm) else Stop(vm, VerifyFailed)
  }

  function OpFail(vm: VM): (r: Res<VM>)
    requires Ready(vm)
    ensures Meter(vm, r)
  {
    var vm :- ApplyCost(vm, 1);
    Stop(vm, Return)
  }

  function OpJump(vm: VM): (r: Res<VM>)
    requires Ready(vm) && |vm.data| == 4
    ensures Meter(vm, r)
    ensures r.Go? <==> vm.runLimit >= 1
    ensures r.Go? ==> r.value.nextPC == Uint(vm.data) && r.value.dataStack == vm.dataStack
  {
    var vm :- ApplyCost(vm, 1);
    UintBelow32(vm.data);
    Go(vm.(nextPC := Uint(vm.data)))
  }

  function OpJumpIf(vm: VM): (r: Res<VM>)
    requires Ready(vm) && |vm.data| == 4
    ensures Meter(vm, r)
    ensures r.Go? <==> vm.runLimit >= 1 && vm.dataStack != []
    ensures r.Go? ==> r.value.dataStack == vm.dataStack[..|vm.dataStack| - 1]
    ensures r.Go? ==> r.value.nextPC == if AsBool(vm.dataStack[|vm.dataStack| - 1]) then Uint(vm.data) else vm.nextPC
  {
    hide AsBool, StackCost, Uint;
    var vm :- ApplyCost(vm, 1);
    var (vm, p) :- Pop(vm, true);
    UintBelow32(vm.data);
    if AsBool(p) then Go(vm.(nextPC := Uint(vm.data))) else Go(vm)
  }

  // ---------------------------------------------------------------- dispatch

  function ExecStack(vm: VM, op: Op): (r: Res<VM>)
    requires Ready(vm) && OP_TOALTSTACK <= op <= OP_TUCK
    ensures Meter(vm, r)
  {
    hide Meter, Ready;
    if op == OP_TOALTSTACK then OpToAltStack(vm)
    else if op == OP_FROMALTSTACK then OpFromAltStack(vm)
    else if op == OP_2DROP then Op2Drop(vm)
    else if op == OP_2DUP then NDup(vm, 2)
    else if op == OP_3DUP then NDup(vm, 3)
    else if op == OP_2OVER then Op2Over(vm)
    else if op == OP_2ROT then Op2Rot(vm)
    else if op == OP_2SWAP then Op2Swap(vm)
    else if op == OP_IFDUP then OpIfDup(vm)
    else if op == OP_DEPTH then OpDepth(vm)
    else if op == OP_DROP then OpDrop(vm)
    else if op == OP_DUP then NDup(vm, 1)
    else if op == OP_NIP then OpNip(vm)
    else if op == OP_OVER then OpOver(vm)
    else if op == OP_PICK then OpPick(vm)
    else if op == OP_ROLL then OpRoll(vm)
    else if op == OP_ROT then OpRot(vm)
    else if op == OP_SWAP then OpSwap(vm)
    else OpTuck(vm)
  }

  function ExecBytes(vm: VM, op: Op): (r: Res<VM>)
    requires Ready(vm) && OP_CAT <= op <= OP_CATPUSHDATA
    ensures Meter(vm, r)
  {
    hide Meter, Ready;
    if op == OP_CAT then OpCat(vm, false)
    else if op == OP_SUBSTR then OpSubstr(vm)
    else if op == OP_LEFT then OpLeftRight(vm, true)
    else if op == OP_RIGHT then OpLeftRight(vm, false)
    else if op == OP_SIZE then OpSize(vm)
    else if op == OP_INVERT then OpInvert(vm)
    else if op == OP_AND then OpAnd(vm)
    else if op == OP_OR then OpOr(vm, false)
    else if op == OP_XOR then OpOr(vm, true)
    else if op == OP_EQUAL then OpEqual(vm)
    else if op == OP_EQUALVERIFY then OpEqualVerify(vm)
    else OpCat(vm, true)
  }

  function ExecNumeric(vm: VM, op: Op): (r: Res<VM>)
    requires Ready(vm) && OP_1ADD <= op <= OP_WITHIN
    ensures Meter(vm, r)
  {
    hide Meter, Ready;
    if op <= OP_0NOTEQUAL then OpUnary(vm, op)
    else if op == OP_LSHIFT then OpLshift(vm)
    else if op == OP_BOOLAND then OpBoolean(vm, true)
    else if op == OP_BOOLOR then OpBoolean(vm, false)
    else if op == OP_NUMEQUALVERIFY then OpNumEqualVerify(vm)
    else if op == OP_WITHIN then OpWithin(vm)
    else OpBinary(vm, op)
  }

  function ExecContext(env: Env, vm: VM, op: Op): (r: Res<VM>)
    requires Ready(vm) && OP_CHECKOUTPUT <= op <= OP_BLOCKTIME
    ensures Meter(vm, r)
  {
    hide Meter, Ready;
    if op == OP_CHECKOUTPUT then OpCheckOutput(vm, env.checkOutput)
    else if op == OP_ASSET then OpContext(vm, env.assetID)
    else if op == OP_AMOUNT then OpContext(vm, AsItem(env.amount))
    else if op == OP_PROGRAM then OpContext(vm, Some(env.code))
    else if op == OP_MINTIME then OpContext(vm, AsItem(env.minTimeMS))
    else if op == OP_MAXTIME then OpContext(vm, MaxTimeItem(env.maxTimeMS))
    else if op == OP_TXDATA then OpContext(vm, env.txData)
    else if op == OP_ENTRYDATA then OpContext(vm, env.entryData)
    else if op == OP_INDEX then OpContext(vm, AsItem(env.destPos))
    else if op == OP_ENTRYID then OpContext(vm, Some(env.entryID))
    else if op == OP_OUTPUTID then OpContext(vm, env.spentOutputID)
    else if op == OP_NONCE then OpContext(vm, env.anchorID)
    else if op == OP_NEXTPROGRAM then OpContext(vm, env.nextConsensusProgram)
    else OpContext(vm, AsItem(env.blockTimeMS))
  }

  function ExecControl(vm: VM, op: Op): (r: Res<VM>)
    requires Ready(vm) && op < OP_TOALTSTACK && !IsExpansion(op)
    requires op == OP_JUMP || op == OP_JUMPIF ==> |vm.data| == 4
    ensures Meter(vm, r)
  {
    hide Meter, Ready;
    if op == OP_FALSE then OpPush(vm, [])
    else if op <= OP_PUSHDATA4 || OP_1 <= op <= OP_16 then OpPush(vm, vm.data)
    else if op == OP_1NEGATE then OpPush(vm, Int64Bytes(-1))
    else if op == OP_NOP then OpNop(vm)
    else if op == OP_JUMP then OpJump(vm)
    else if op == OP_JUMPIF then OpJumpIf(vm)
    else if op == OP_VERIFY then OpVerify(vm)
    else OpFail(vm)
  }

  /** Every operation but CHECKPREDICATE. */
  function ExecLeaf(env: Env, vm: VM, op: Op): (r: Res<VM>)
    requires Ready(vm) && !IsExpansion(op) && op != OP_CHECKPREDICATE
    requires op == OP_JUMP || op == OP_JUMPIF ==> |vm.data| == 4
    ensures MultiSigMeter(vm, r)
    ensures op != OP_CHECKMULTISIG ==> Meter(vm, r)
  {
    hide Meter, Ready;
    if op < OP_TOALTSTACK then ExecControl(vm, op)
    else if op <= OP_TUCK then ExecStack(vm, op)
    else if op <= OP_CATPUSHDATA then ExecBytes(vm, op)
    else if op <= OP_WITHIN then ExecNumeric(vm, op)
    else if op == OP_SHA256 then DoHash(vm, env.crypto.sha256)
    else if op == OP_SHA3 then DoHash(vm, env.crypto.sha3)
    else if op == OP_CHECKSIG then OpCheckSig(env.crypto, vm)
    else if op == OP_CHECKMULTISIG then OpCheckMultiSig(env.crypto, vm)
    else if op == OP_TXSIGHASH then OpTxSigHash(vm, env.txSigHash)
    else if op == OP_BLOCKHASH then OpBlockHash(vm, env.blockHash)
    else ExecContext(env, vm, op)
  }

  // ---------------------------------------------------------------- CHECKPREDICATE

  function Child(program: bytes, limit: int, depth: nat, stack: seq<bytes>): VM
  {
    VM(program, 0, 0, limit, 0, false, [], depth, stack, [], 0)
  }

  ghost predicate Popped(vm: VM, r: Res<(VM, int64, bytes, int64)>)
  {
    match r
    case Go(v) =>
      && Ready(v.0) && SameFrame(v.0, vm) && v.0.deferredCost <= -216
      && Weight(v.0) == Weight(vm) - 64 && |v.0.dataStack| == |vm.dataStack| - 3
    case Stop(w, e) => Stopped(vm, w) && e != EndCharge
  }

  /** The operands of CHECKPREDICATE. 256 is charged, and all but 64 of it put back at the end of the step. */
  function PopOperands(vm: VM): (r: Res<(VM, int64, bytes, int64)>)
    requires Ready(vm)
    ensures Popped(vm, r)
  {
    hide Weight, Owned, ApplyCost, DeferCost, Pop, PopInt64, AsInt64;
    var vm :- ApplyCost(vm, 256);
    var vm := DeferCost(vm, -256 + 64);
    var (vm, limit) :- PopInt64(vm, true);
    var (vm, prog) :- Pop(vm, true);
    var (vm, n) :- PopInt64(vm, true);
    Go((vm, limit, prog, n))
  }

  /** The machine is split in two, a parent and a fresh child; `fee` of its weight and `items` of its stack are gone. */
  ghost predicate Split(vm: VM, fee: int, items: nat, r: Res<(VM, VM)>)
  {
    match r
    case Go((parent, child)) =>
      && Ready(parent) && SameFrame(parent, vm) && parent.deferredCost <= -216
      && child.runLimit >= 0 && child.steps == 0 && child.pc == 0
      && Weight(parent) + Owned(child) == Weight(vm) - fee
      && |parent.dataStack| + |child.dataStack| == |vm.dataStack| - items
    case Stop(w, e) => Stopped(vm, w) && e != EndCharge
  }

  /** The first half of CHECKPREDICATE: the limit and the arguments move to a fresh machine. */
  function OpenPredicate(vm: VM): (r: Res<(VM, VM)>)
    requires Ready(vm)
    ensures Split(vm, 64, 3, r)
  {
    hide Weight, Owned, PopOperands, SplitStack;
    var (vm, limit, prog, n) :- PopOperands(vm);
    if limit < 0 then Stop(vm, BadValue) else SplitStack(vm, limit, prog, n)
  }

  function SplitStack(vm: VM, limit: nat, prog: bytes, n: int): (r: Res<(VM, VM)>)
    requires Ready(vm) && vm.deferredCost <= -216
    ensures Split(vm, 0, 0, r)
  {
    hide ApplyCost;
    var l := |vm.dataStack|;
    if n > l then Stop(vm, DataStackUnderflow)
    else
      var limit := if limit == 0 then vm.runLimit else limit;
      var vm :- ApplyCost(vm, limit);
      // the slice beyond the end of the stack
      if n < 0 then Stop(vm, Unexpected)
      else
        StackCostSplit(vm.dataStack, l - n);
        Go((vm.(dataStack := vm.dataStack[..l - n]), Child(prog, limit, vm.depth + 1, vm.dataStack[l - n..])))
  }

  /** The second half: everything the child still owns comes back, and the verdict is pushed. */
  function Settle(parent: VM, child: VM, ok: bool): (w: VM)
    ensures Weight(w) == Weight(parent) + Owned(child)
    ensures w.dataStack == parent.dataStack + [BoolBytes(ok)]
    ensures w.runLimit == parent.runLimit && w.nextPC == parent.nextPC && w.steps == parent.steps + child.steps
    ensures SameFrame(w.(steps := parent.steps), parent)
  {
    var vm := DeferCost(parent, -child.runLimit);
    var vm := DeferCost(vm, 0 - StackCost(child.dataStack));
    var vm := DeferCost(vm, 0 - StackCost(child.altStack));
    PushBool(vm, ok).(steps := parent.steps + child.steps)
  }

  function Ended(r: Res<VM>): VM
  {
    if r.Go? then r.value else r.vm
  }

  /** A run that ends without error and with true on top. */
  predicate Succeeds(r: Res<VM>)
  {
    r.Go? && !FalseResult(r.value)
  }

  /** A child's panic unwinds its parents; every other end settles the account. */
  function Close(parent: VM, r: Res<VM>): Res<VM>
  {
    var end := Ended(r);
    if r.Stop? && r.err == Unexpected then Stop(parent.(steps := parent.steps + end.steps), Unexpected)
    else Go(Settle(parent, end, Succeeds(r)))
  }

  // ---------------------------------------------------------------- step and run

  /** What came of waiting for a number of steps. */
  datatype Waited = Unfinished | Done(r: Res<VM>)

  /** The machine at the start of an instruction. */
  function Begin(vm: VM, inst: Instruction): VM
  {
    vm.(nextPC := vm.pc + inst.len, deferredCost := 0, data := inst.data, steps := vm.steps + 1)
  }

  /** The charge at the end of the step. The item it pays for is already on the stack. */
  function EndStep(vm: VM): Res<VM>
  {
    if vm.deferredCost > vm.runLimit then Stop(vm, EndCharge)
    else Go(vm.(runLimit := vm.runLimit - vm.deferredCost, pc := vm.nextPC))
  }

  /** What an operation does, the charge at the end of its step and the next instruction. */
  function Finish(r: Res<VM>): Res<VM>
  {
    if r.Stop? then r else EndStep(r.value)
  }

  /** The machine can go on. */
  predicate CanRun(vm: VM)
  {
    vm.runLimit >= 0 && vm.pc < TWO_32
  }

  /** Whatever an operation does, paid for or not, the run limit is not negative and the frame stays. */
  ghost predicate Keeps(vm: VM, r: Res<VM>)
  {
    match r
    case Go(w) => w.runLimit >= 0 && w.nextPC < TWO_32 && SameFrame(w.(steps := vm.steps), vm)
    case Stop(w, e) => w.runLimit >= 0 && e != EndCharge
  }

  /** The same of a whole step. */
  ghost predicate StepKeeps(vm: VM, r: Res<VM>)
  {
    match r
    case Go(w) => CanRun(w) && w.program == vm.program && w.depth == vm.depth && w.expansionReserved == vm.expansionReserved
    case Stop(w, _) => w.runLimit >= 0
  }

  lemma {:induction false} CloseKeeps(vm: VM, parent: VM, r: Res<VM>)
    requires Ready(parent) && SameFrame(parent, vm)
    ensures Keeps(vm, Close(parent, r))
  {
    hide StackCost, AsBool;
  }

  /** CHECKPREDICATE. */
  function CheckPredicate(env: Env, vm: VM, k: nat): (f: Waited)
    requires Ready(vm) && vm.deferredCost == 0
    ensures f.Done? ==> Keeps(vm, f.r)
    decreases k, 1
  {
    hide Close, OpenPredicate, StackCost;
    var start := OpenPredicate(vm);
    if start.Stop? then Done(Stop(start.vm, start.err))
    else
      match Run(env, start.value.1, k)
      case Unfinished => Unfinished
      case Done(r) =>
        CloseKeeps(vm, start.value.0, r);
        Done(Close(start.value.0, r))
  }

  function Exec(env: Env, vm: VM, op: Op, k: nat): (f: Waited)
    requires Ready(vm) && vm.deferredCost == 0 && !IsExpansion(op)
    requires op == OP_JUMP || op == OP_JUMPIF ==> |vm.data| == 4
    ensures f.Done? ==> Keeps(vm, f.r)
    decreases k, 2
  {
    hide ExecLeaf, StackCost;
    if op == OP_CHECKPREDICATE then CheckPredicate(env, vm, k) else Done(ExecLeaf(env, vm, op))
  }

  function Step(env: Env, vm: VM, k: nat): (f: Waited)
    requires CanRun(vm)
    ensures f.Done? ==> StepKeeps(vm, f.r)
    decreases k, 3
  {
    hide ParseOp, Exec, StackCost;
    match ParseOp(vm.program, vm.pc)
    case Fail(e) => Done(Stop(vm, e))
    case Value(inst) =>
      if IsExpansion(inst.op) then Done(ExpansionStep(vm, inst))
      else
        match Exec(env, Begin(vm, inst), inst.op, k)
        case Unfinished => Unfinished
        case Done(r) => Done(Finish(r))
  }

  /** An opcode kept for later costs one unit, unless the transaction's version forbids it. */
  function ExpansionStep(vm: VM, inst: Instruction): Res<VM>
  {
    if vm.expansionReserved then Stop(vm, DisallowedOpcode)
    else ApplyCost(vm.(pc := vm.pc + inst.len, nextPC := vm.pc + inst.len, steps := vm.steps + 1), 1)
  }

  /** The run, for those who wait k steps. */
  function Run(env: Env, vm: VM, k: nat): (f: Waited)
    requires CanRun(vm)
    ensures f.Done? ==> Ended(f.r).runLimit >= 0
    decreases k, 0
  {
    hide Step, StackCost;
    if vm.pc >= |vm.program| % TWO_32 then Done(Go(vm))
    else if k == 0 then Unfinished
    else
      match Step(env, vm, k - 1)
      case Unfinished => Unfinished
      case Done(Stop(w, e)) => Done(Stop(w, e))
      case Done(Go(w)) => Run(env, w, k - 1)
  }
}
