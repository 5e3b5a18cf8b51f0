/** How the machine runs a program made by a Builder: item by item, when the run limit allows. */
module Straightline {
  import opened Basics
  import opened VmTypes
  import opened Opcodes
  import opened Machine
  import opened Programs
  import opened Assembly
  import opened DataOps
  import opened CryptoOps
  import StackOps
  import opened Interpreter
  import opened Outcomes

  /** The machine stands before the given items, and nothing comes after them. */
  ghost predicate Loaded(vm: VM, items: seq<Item>)
  {
    && |vm.program| <= MAX_INT32
    && vm.pc <= |vm.program|
    && vm.program[vm.pc..] == EncodeAll(items)
    && vm.runLimit >= 0
    && forall i :: 0 <= i < |items| ==> WellFormed(items[i])
  }

  lemma {:induction false} LoadedParses(vm: VM, items: seq<Item>)
    requires Loaded(vm, items) && items != []
    ensures vm.pc < |vm.program|
    ensures ParseOp(vm.program, vm.pc) == Value(Instr(items[0]))
    ensures vm.pc + Instr(items[0]).len <= |vm.program|
    ensures vm.program[vm.pc + Instr(items[0]).len..] == EncodeAll(items[1..])
  {
    hide ParseOp, Encode, Instr;
    var code := Encode(items[0]);
    var rest := vm.program[vm.pc..];
    assert rest == code + EncodeAll(items[1..]);
    assert |rest| == |vm.program| - vm.pc;
    ParseItem(items[0]);
    assert code[0..0 + |code|] == code;
    assert vm.program[vm.pc..vm.pc + |code|] == rest[..|code|] == code;
    ParseOpIsLocal(code, 0, vm.program, vm.pc);
    assert vm.program[vm.pc + |code|..] == rest[|code|..];
  }

  /** w is vm after its first item, with these stacks and this run limit. */
  ghost predicate Moved(env: Env, vm: VM, items: seq<Item>, w: VM, stack: seq<bytes>, alt: seq<bytes>, limit: int)
  {
    && Loaded(vm, items) && items != [] && Loaded(w, items[1..])
    && w.dataStack == stack && w.altStack == alt && w.runLimit == limit
    && w.expansionReserved == vm.expansionReserved && w.depth == vm.depth
    && Outcome(env, vm) == Outcome(env, w)
  }

  /** The machine as it begins the first item. */
  function Begun(vm: VM, item: Item): VM
  {
    Begin(vm, Instr(item))
  }

  predicate Executable(item: Item)
  {
    !IsExpansion(Instr(item).op)
  }

  lemma {:induction false} ItemIsNotJump(item: Item)
    requires WellFormed(item)
    ensures Instr(item).op != OP_JUMP && Instr(item).op != OP_JUMPIF
  {
    hide PushdataBytes, Int64Bytes;
  }

  /** A successful operation that keeps the next pc and can pay for itself is one step of the run. */
  lemma {:induction false} Advance(env: Env, vm: VM, items: seq<Item>, done: VM) returns (w: VM)
    requires Loaded(vm, items) && items != [] && Executable(items[0])
    requires Instr(items[0]).op != OP_JUMP && Instr(items[0]).op != OP_JUMPIF && vm.pc + Instr(items[0]).len < TWO_32
    requires ExecOutcome(env, Begun(vm, items[0]), Instr(items[0]).op) == Some(Go(done))
    requires done.nextPC == Begun(vm, items[0]).nextPC && done.deferredCost <= done.runLimit
    requires done.program == vm.program && done.depth == vm.depth && done.expansionReserved == vm.expansionReserved
    ensures Moved(env, vm, items, w, done.dataStack, done.altStack, done.runLimit - done.deferredCost)
  {
    hide ParseOp, ExecOutcome, StackCost, Instr, EncodeAll, WellFormed, Outcome;
    LoadedParses(vm, items);
    OutcomeUnfolds(env, vm);
    w := done.(runLimit := done.runLimit - done.deferredCost, pc := done.nextPC);
    assert StepOutcome(env, vm) == Some(Go(w));
  }

  /** A failing operation ends the run. */
  lemma {:induction false} Halt(env: Env, vm: VM, items: seq<Item>)
    requires Loaded(vm, items) && items != [] && Executable(items[0])
    requires Instr(items[0]).op != OP_JUMP && Instr(items[0]).op != OP_JUMPIF && vm.pc + Instr(items[0]).len < TWO_32
    requires var o := ExecOutcome(env, Begun(vm, items[0]), Instr(items[0]).op); o.Some? && Finish(o.value).Stop?
    ensures Fails(env, vm)
  {
    hide ParseOp, ExecOutcome, StackCost, Instr, EncodeAll, WellFormed, EndStep, Outcome;
    LoadedParses(vm, items);
    OutcomeUnfolds(env, vm);
    assert StepOutcome(env, vm).value.Stop?;
  }

  lemma {:induction false} EmptyCode()
    ensures EncodeAll([]) == []
  {
  }

  lemma {:induction false} Finished(env: Env, vm: VM)
    requires Loaded(vm, [])
    ensures Outcome(env, vm) == Some(Go(vm))
  {
    hide Outcome, StepOutcome, EncodeAll;
    EmptyCode();
    OutcomeUnfolds(env, vm);
    assert |vm.program[vm.pc..]| == |vm.program| - vm.pc;
  }

  // ---------------------------------------------------------------- pushes

  lemma {:induction false} PushExec(env: Env, begun: VM, item: Item)
    requires !item.Plain? && Ready(begun) && begun.deferredCost == 0 && begun.data == Instr(item).data
    requires begun.runLimit >= 9 + |Instr(item).data|
    ensures Executable(item) && Instr(item).op != OP_CHECKPREDICATE
    ensures ExecLeaf(env, begun, Instr(item).op)
         == Go(begun.(runLimit := begun.runLimit - 9 - |begun.data|, dataStack := begun.dataStack + [begun.data]))
  {
    hide StackCost, Int64Bytes, PushdataBytes, ExecStack, ExecBytes, ExecNumeric, ExecContext, OpCheckMultiSig;
    IntBytesShort(item);
    var op := Instr(item).op;
    assert op <= OP_PUSHDATA4 || OP_1 <= op <= OP_16;
    assert ExecLeaf(env, begun, op) == ExecControl(begun, op);
    assert op == OP_FALSE ==> begun.data == [];
    assert ExecControl(begun, op) == OpPush(begun, begun.data);
  }

  lemma {:induction false} IntBytesShort(item: Item)
    ensures item.Int? ==> |Int64Bytes(item.n)| <= 8
  {
  }

  lemma {:induction false} RunPush(env: Env, vm: VM, items: seq<Item>) returns (w: VM)
    requires Loaded(vm, items) && items != [] && !items[0].Plain?
    requires vm.runLimit >= 9 + |Instr(items[0]).data|
    ensures var d := Instr(items[0]).data;
            Moved(env, vm, items, w, vm.dataStack + [d], vm.altStack, vm.runLimit - 9 - |d|)
  {
    hide ExecLeaf, EncodeAll, Instr, Outcome, Moved, WellFormed;
    LoadedParses(vm, items);
    ItemIsNotJump(items[0]);
    var begun := Begun(vm, items[0]);
    PushExec(env, begun, items[0]);
    w := Advance(env, vm, items,
      begun.(runLimit := begun.runLimit - 9 - |begun.data|, dataStack := begun.dataStack + [begun.data]));
  }

  /** A push that cannot be paid for ends the run. */
  lemma {:induction false} PushFails(env: Env, begun: VM, item: Item)
    requires !item.Plain? && Ready(begun) && begun.deferredCost == 0 && begun.data == Instr(item).data
    requires begun.runLimit < 9 + |Instr(item).data|
    ensures Executable(item) && Instr(item).op != OP_CHECKPREDICATE
    ensures ExecLeaf(env, begun, Instr(item).op).Stop?
  {
    hide StackCost, Int64Bytes, PushdataBytes, ExecStack, ExecBytes, ExecNumeric, ExecContext, OpCheckMultiSig;
    IntBytesShort(item);
    var op := Instr(item).op;
    assert op <= OP_PUSHDATA4 || OP_1 <= op <= OP_16;
    assert ExecLeaf(env, begun, op) == ExecControl(begun, op);
    assert op == OP_FALSE ==> begun.data == [];
    assert ExecControl(begun, op) == OpPush(begun, begun.data);
  }

  lemma {:induction false} RunPushFails(env: Env, vm: VM, items: seq<Item>)
    requires Loaded(vm, items) && items != [] && !items[0].Plain?
    requires vm.runLimit < 9 + |Instr(items[0]).data|
    ensures Fails(env, vm)
  {
    hide ExecLeaf, EncodeAll, Instr, Outcome, WellFormed;
    LoadedParses(vm, items);
    ItemIsNotJump(items[0]);
    PushFails(env, Begun(vm, items[0]), items[0]);
    Halt(env, vm, items);
  }

  // ---------------------------------------------------------------- plain operations

  /** The common frame: what the operation makes of the begun machine decides what the run does. */
  lemma {:induction false} RunPlain(env: Env, vm: VM, items: seq<Item>, op: Op, r: Res<VM>) returns (w: VM)
    requires Loaded(vm, items) && items != [] && items[0] == Plain(op) && !IsExpansion(op)
    requires vm.pc + 1 < TWO_32 && ExecOutcome(env, Begun(vm, Plain(op)), op) == Some(r)
    requires r.Go? ==> r.value.nextPC == vm.pc + 1 && r.value.program == vm.program
    requires r.Go? ==> r.value.depth == vm.depth && r.value.expansionReserved == vm.expansionReserved
    ensures r.Stop? ==> Fails(env, vm)
    ensures r.Go? && r.value.deferredCost > r.value.runLimit ==> Fails(env, vm)
    ensures r.Go? && r.value.deferredCost <= r.value.runLimit ==>
              Moved(env, vm, items, w, r.value.dataStack, r.value.altStack, r.value.runLimit - r.value.deferredCost)
  {
    hide ExecLeaf, EncodeAll, Moved, Loaded;
    PlainInstruction(op);
    ItemIsNotJump2(vm, items);
    w := vm;
    if r.Stop? || EndStep(r.value).Stop? {
      Halt(env, vm, items);
    } else {
      w := Advance(env, vm, items, r.value);
    }
  }

  lemma {:induction false} PlainInstruction(op: Op)
    ensures Instr(Plain(op)) == Instruction(op, 1, [])
  {
  }

  lemma {:induction false} ItemIsNotJump2(vm: VM, items: seq<Item>)
    requires Loaded(vm, items) && items != []
    ensures Instr(items[0]).op != OP_JUMP && Instr(items[0]).op != OP_JUMPIF
  {
    hide EncodeAll;
    ItemIsNotJump(items[0]);
  }

  /** A deferred pop of a known top item. */
  function Less(vm: VM, s: seq<bytes>, x: bytes): VM
  {
    vm.(dataStack := s, deferredCost := vm.deferredCost - 8 - |x|)
  }

  lemma {:induction false} PopTop(vm: VM, s: seq<bytes>, x: bytes)
    requires vm.dataStack == s + [x]
    ensures Pop(vm, true) == Go((Less(vm, s, x), x))
    ensures PopInt64(vm, true) == (match AsInt64(x) case None => Stop(Less(vm, s, x), BadValue) case Some(n) => Go((Less(vm, s, x), n)))
  {
    hide Weight, AsInt64;
    assert (s + [x])[..|s|] == s;
  }

  /** The operand of a step: begun with nothing deferred. */
  ghost predicate Fresh(vm: VM)
  {
    vm.runLimit >= 0 && vm.deferredCost == 0 && vm.nextPC < TWO_32
  }

  lemma {:induction false} VerifyExec(env: Env, vm: VM, s: seq<bytes>, x: bytes)
    requires Fresh(vm) && vm.dataStack == s + [x] && vm.runLimit >= 1
    ensures var r := ExecLeaf(env, vm, OP_VERIFY);
            if AsBool(x) then r == Go(Less(vm.(runLimit := vm.runLimit - 1), s, x)) else r.Stop?
  {
    hide Pop, StackCost, ExecStack, ExecBytes, ExecNumeric, ExecContext, OpCheckMultiSig, AsBool;
    PopTop(vm.(runLimit := vm.runLimit - 1), s, x);
    assert ExecLeaf(env, vm, OP_VERIFY) == ExecControl(vm, OP_VERIFY) == OpVerify(vm);
  }

  lemma {:induction false} RunVerify(env: Env, vm: VM, items: seq<Item>, s: seq<bytes>, x: bytes) returns (w: VM)
    requires Loaded(vm, items) && items != [] && items[0] == Plain(OP_VERIFY)
    requires vm.dataStack == s + [x] && vm.runLimit >= 1
    ensures AsBool(x) ==> Moved(env, vm, items, w, s, vm.altStack, vm.runLimit - 1 + 8 + |x|)
    ensures !AsBool(x) ==> Fails(env, vm)
  {
    hide ExecLeaf, EncodeAll, Moved, AsBool;
    var begun := Begun(vm, items[0]);
    VerifyExec(env, begun, s, x);
    w := RunPlain(env, vm, items, OP_VERIFY, ExecLeaf(env, begun, OP_VERIFY));
  }

  /** The context opcodes that built programs contain. */
  function Field(env: Env, op: Op): Option<bytes>
  {
    if op == OP_MINTIME then AsItem(env.minTimeMS)
    else if op == OP_MAXTIME then MaxTimeItem(env.maxTimeMS)
    else if op == OP_TXDATA then env.txData
    else if op == OP_ENTRYDATA then env.entryData
    else if op == OP_OUTPUTID then env.spentOutputID
    else if op == OP_ASSET then env.assetID
    else None
  }

  predicate HasField(op: Op)
  {
    op == OP_MINTIME || op == OP_MAXTIME || op == OP_TXDATA || op == OP_ENTRYDATA || op == OP_OUTPUTID
    || op == OP_ASSET
  }

  lemma {:induction false} FieldExec(env: Env, vm: VM, op: Op)
    requires Fresh(vm) && vm.runLimit >= 1 && HasField(op)
    ensures match Field(env, op)
            case None => ExecLeaf(env, vm, op).Stop?
            case Some(d) => ExecLeaf(env, vm, op) == Go(PushDeferred(vm.(runLimit := vm.runLimit - 1), d))
  {
    hide StackCost, ExecStack, ExecBytes, ExecNumeric, ExecControl, OpCheckMultiSig, Int64Bytes;
    assert ExecLeaf(env, vm, op) == ExecContext(env, vm, op) == OpContext(vm, Field(env, op));
  }

  lemma {:induction false} RunField(env: Env, vm: VM, items: seq<Item>, op: Op) returns (w: VM)
    requires Loaded(vm, items) && items != [] && items[0] == Plain(op) && HasField(op) && vm.runLimit >= 1
    ensures Field(env, op).None? ==> Fails(env, vm)
    ensures Field(env, op).Some? && 9 + |Field(env, op).value| > vm.runLimit ==> Fails(env, vm)
    ensures Field(env, op).Some? && 9 + |Field(env, op).value| <= vm.runLimit ==>
              Moved(env, vm, items, w, vm.dataStack + [Field(env, op).value], vm.altStack,
                    vm.runLimit - 9 - |Field(env, op).value|)
  {
    hide ExecLeaf, EncodeAll, Moved, Field;
    var begun := Begun(vm, items[0]);
    FieldExec(env, begun, op);
    w := RunPlain(env, vm, items, op, ExecLeaf(env, begun, op));
  }

  lemma {:induction false} DropExec(env: Env, vm: VM, s: seq<bytes>, x: bytes)
    requires Fresh(vm) && vm.dataStack == s + [x] && vm.runLimit >= 1
    ensures ExecLeaf(env, vm, OP_DROP) == Go(vm.(runLimit := vm.runLimit + 7 + |x|, dataStack := s))
  {
    hide StackCost, ExecControl, ExecBytes, ExecNumeric, ExecContext, OpCheckMultiSig;
    assert (s + [x])[..|s|] == s;
    assert ExecLeaf(env, vm, OP_DROP) == ExecStack(vm, OP_DROP) == StackOps.OpDrop(vm);
  }

  lemma {:induction false} RunDrop(env: Env, vm: VM, items: seq<Item>, s: seq<bytes>, x: bytes) returns (w: VM)
    requires Loaded(vm, items) && items != [] && items[0] == Plain(OP_DROP)
    requires vm.dataStack == s + [x] && vm.runLimit >= 1
    ensures Moved(env, vm, items, w, s, vm.altStack, vm.runLimit + 7 + |x|)
  {
    hide ExecLeaf, EncodeAll, Moved;
    var begun := Begun(vm, items[0]);
    DropExec(env, begun, s, x);
    w := RunPlain(env, vm, items, OP_DROP, ExecLeaf(env, begun, OP_DROP));
  }

  lemma {:induction false} EqualExec(env: Env, vm: VM, s: seq<bytes>, a: bytes, b: bytes)
    requires Fresh(vm) && vm.dataStack == s + [a] + [b]
    ensures var r := ExecLeaf(env, vm, OP_EQUAL);
            if vm.runLimit < 1 + Min(|a|, |b|) then r.Stop?
            else
              var popped := Less(Less(vm, s + [a], b), s, a);
              r == Go(PushBool(popped.(runLimit := vm.runLimit - 1 - Min(|a|, |b|)), a == b))
  {
    hide Pop, StackCost, ExecStack, ExecControl, ExecNumeric, ExecContext, OpCheckMultiSig;
    var vm1 := vm.(runLimit := vm.runLimit - 1);
    PopTop(vm1, s + [a], b);
    PopTop(Less(vm1, s + [a], b), s, a);
    assert ExecLeaf(env, vm, OP_EQUAL) == ExecBytes(vm, OP_EQUAL) == OpEqual(vm);
  }

  lemma {:induction false} RunEqual(env: Env, vm: VM, items: seq<Item>, s: seq<bytes>, a: bytes, b: bytes) returns (w: VM)
    requires Loaded(vm, items) && items != [] && items[0] == Plain(OP_EQUAL)
    requires vm.dataStack == s + [a] + [b]
    ensures vm.runLimit < 1 + Min(|a|, |b|) ==> Fails(env, vm)
    ensures vm.runLimit >= 1 + Min(|a|, |b|) ==>
              Moved(env, vm, items, w, s + [BoolBytes(a == b)], vm.altStack,
                    vm.runLimit + 7 + |a| + |b| - Min(|a|, |b|) - |BoolBytes(a == b)|)
  {
    hide ExecLeaf, EncodeAll, Moved;
    var begun := Begun(vm, items[0]);
    EqualExec(env, begun, s, a, b);
    w := RunPlain(env, vm, items, OP_EQUAL, ExecLeaf(env, begun, OP_EQUAL));
  }

  lemma {:induction false} CompareExec(env: Env, vm: VM, op: Op, s: seq<bytes>, a: bytes, b: bytes, x: int64, y: int64)
    requires Fresh(vm) && vm.dataStack == s + [a] + [b] && vm.runLimit >= 2
    requires op == OP_GREATERTHANOREQUAL || op == OP_LESSTHANOREQUAL
    requires AsInt64(a) == Some(x) && AsInt64(b) == Some(y)
    ensures ExecLeaf(env, vm, op)
         == Go(PushBool(Less(Less(vm.(runLimit := vm.runLimit - 2), s + [a], b), s, a),
                        if op == OP_GREATERTHANOREQUAL then x >= y else x <= y))
  {
    hide Pop, PopInt64, Weight, ExecStack, ExecControl, ExecBytes, ExecContext, OpCheckMultiSig, AsInt64, Int64Bytes;
    hide OpUnary, OpLshift, OpBoolean, OpNumEqualVerify, OpWithin, ModValue, UnaryValue;
    var vm1 := vm.(runLimit := vm.runLimit - 2);
    PopTop(vm1, s + [a], b);
    PopTop(Less(vm1, s + [a], b), s, a);
    assert ExecLeaf(env, vm, op) == ExecNumeric(vm, op) == OpBinary(vm, op);
  }

  lemma {:induction false} RunCompare(env: Env, vm: VM, items: seq<Item>, op: Op, s: seq<bytes>, a: bytes, b: bytes, x: int64, y: int64)
    returns (w: VM)
    requires Loaded(vm, items) && items != [] && items[0] == Plain(op)
    requires op == OP_GREATERTHANOREQUAL || op == OP_LESSTHANOREQUAL
    requires vm.dataStack == s + [a] + [b] && vm.runLimit >= 2
    requires AsInt64(a) == Some(x) && AsInt64(b) == Some(y)
    ensures var v := if op == OP_GREATERTHANOREQUAL then x >= y else x <= y;
            Moved(env, vm, items, w, s + [BoolBytes(v)], vm.altStack, vm.runLimit + 6 + |a| + |b| - |BoolBytes(v)|)
  {
    hide ExecLeaf, EncodeAll, Moved, AsInt64;
    var begun := Begun(vm, items[0]);
    CompareExec(env, begun, op, s, a, b, x, y);
    w := RunPlain(env, vm, items, op, ExecLeaf(env, begun, op));
  }

  lemma {:induction false} PopNaturalTop(vm: VM, s: seq<bytes>, x: bytes, n: nat)
    requires Ready(vm) && vm.dataStack == s + [x] && AsInt64(x) == Some(n)
    ensures PopNatural(vm) == Go((Less(vm, s, x), n))
    ensures Ready(Less(vm, s, x))
  {
    hide PopInt64, AsInt64, Weight;
    PopTop(vm, s, x);
  }

  /** The machine when CHECKOUTPUT has popped its six operands. */
  function SixLess(vm: VM, s: seq<bytes>, i: bytes, d: bytes, a: bytes, asset: bytes, v: bytes, code: bytes): VM
  {
    vm.(dataStack := s, deferredCost := vm.deferredCost - 48 - |i| - |d| - |a| - |asset| - |v| - |code|)
  }

  lemma {:induction false} OutputPops(vm: VM, check: Option<OutputChecker>, s: seq<bytes>, i: bytes, d: bytes, a: bytes, asset: bytes, v: bytes, code: bytes,
                                      index: nat, amount: nat, version: nat)
    requires Fresh(vm) && vm.runLimit >= 16 && vm.dataStack == s + [i] + [d] + [a] + [asset] + [v] + [code]
    requires AsInt64(i) == Some(index) && AsInt64(a) == Some(amount) && AsInt64(v) == Some(version)
    ensures var end := SixLess(vm.(runLimit := vm.runLimit - 16), s, i, d, a, asset, v, code);
            OpCheckOutput(vm, check) ==
            (match check
             case None => Stop(end, Context)
             case Some(f) =>
               match f(index, d, amount, asset, version, code, vm.expansionReserved)
               case None => Stop(end, CheckOutputError)
               case Some(ok) => Go(PushBool(end, ok)))
  {
    hide Pop, PopNatural, AsInt64, Weight, BoolBytes, PushDeferred;
    var v1 := vm.(runLimit := vm.runLimit - 16);
    PopTop(v1, s + [i] + [d] + [a] + [asset] + [v], code);
    var v2 := Less(v1, s + [i] + [d] + [a] + [asset] + [v], code);
    PopNaturalTop(v2, s + [i] + [d] + [a] + [asset], v, version);
    var v3 := Less(v2, s + [i] + [d] + [a] + [asset], v);
    PopTop(v3, s + [i] + [d] + [a], asset);
    var v4 := Less(v3, s + [i] + [d] + [a], asset);
    PopNaturalTop(v4, s + [i] + [d], a, amount);
    var v5 := Less(v4, s + [i] + [d], a);
    PopTop(v5, s + [i], d);
    var v6 := Less(v5, s + [i], d);
    PopNaturalTop(v6, s, i, index);
    assert Less(v6, s, i) == SixLess(v1, s, i, d, a, asset, v, code);
  }

  lemma {:induction false} OutputExec(env: Env, vm: VM)
    requires Fresh(vm)
    ensures ExecLeaf(env, vm, OP_CHECKOUTPUT) == OpCheckOutput(vm, env.checkOutput)
  {
    hide OpCheckOutput, ExecStack, ExecControl, ExecBytes, ExecNumeric, OpCheckMultiSig;
  }

  /** What the context says of an output: yes, no, or an error. */
  function OutputVerdict(env: Env, index: nat, d: bytes, amount: nat, asset: bytes, version: nat, code: bytes, expansion: bool): Option<bool>
  {
    if env.checkOutput.None? then None else env.checkOutput.value(index, d, amount, asset, version, code, expansion)
  }

  lemma {:induction false} RunCheckOutput(env: Env, vm: VM, items: seq<Item>, s: seq<bytes>, i: bytes, d: bytes, a: bytes, asset: bytes, v: bytes, code: bytes,
                                          index: nat, amount: nat, version: nat) returns (w: VM)
    requires Loaded(vm, items) && items != [] && items[0] == Plain(OP_CHECKOUTPUT)
    requires vm.runLimit >= 16 && vm.dataStack == s + [i] + [d] + [a] + [asset] + [v] + [code]
    requires AsInt64(i) == Some(index) && AsInt64(a) == Some(amount) && AsInt64(v) == Some(version)
    ensures var verdict := OutputVerdict(env, index, d, amount, asset, version, code, vm.expansionReserved);
            && (verdict.None? ==> Fails(env, vm))
            && (verdict.Some? ==>
                  Moved(env, vm, items, w, s + [BoolBytes(verdict.value)], vm.altStack,
                        vm.runLimit + 24 + |i| + |d| + |a| + |asset| + |v| + |code| - |BoolBytes(verdict.value)|))
  {
    hide ExecLeaf, EncodeAll, Moved, AsInt64, OpCheckOutput;
    var begun := Begun(vm, items[0]);
    OutputExec(env, begun);
    OutputPops(begun, env.checkOutput, s, i, d, a, asset, v, code, index, amount, version);
    w := RunPlain(env, vm, items, OP_CHECKOUTPUT, ExecLeaf(env, begun, OP_CHECKOUTPUT));
  }

  lemma {:induction false} TxSigHashExec(env: Env, vm: VM)
    requires Fresh(vm)
    ensures ExecLeaf(env, vm, OP_TXSIGHASH) == OpTxSigHash(vm, env.txSigHash)
  {
    hide OpTxSigHash, ExecStack, ExecControl, ExecBytes, ExecNumeric, OpCheckMultiSig, ExecContext;
  }

  lemma {:induction false} RunTxSigHash(env: Env, vm: VM, items: seq<Item>) returns (w: VM)
    requires Loaded(vm, items) && items != [] && items[0] == Plain(OP_TXSIGHASH) && vm.runLimit >= 256
    ensures env.txSigHash.None? ==> Fails(env, vm)
    ensures env.txSigHash.Some? && 264 + |env.txSigHash.value| > vm.runLimit ==> Fails(env, vm)
    ensures env.txSigHash.Some? && 264 + |env.txSigHash.value| <= vm.runLimit ==>
              Moved(env, vm, items, w, vm.dataStack + [env.txSigHash.value], vm.altStack,
                    vm.runLimit - 264 - |env.txSigHash.value|)
  {
    hide ExecLeaf, EncodeAll, Moved, StackCost;
    var begun := Begun(vm, items[0]);
    TxSigHashExec(env, begun);
    w := RunPlain(env, vm, items, OP_TXSIGHASH, ExecLeaf(env, begun, OP_TXSIGHASH));
  }
}
