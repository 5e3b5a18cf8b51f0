/** protocol/vm/ops.go: how a program is cut into instructions. */
module Programs {
  import opened Basics
  import opened VmTypes
  import opened Opcodes
  import opened Checked
  import opened Machine

  datatype Instruction = Instruction(op: Op, len: nat, data: bytes)

  /** An instruction of `len` bytes at pc whose data starts after `head` bytes. */
  function WithData(prog: bytes, pc: nat, op: Op, head: nat, len: nat): (r: Computed<Instruction>)
    requires pc < |prog| <= MAX_INT32 && 1 <= head <= len < TWO_32
    ensures r.Value? ==> r.value.op == op && r.value.len == len && pc + len <= |prog|
    ensures r.Value? ==> r.value.data == prog[pc + head..pc + len]
    ensures r.Fail? ==> r.err == Overflow || r.err == ShortProgram
  {
    match AddUint32(pc, len)
    case None => Fail(Overflow)
    case Some(end) => if end > |prog| then Fail(ShortProgram) else Value(Instruction(op, len, prog[pc + head..end]))
  }

  lemma {:induction false} UintBelow32(b: bytes)
    requires |b| <= 4
    ensures Uint(b) < TWO_32
    ensures |b| <= 2 ==> Uint(b) < 0x1_0000
  {
    UintBound(b);
    Pow256Mono(|b|, 4);
    if |b| <= 2 { Pow256Mono(|b|, 2); }
    Pow256Eight();
  }

  /** ParseOp: the instruction at pc. */
  function ParseOp(prog: bytes, pc: nat): (r: Computed<Instruction>)
    requires pc < TWO_32
    ensures r.Value? ==> 1 <= r.value.len && pc + r.value.len <= |prog| <= MAX_INT32 && r.value.op == prog[pc]
    ensures r.Value? && (r.value.op == OP_JUMP || r.value.op == OP_JUMPIF) ==> |r.value.data| == 4
    ensures r.Fail? ==> r.err == LongProgram || r.err == Overflow || r.err == ShortProgram
  {
    hide Uint, WithData;
    var l := |prog|;
    if l > MAX_INT32 then Fail(LongProgram)
    else if pc >= l then Fail(ShortProgram)
    else
      var op := prog[pc];
      if OP_1 <= op <= OP_16 then Value(Instruction(op, 1, [op - OP_1 + 1]))
      else if OP_DATA_1 <= op <= OP_DATA_75 then WithData(prog, pc, op, 1, 1 + (op as int))
      else if op == OP_PUSHDATA1 then
        if pc == l - 1 then Fail(ShortProgram) else WithData(prog, pc, op, 2, 2 + (prog[pc + 1] as int))
      else if op == OP_PUSHDATA2 then
        if pc > l - 3 then Fail(ShortProgram)
        else
          UintBelow32(prog[pc + 1..pc + 3]);
          WithData(prog, pc, op, 3, 3 + Uint(prog[pc + 1..pc + 3]))
      else if op == OP_PUSHDATA4 then
        if pc > l - 5 then Fail(ShortProgram)
        else
          UintBelow32(prog[pc + 1..pc + 5]);
          match AddUint32(5, Uint(prog[pc + 1..pc + 5]))
          case None => Fail(Overflow)
          case Some(len) => WithData(prog, pc, op, 5, len)
      else if op == OP_JUMP || op == OP_JUMPIF then WithData(prog, pc, op, 1, 5)
      else Value(Instruction(op, 1, []))
  }
}
