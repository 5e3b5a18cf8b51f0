/** ParseOp in protocol/vm/ops.go is exactly the inverse of writing an instruction down. */
module Disassembly {
  import opened Basics
  import opened VmTypes
  import opened Opcodes
  import opened Machine
  import opened Programs

  /** The bytes of an instruction: the opcode, the length of its data where it needs one, and the data. */
  function Written(i: Instruction): (code: bytes)
    ensures |code| >= 1
  {
    if OP_DATA_1 <= i.op <= OP_DATA_75 || i.op == OP_JUMP || i.op == OP_JUMPIF then [i.op] + i.data
    else if i.op == OP_PUSHDATA1 then [i.op] + LittleEndian(|i.data|, 1) + i.data
    else if i.op == OP_PUSHDATA2 then [i.op] + LittleEndian(|i.data|, 2) + i.data
    else if i.op == OP_PUSHDATA4 then [i.op] + LittleEndian(|i.data|, 4) + i.data
    else [i.op]
  }

  /** The data goes with the opcode: a small number, as many bytes as the opcode says, at most what the length can say, or an address. */
  predicate Proper(i: Instruction)
  {
    && i.len == |Written(i)|
    && (if OP_1 <= i.op <= OP_16 then i.data == [i.op - OP_1 + 1]
        else if OP_DATA_1 <= i.op <= OP_DATA_75 then |i.data| == i.op
        else if i.op == OP_PUSHDATA1 then |i.data| < 0x100
        else if i.op == OP_PUSHDATA2 then |i.data| < 0x1_0000
        else if i.op == OP_PUSHDATA4 then |i.data| < TWO_32
        else if i.op == OP_JUMP || i.op == OP_JUMPIF then |i.data| == 4
        else i.data == [])
  }

  /** The instruction is written in the program at pc. */
  predicate WrittenAt(prog: bytes, pc: nat, i: Instruction)
  {
    pc + |Written(i)| <= |prog| && prog[pc..pc + |Written(i)|] == Written(i)
  }

  lemma {:induction false} LittleEndianUint(b: bytes)
    ensures LittleEndian(Uint(b), |b|) == b
  {
    if b != [] {
      LittleEndianUint(b[1..]);
      assert Uint(b) % 256 == b[0] && Uint(b) / 256 == Uint(b[1..]);
    }
  }

  /** The width of the length after a PUSHDATA opcode, and zero for the others. */
  function Width(op: Op): nat
  {
    if op == OP_PUSHDATA1 then 1 else if op == OP_PUSHDATA2 then 2 else if op == OP_PUSHDATA4 then 4 else 0
  }

  lemma {:induction false} Sized(n: nat, k: nat)
    requires (k == 1 && n < 0x100) || (k == 2 && n < 0x1_0000) || (k == 4 && n < TWO_32)
    ensures Uint(LittleEndian(n, k)) == n
  {
    Pow256Values();
    UintLittleEndian(n, k);
  }

  lemma {:induction false} Pow256Values()
    ensures Pow256(1) == 0x100 && Pow256(2) == 0x1_0000 && Pow256(4) == TWO_32
  {
    assert Pow256(0) == 1;
    assert Pow256(3) == 0x100_0000;
  }

  /** One byte as a length. */
  lemma {:induction false} OneByte(b: byte)
    ensures Uint([b]) == b
  {
    assert [b][1..] == [];
  }

  /** What is parsed for a PUSHDATA opcode, by the width of its length. */
  lemma {:induction false} ParsePushdata(prog: bytes, pc: nat)
    requires pc < |prog| <= MAX_INT32 && Width(prog[pc]) > 0
    ensures var w := Width(prog[pc]);
      ParseOp(prog, pc) ==
        if pc + 1 + w > |prog| then Fail(ShortProgram)
        else
          var n := Uint(prog[pc + 1..pc + 1 + w]);
          if pc + 1 + w + n >= TWO_32 then Fail(Overflow)
          else if pc + 1 + w + n > |prog| then Fail(ShortProgram)
          else Value(Instruction(prog[pc], 1 + w + n, prog[pc + 1 + w..pc + 1 + w + n]))
  {
    hide Uint;
    var w := Width(prog[pc]);
    if pc + 1 + w <= |prog| {
      UintBelow32(prog[pc + 1..pc + 1 + w]);
      if w == 1 {
        assert prog[pc + 1..pc + 2] == [prog[pc + 1]];
        OneByte(prog[pc + 1]);
      }
    }
  }

  lemma {:induction false} PushdataExact(prog: bytes, pc: nat, i: Instruction)
    requires pc < |prog| <= MAX_INT32 && Width(prog[pc]) > 0
    ensures ParseOp(prog, pc) == Value(i) <==> Proper(i) && WrittenAt(prog, pc, i)
  {
    hide ParseOp, Uint, LittleEndian;
    ParsePushdata(prog, pc);
    if ParseOp(prog, pc) == Value(i) { PushdataBack(prog, pc, i); }
    if Proper(i) && WrittenAt(prog, pc, i) { PushdataThere(prog, pc, i); }
  }

  lemma {:induction false} PushdataBack(prog: bytes, pc: nat, i: Instruction)
    requires pc < |prog| <= MAX_INT32 && Width(prog[pc]) > 0 && ParseOp(prog, pc) == Value(i)
    ensures Proper(i) && WrittenAt(prog, pc, i)
  {
    hide ParseOp, Uint, LittleEndian, Pow256;
    ParsePushdata(prog, pc);
    var w := Width(prog[pc]);
    var size := prog[pc + 1..pc + 1 + w];
    UintBound(size);
    Pow256Values();
    LittleEndianUint(size);
    assert prog[pc..pc + i.len] == [i.op] + size + i.data;
  }

  lemma {:induction false} Inside(prog: bytes, pc: nat, n: nat, a: nat, b: nat)
    requires a <= b <= n && pc + n <= |prog|
    ensures prog[pc..pc + n][a..b] == prog[pc + a..pc + b]
  {
    var part, x, y := prog[pc..pc + n], prog[pc..pc + n][a..b], prog[pc + a..pc + b];
    assert |x| == |y|;
    forall i | 0 <= i < |x| ensures x[i] == y[i] {
      assert x[i] == part[a + i] == prog[pc + (a + i)];
    }
  }

  lemma {:induction false} PushdataThere(prog: bytes, pc: nat, i: Instruction)
    requires pc < |prog| <= MAX_INT32 && Width(prog[pc]) > 0 && Proper(i) && WrittenAt(prog, pc, i)
    ensures ParseOp(prog, pc) == Value(i)
  {
    hide ParseOp, Uint, LittleEndian;
    ParsePushdata(prog, pc);
    var code := Written(i);
    assert prog[pc] == prog[pc..pc + |code|][0] == i.op;
    var w := Width(i.op);
    Sized(|i.data|, w);
    assert code == [i.op] + LittleEndian(|i.data|, w) + i.data && |code| == 1 + w + |i.data|;
    assert code[1..1 + w] == LittleEndian(|i.data|, w);
    assert code[1 + w..1 + w + |i.data|] == i.data;
    Inside(prog, pc, |code|, 1, 1 + w);
    Inside(prog, pc, |code|, 1 + w, 1 + w + |i.data|);
  }

  lemma {:induction false} OtherExact(prog: bytes, pc: nat, i: Instruction)
    requires pc < |prog| <= MAX_INT32 && Width(prog[pc]) == 0
    ensures ParseOp(prog, pc) == Value(i) <==> Proper(i) && WrittenAt(prog, pc, i)
  {
    hide Uint, LittleEndian;
    var op := prog[pc];
    if WrittenAt(prog, pc, i) { assert prog[pc] == prog[pc..pc + |Written(i)|][0] == i.op; }
    if pc + i.len <= |prog| && i.len >= 1 {
      assert prog[pc..pc + i.len] == [prog[pc]] + prog[pc + 1..pc + i.len];
      if i.op == op && |Written(i)| == i.len && i.len == 1 + |i.data| {
        assert ([i.op] + i.data)[1..] == i.data;
        assert prog[pc..pc + i.len][1..] == prog[pc + 1..pc + i.len];
      }
    }
  }

  /** An instruction is parsed at pc exactly when it is well made and written there, in a program of at most 2^31 - 1 bytes. */
  lemma {:induction false} ParseExact(prog: bytes, pc: nat, i: Instruction)
    requires pc < TWO_32
    ensures ParseOp(prog, pc) == Value(i) <==> |prog| <= MAX_INT32 && Proper(i) && WrittenAt(prog, pc, i)
  {
    hide ParseOp, Uint, LittleEndian, Proper, Written;
    if pc < |prog| <= MAX_INT32 {
      if Width(prog[pc]) > 0 { PushdataExact(prog, pc, i); } else { OtherExact(prog, pc, i); }
    }
  }
}
