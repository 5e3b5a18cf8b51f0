/**
 * protocol/vmutil/builder.go and ParseProgram in protocol/vm/ops.go: programs are built from pushes and plain
 * operations, and parsing a built program gives back exactly what was built.
 */
module Assembly {
  import opened Basics
  import opened VmTypes
  import opened Opcodes
  import opened Checked
  import opened Machine
  import opened Programs

  /** One call of a Builder. */
  datatype Item = Data(data: bytes) | Int(n: int64) | Plain(op: Op)

  /** Operations of one byte, which carry no data. */
  predicate Dataless(op: Op)
  {
    !(OP_DATA_1 <= op <= OP_PUSHDATA4) && !(OP_1 <= op <= OP_16) && op != OP_JUMP && op != OP_JUMPIF
  }

  predicate WellFormed(item: Item)
  {
    item.Plain? ==> Dataless(item.op)
  }

  function Encode(item: Item): (code: bytes)
    ensures |code| > 0
  {
    match item
    case Data(d) => PushdataBytes(d)
    case Int(n) => PushdataInt64(n)
    case Plain(op) => [op]
  }

  function EncodeAll(items: seq<Item>): bytes
  {
    if items == [] then [] else Encode(items[0]) + EncodeAll(items[1..])
  }

  class Builder {
    var program: bytes

    constructor ()
      ensures program == []
    {
      program := [];
    }

    method AddInt64(n: int64)
      modifies this
      ensures program == old(program) + Encode(Int(n))
    {
      program := program + PushdataInt64(n);
    }

    method AddData(data: bytes)
      modifies this
      ensures program == old(program) + Encode(Data(data))
    {
      program := program + PushdataBytes(data);
    }

    method AddRawBytes(data: bytes)
      modifies this
      ensures program == old(program) + data
    {
      program := program + data;
    }

    method AddOp(op: Op)
      modifies this
      ensures program == old(program) + Encode(Plain(op))
    {
      program := program + [op];
    }
  }

  lemma {:induction false} EncodeConcat(a: seq<Item>, b: seq<Item>)
    ensures EncodeAll(a + b) == EncodeAll(a) + EncodeAll(b)
  {
    hide Encode;
    if a == [] {
      assert a + b == b;
    } else {
      EncodeConcat(a[1..], b);
      assert (a + b)[1..] == a[1..] + b;
      assert (a + b)[0] == a[0];
    }
  }

  lemma {:induction false} EncodeOne(item: Item)
    ensures EncodeAll([item]) == Encode(item)
  {
    assert [item][1..] == [];
  }

  // ---------------------------------------------------------------- ParseProgram

  /** The instructions from pc on. */
  function ParseFrom(prog: bytes, pc: nat): Computed<seq<Instruction>>
    requires pc < TWO_32
    decreases TWO_32 - pc
  {
    if pc >= |prog| % TWO_32 then Value([])
    else
      match ParseOp(prog, pc)
      case Fail(e) => Fail(e)
      case Value(inst) =>
        match AddUint32(pc, inst.len)
        case None => Fail(Overflow)
        case Some(next) =>
          match ParseFrom(prog, next)
          case Fail(e) => Fail(e)
          case Value(rest) => Value([inst] + rest)
  }

  function ParseProgram(prog: bytes): Computed<seq<Instruction>>
  {
    ParseFrom(prog, 0)
  }

  /** The loop of ParseProgram. */
  method ComputeParseProgram(prog: bytes) returns (r: Computed<seq<Instruction>>)
    ensures r == ParseProgram(prog)
  {
    hide ParseOp;
    var result := [];
    var pc := 0;
    assert ParseProgram(prog).Value? ==> [] + ParseProgram(prog).value == ParseProgram(prog).value;
    while pc < |prog| % TWO_32
      invariant pc < TWO_32
      invariant Prepended(result, ParseFrom(prog, pc)) == ParseProgram(prog)
      decreases TWO_32 - pc
    {
      var parsed := ParseOp(prog, pc);
      if parsed.Fail? {
        return Fail(parsed.err);
      }
      var inst := parsed.value;
      var next := AddUint32(pc, inst.len);
      if next.None? {
        return Fail(Overflow);
      }
      ghost var rest := ParseFrom(prog, next.value);
      assert rest.Value? ==> result + ([inst] + rest.value) == result + [inst] + rest.value;
      result := result + [inst];
      pc := next.value;
    }
    assert result + [] == result;
    return Value(result);
  }

  ghost function Prepended(insts: seq<Instruction>, r: Computed<seq<Instruction>>): Computed<seq<Instruction>>
  {
    if r.Fail? then r else Value(insts + r.value)
  }

  // ---------------------------------------------------------------- an instruction depends on its own bytes only

  /** The same len bytes stand at p[i..] and at q[j..]. */
  ghost predicate SameBytes(p: bytes, i: nat, q: bytes, j: nat, len: nat)
  {
    i + len <= |p| && j + len <= |q| && p[i..i + len] == q[j..j + len]
  }

  lemma {:induction false} ParseOpIsLocal(p: bytes, i: nat, q: bytes, j: nat)
    requires i < TWO_32 && j < TWO_32 && ParseOp(p, i).Value? && |q| <= MAX_INT32
    requires SameBytes(p, i, q, j, ParseOp(p, i).value.len)
    ensures ParseOp(q, j) == ParseOp(p, i)
  {
    hide Uint, WithData;
    var inst := ParseOp(p, i).value;
    var len := inst.len;
    SameByte(p, i, q, j, len, 0);
    WithDataIsLocal(p, i, q, j, inst.op, 1, len);
    if inst.op == OP_PUSHDATA1 {
      SameByte(p, i, q, j, len, 1);
      WithDataIsLocal(p, i, q, j, inst.op, 2, len);
    } else if inst.op == OP_PUSHDATA2 {
      SameSlice(p, i, q, j, len, 1, 3);
      WithDataIsLocal(p, i, q, j, inst.op, 3, len);
    } else if inst.op == OP_PUSHDATA4 {
      SameSlice(p, i, q, j, len, 1, 5);
      WithDataIsLocal(p, i, q, j, inst.op, 5, len);
    }
  }

  lemma {:induction false} WithDataIsLocal(p: bytes, i: nat, q: bytes, j: nat, op: Op, head: nat, len: nat)
    requires SameBytes(p, i, q, j, len) && 1 <= head <= len && |p| <= MAX_INT32 && |q| <= MAX_INT32
    ensures WithData(q, j, op, head, len) == WithData(p, i, op, head, len)
  {
    SameSlice(p, i, q, j, len, head, len);
  }

  lemma {:induction false} SameByte(p: bytes, i: nat, q: bytes, j: nat, len: nat, k: nat)
    requires SameBytes(p, i, q, j, len) && k < len
    ensures p[i + k] == q[j + k]
  {
    assert p[i..i + len][k] == q[j..j + len][k];
  }

  lemma {:induction false} SameSlice(p: bytes, i: nat, q: bytes, j: nat, len: nat, a: nat, b: nat)
    requires SameBytes(p, i, q, j, len) && a <= b <= len
    ensures p[i + a..i + b] == q[j + a..j + b]
  {
    var x, y := p[i + a..i + b], q[j + a..j + b];
    forall k | 0 <= k < |x| ensures x[k] == y[k] {
      SameByte(p, i, q, j, len, a + k);
    }
  }

  lemma {:induction false} Shifted(a: bytes, b: bytes, pc: nat, len: nat)
    requires pc + len <= |b|
    ensures SameBytes(b, pc, a + b, |a| + pc, len)
  {
    assert b[pc..pc + len] == (a + b)[|a| + pc..|a| + pc + len];
  }

  /** Parsing from a position depends only on the bytes from there on. */
  lemma {:induction false} ParseSuffix(a: bytes, b: bytes, pc: nat)
    requires |a + b| <= MAX_INT32 && pc <= |b| && ParseFrom(b, pc).Value?
    ensures ParseFrom(a + b, |a| + pc) == ParseFrom(b, pc)
    decreases |b| - pc
  {
    hide ParseOp;
    if pc < |b| {
      var inst := ParseOp(b, pc).value;
      Shifted(a, b, pc, inst.len);
      ParseOpIsLocal(b, pc, a + b, |a| + pc);
      ParseSuffix(a, b, pc + inst.len);
    }
  }

  /** A program that parses, followed by another, parses to the two lists one after the other. */
  lemma {:induction false} ParseConcatFrom(a: bytes, b: bytes, pc: nat)
    requires |a + b| <= MAX_INT32 && pc <= |a|
    requires ParseFrom(a, pc).Value? && ParseProgram(b).Value?
    ensures ParseFrom(a + b, pc) == Value(ParseFrom(a, pc).value + ParseProgram(b).value)
    decreases |a| - pc
  {
    hide ParseOp;
    if pc < |a| {
      var inst := ParseOp(a, pc).value;
      assert a[pc..pc + inst.len] == (a + b)[pc..pc + inst.len];
      ParseOpIsLocal(a, pc, a + b, pc);
      ParseConcatFrom(a, b, pc + inst.len);
      var rest := ParseFrom(a, pc + inst.len).value;
      assert [inst] + rest + ParseProgram(b).value == [inst] + (rest + ParseProgram(b).value);
    } else {
      ParseSuffix(a, b, 0);
      assert [] + ParseProgram(b).value == ParseProgram(b).value;
    }
  }

  lemma {:induction false} ParseConcat(a: bytes, b: bytes)
    requires |a + b| <= MAX_INT32 && ParseProgram(a).Value? && ParseProgram(b).Value?
    ensures ParseProgram(a + b) == Value(ParseProgram(a).value + ParseProgram(b).value)
  {
    ParseConcatFrom(a, b, 0);
  }

  // ---------------------------------------------------------------- round trip

  /** The operation with which the builder pushes data of length l. */
  function PushOp(l: nat): Op
  {
    if l == 0 then OP_0
    else if l <= 75 then OP_DATA_1 + l - 1
    else if l < 0x100 then OP_PUSHDATA1
    else if l < 0x1_0000 then OP_PUSHDATA2
    else OP_PUSHDATA4
  }

  /** What a built item is as an instruction. */
  function Instr(item: Item): Instruction
  {
    match item
    case Data(d) => Instruction(PushOp(|d|), |Encode(item)|, d)
    case Int(n) =>
      if 1 <= n <= 16 then Instruction(OP_1 + n - 1, 1, Int64Bytes(n))
      else Instruction(PushOp(|Int64Bytes(n)|), |Encode(item)|, Int64Bytes(n))
    case Plain(op) => Instruction(op, 1, [])
  }

  function InstrAll(items: seq<Item>): (r: seq<Instruction>)
    ensures |r| == |items|
    ensures forall i :: 0 <= i < |items| ==> r[i] == Instr(items[i])
  {
    seq(|items|, i requires 0 <= i < |items| => Instr(items[i]))
  }

  lemma {:induction false} ParsePush(d: bytes)
    requires |PushdataBytes(d)| <= MAX_INT32
    ensures ParseOp(PushdataBytes(d), 0) == Value(Instruction(PushOp(|d|), |PushdataBytes(d)|, d))
  {
    hide Uint, LittleEndian;
    var l := |d|;
    var code := PushdataBytes(d);
    if l == 0 {
    } else if l <= 75 {
      assert code[1..] == d;
      assert code[1..1 + l] == d;
    } else if l < 0x100 {
      assert code[2..2 + l] == d;
    } else if l < 0x1_0000 {
      Pow256Eight();
      UintLittleEndian(l, 2);
      assert code[1..3] == LittleEndian(l, 2);
      assert code[3..3 + l] == d;
    } else {
      Pow256Eight();
      UintLittleEndian(l, 4);
      assert code[1..5] == LittleEndian(l, 4);
      assert code[5..5 + l] == d;
    }
  }

  lemma {:induction false} SmallInt(n: int64)
    requires 1 <= n <= 16
    ensures Int64Bytes(n) == [n]
  {
    ZeroBytes(7);
    var b := LittleEndian(n, 8);
    assert b == [n] + LittleEndian(0, 7);
    TrimTail(n, LittleEndian(0, 7));
  }

  lemma {:induction false} TrimTail(x: byte, zeros: bytes)
    requires x != 0 && forall i :: 0 <= i < |zeros| ==> zeros[i] == 0
    ensures Trim([x] + zeros) == [x]
    decreases |zeros|
  {
    var b := [x] + zeros;
    if zeros == [] {
      assert b == [x];
    } else {
      assert b[|b| - 1] == 0;
      assert b[..|b| - 1] == [x] + zeros[..|zeros| - 1];
      TrimTail(x, zeros[..|zeros| - 1]);
    }
  }

  /** Zero is the one integer of no bytes. */
  lemma {:induction false} IntBytesEmpty(n: int64)
    ensures n == 0 ==> Int64Bytes(n) == []
  {
    ZeroBytes(8);
  }

  lemma {:induction false} ParseItem(item: Item)
    requires WellFormed(item) && |Encode(item)| <= MAX_INT32
    ensures ParseOp(Encode(item), 0) == Value(Instr(item))
    ensures Instr(item).len == |Encode(item)|
  {
    hide Int64Bytes, PushdataBytes;
    match item
    case Data(d) => ParsePush(d);
    case Int(n) =>
      IntBytesEmpty(n);
      if 1 <= n <= 16 {
        SmallInt(n);
      } else if n != 0 {
        ParsePush(Int64Bytes(n));
      }
    case Plain(op) =>
  }

  lemma {:induction false} ParseOne(item: Item)
    requires WellFormed(item) && |Encode(item)| <= MAX_INT32
    ensures ParseProgram(Encode(item)) == Value([Instr(item)])
  {
    hide ParseOp, Encode, Instr;
    ParseItem(item);
    var code := Encode(item);
    assert ParseFrom(code, |code|) == Value([]);
    assert [Instr(item)] + [] == [Instr(item)];
  }

  /** Every sequence of builder pushes and dataless operations parses to exactly those instructions. */
  lemma {:induction false} ParseBuilt(items: seq<Item>)
    requires |EncodeAll(items)| <= MAX_INT32
    requires forall i :: 0 <= i < |items| ==> WellFormed(items[i])
    ensures ParseProgram(EncodeAll(items)) == Value(InstrAll(items))
  {
    hide ParseFrom, Encode, Instr, WellFormed;
    if items == [] {
      EmptyParses();
    } else {
      var code, rest := Encode(items[0]), EncodeAll(items[1..]);
      ParseOne(items[0]);
      ParseBuilt(items[1..]);
      ParseConcat(code, rest);
      assert InstrAll(items) == [Instr(items[0])] + InstrAll(items[1..]);
    }
  }

  lemma {:induction false} EmptyParses()
    ensures ParseProgram([]) == Value([])
  {
  }

  /** Pushed integers read back unchanged from the parsed instruction. */
  lemma {:induction false} IntReadsBack(n: int64)
    ensures AsInt64(Instr(Int(n)).data) == Some(n)
  {
    Int64RoundTrip(n);
  }
}
