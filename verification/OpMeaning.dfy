/** The copying loop of protocol/vm/stack.go, and what the numeric opcodes mean as numbers instead of bytes. */
module OpMeaning {
  import opened Basics
  import opened VmTypes
  import opened Opcodes
  import opened Checked
  import opened Machine
  import opened DataOps
  import opened StackOps
  import opened Straightline

  // ---------------------------------------------------------------- stack.go

  ghost predicate Copied(vm: VM, block: seq<bytes>, r: Res<VM>)
  {
    && (r.Go? <==> vm.runLimit >= StackCost(block))
    && (r.Go? ==>
          && r.value.dataStack == vm.dataStack + block && r.value.altStack == vm.altStack
          && r.value.runLimit == vm.runLimit - StackCost(block) && r.value.nextPC == vm.nextPC)
  }

  /** The loop of nDup and op2Over copies a block of the stack to the top. */
  lemma {:induction false} CopyUpMeaning(vm: VM, n: nat, times: nat)
    requires Ready(vm) && 1 <= n <= |vm.dataStack| && times <= n
    ensures Copied(vm, vm.dataStack[|vm.dataStack| - n..|vm.dataStack| - n + times], CopyUp(vm, n, times))
    decreases times
  {
    hide Weight, StackCost, CopyUp;
    var l := |vm.dataStack|;
    var block := vm.dataStack[l - n..l - n + times];
    StackCostFirst(block);
    CopyUnfolds(vm, n, times);
    if times > 0 {
      var x := vm.dataStack[l - n];
      assert block[0] == x;
      if vm.runLimit >= 8 + |x| {
        var w := vm.(runLimit := vm.runLimit - 8 - |x|, dataStack := vm.dataStack + [x]);
        CopyUpMeaning(w, n, times - 1);
        NextBlock(vm.dataStack, x, n, times);
      }
    } else {
      assert vm.dataStack + block == vm.dataStack;
    }
  }

  lemma {:induction false} CopyUnfolds(vm: VM, n: nat, times: nat)
    requires Ready(vm) && 1 <= n <= |vm.dataStack|
    ensures times == 0 ==> CopyUp(vm, n, times) == Go(vm)
    ensures times > 0 ==>
              var x := vm.dataStack[|vm.dataStack| - n];
              if vm.runLimit < 8 + |x| then CopyUp(vm, n, times).Stop?
              else CopyUp(vm, n, times) == CopyUp(vm.(runLimit := vm.runLimit - 8 - |x|, dataStack := vm.dataStack + [x]), n, times - 1)
  {
    hide Weight;
    PushMeaning(vm, vm.dataStack[|vm.dataStack| - n]);
  }

  lemma {:induction false} PushMeaning(vm: VM, x: bytes)
    ensures Push(vm, x)
         == if vm.runLimit >= 8 + |x| then Go(vm.(runLimit := vm.runLimit - 8 - |x|, dataStack := vm.dataStack + [x])) else Stop(vm, RunLimitExceeded)
  {
  }

  lemma {:induction false} NextBlock(s: seq<bytes>, x: bytes, n: nat, times: nat)
    requires 1 <= times <= n <= |s| && s[|s| - n] == x
    ensures var block := s[|s| - n..|s| - n + times];
            && (s + [x])[|s| + 1 - n..|s| + 1 - n + (times - 1)] == block[1..]
            && (s + [x]) + block[1..] == s + block
  {
    var block := s[|s| - n..|s| - n + times];
    assert block == [x] + block[1..];
  }

  // ---------------------------------------------------------------- numeric.go

  /** r is the remainder of the division of x by y that rounds down: it has the sign of y. */
  ghost predicate FloorRemainder(x: int, y: int, r: int)
  {
    && (exists q: int :: Product(y, q) + r == x)
    && (if y > 0 then 0 <= r < y else y < r <= 0)
  }

  ghost function Product(y: int, q: int): int
  {
    y * q
  }

  /** MOD: where it has a result, that is the remainder of the division that rounds down. */
  lemma {:induction false} ModMeaning(x: int64, y: int64)
    ensures ModValue(x, y).Value? <==> y != 0 && !(x == MIN_INT64 && y == -1)
    ensures ModValue(x, y).Value? ==> exists r: int64 :: ModValue(x, y).value == Int64Bytes(r) && FloorRemainder(x, y, r)
  {
    hide Int64Bytes, Quotient, Remainder;
    if y != 0 && !(x == MIN_INT64 && y == -1) {
      QuotientRemainder(x, y);
      var q, res: int := Quotient(x, y), Remainder(x, y);
      if res != 0 && (x >= 0) != (y >= 0) {
        var yy: int := y;
        assert yy * (q - 1) == yy * q - yy;
        assert Product(y, q - 1) + (res + y) == x;
        assert FloorRemainder(x, y, res + y);
      } else {
        assert Product(y, q) + res == x;
        assert FloorRemainder(x, y, res);
      }
    }
  }

  /** When a two-operand opcode has a result. */
  ghost predicate Defined(op: Op, x: int64, y: int64)
  {
    if op == OP_ADD then InInt64(x + y)
    else if op == OP_SUB then InInt64(x - y)
    else if op == OP_MUL then InInt64(x * y)
    else if op == OP_DIV then y != 0 && InInt64(Quotient(x, y))
    else if op == OP_MOD then y != 0 && !(x == MIN_INT64 && y == -1)
    else if op == OP_RSHIFT then y >= 0
    else true
  }

  /** What it means, read back as the machine reads integers and booleans. */
  ghost predicate Denotes(op: Op, x: int64, y: int64, item: bytes)
  {
    if op == OP_ADD then AsInt64(item) == Some(x + y)
    else if op == OP_SUB then AsInt64(item) == Some(x - y)
    else if op == OP_MUL then AsInt64(item) == Some(x * y)
    else if op == OP_DIV then y != 0 && AsInt64(item) == Some(Quotient(x, y))
    else if op == OP_MOD then exists r: int64 :: AsInt64(item) == Some(r) && FloorRemainder(x, y, r)
    else if op == OP_RSHIFT then y >= 0 && AsInt64(item) == Some(if y < 64 then x / Pow2(y) else if x < 0 then -1 else 0)
    else if op == OP_NUMEQUAL then AsBool(item) == (x == y)
    else if op == OP_NUMNOTEQUAL then AsBool(item) == (x != y)
    else if op == OP_LESSTHAN then AsBool(item) == (x < y)
    else if op == OP_GREATERTHAN then AsBool(item) == (x > y)
    else if op == OP_LESSTHANOREQUAL then AsBool(item) == (x <= y)
    else if op == OP_GREATERTHANOREQUAL then AsBool(item) == (x >= y)
    else if op == OP_MIN then exists m: int64 :: AsInt64(item) == Some(m) && m <= x && m <= y && (m == x || m == y)
    else exists m: int64 :: AsInt64(item) == Some(m) && m >= x && m >= y && (m == x || m == y)
  }

  lemma {:induction false} BinaryMeaning(op: Op, x: int64, y: int64)
    ensures BinaryValue(op, x, y).Value? <==> Defined(op, x, y)
    ensures BinaryValue(op, x, y).Value? ==> Denotes(op, x, y, BinaryValue(op, x, y).value)
  {
    hide Int64Bytes, AsInt64, Quotient, Pow2, AsBool, FloorRemainder, ModValue;
    Bools();
    if op == OP_MOD {
      ModMeaning(x, y);
      if ModValue(x, y).Value? {
        var r: int64 :| ModValue(x, y).value == Int64Bytes(r) && FloorRemainder(x, y, r);
        Int64RoundTrip(r);
      }
    } else if Defined(op, x, y) {
      IntegersRead();
    }
  }

  lemma {:induction false} Bools()
    ensures AsBool(BoolBytes(true)) && !AsBool(BoolBytes(false))
  {
    BoolRoundTrip(true, 0);
    BoolRoundTrip(false, 0);
  }

  lemma {:induction false} IntegersRead()
    ensures forall n: int64 :: AsInt64(Int64Bytes(n)) == Some(n)
  {
    forall n: int64 ensures AsInt64(Int64Bytes(n)) == Some(n) {
      Int64RoundTrip(n);
    }
  }

  /** The operands are x below y, and what is pushed is the value of the opcode on them. */
  lemma {:induction false} BinaryStack(vm: VM, op: Op, s: seq<bytes>, a: bytes, b: bytes, x: int64, y: int64)
    requires Ready(vm) && vm.dataStack == s + [a, b] && AsInt64(a) == Some(x) && AsInt64(b) == Some(y)
    ensures var r := OpBinary(vm, op);
            && (r.Go? <==> vm.runLimit >= BinaryCost(op) && Defined(op, x, y))
            && (r.Go? ==> |r.value.dataStack| == |s| + 1 && r.value.dataStack[..|s|] == s && Denotes(op, x, y, r.value.dataStack[|s|]))
  {
    hide Weight, Pop, AsInt64, BinaryValue, Defined, Denotes;
    BinaryMeaning(op, x, y);
    var v := vm.(runLimit := vm.runLimit - BinaryCost(op));
    assert vm.dataStack == s + [a] + [b];
    PopTop(v, s + [a], b);
    PopTop(Less(v, s + [a], b), s, a);
  }

  /** What a one-operand opcode means where it has a result. */
  ghost predicate UnaryDenotes(op: Op, n: int64, item: bytes)
  {
    if op == OP_1ADD then AsInt64(item) == Some(n + 1)
    else if op == OP_1SUB then AsInt64(item) == Some(n - 1)
    else if op == OP_2MUL then AsInt64(item) == Some(2 * n)
    else if op == OP_2DIV then AsInt64(item) == Some(n / 2)
    else if op == OP_NEGATE then AsInt64(item) == Some(0 - n)
    else if op == OP_ABS then AsInt64(item) == Some(if n < 0 then 0 - n else n)
    else if op == OP_NOT then AsBool(item) == (n == 0)
    else AsBool(item) == (n != 0)
  }

  ghost predicate UnaryDefined(op: Op, n: int64)
  {
    if op == OP_1ADD then InInt64(n + 1)
    else if op == OP_1SUB then InInt64(n - 1)
    else if op == OP_2MUL then InInt64(2 * n)
    else if op == OP_NEGATE || op == OP_ABS then n != MIN_INT64
    else true
  }

  lemma {:induction false} UnaryMeaning(op: Op, n: int64)
    ensures UnaryValue(op, n).Value? <==> UnaryDefined(op, n)
    ensures UnaryValue(op, n).Value? ==> UnaryDenotes(op, n, UnaryValue(op, n).value)
  {
    hide Int64Bytes, AsInt64, AsBool;
    Bools();
    assert Pow2(1) == 2 by { assert Pow2(0) == 1; }
    IntegersRead();
  }

  lemma {:induction false} UnaryStack(vm: VM, op: Op, s: seq<bytes>, a: bytes, n: int64)
    requires Ready(vm) && vm.dataStack == s + [a] && AsInt64(a) == Some(n)
    ensures var r := OpUnary(vm, op);
            && (r.Go? <==> vm.runLimit >= 2 && UnaryDefined(op, n))
            && (r.Go? ==> |r.value.dataStack| == |s| + 1 && r.value.dataStack[..|s|] == s && UnaryDenotes(op, n, r.value.dataStack[|s|]))
  {
    hide Weight, Pop, AsInt64, UnaryValue, UnaryDefined, UnaryDenotes;
    UnaryMeaning(op, n);
    PopTop(vm.(runLimit := vm.runLimit - 2), s, a);
  }

  /** WITHIN: x, then the lower bound, then the upper bound, which is outside. */
  lemma {:induction false} WithinMeaning(vm: VM, s: seq<bytes>, xb: bytes, lo: bytes, hi: bytes, x: int64, min: int64, max: int64)
    requires Ready(vm) && vm.dataStack == s + [xb] + [lo] + [hi]
    requires AsInt64(xb) == Some(x) && AsInt64(lo) == Some(min) && AsInt64(hi) == Some(max)
    ensures var r := OpWithin(vm);
            && (r.Go? <==> vm.runLimit >= 4)
            && (r.Go? ==> r.value.dataStack == s + [BoolBytes(min <= x < max)])
  {
    hide Weight, Pop, AsInt64;
    var v := vm.(runLimit := vm.runLimit - 4);
    PopTop(v, s + [xb] + [lo], hi);
    var v1 := Less(v, s + [xb] + [lo], hi);
    PopTop(v1, s + [xb], lo);
    PopTop(Less(v1, s + [xb], lo), s, xb);
  }
}
