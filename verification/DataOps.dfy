/** pushdata.go, numeric.go, bitwise.go, splice.go and introspection.go: opcodes that compute a value. */
module DataOps {
  import opened Basics
  import opened VmTypes
  import opened Opcodes
  import opened Checked
  import opened Machine

  ghost predicate Honest<T>(o: Computed<T>)
  {
    o.Fail? ==> o.err != EndCharge
  }

  // ---------------------------------------------------------------- pushdata.go

  /** opFalse, opPushdata and op1Negate push what the instruction stands for, and pay for it at once. */
  function OpPush(vm: VM, item: bytes): (r: Res<VM>)
    requires Ready(vm)
    ensures Meter(vm, r)
  {
    hide Weight, Pop, PopInt64, ApplyCost, PushDeferred, AsInt64, AsBool;
    var vm :- ApplyCost(vm, 1);
    Push(vm, item)
  }

  function OpNop(vm: VM): (r: Res<VM>)
    requires Ready(vm)
    ensures Meter(vm, r)
  {
    ApplyCost(vm, 1)
  }

  // ---------------------------------------------------------------- numeric.go

  function OrRange(n: Option<int64>): (o: Computed<bytes>)
    ensures Honest(o)
  {
    if n.Some? then Value(Int64Bytes(n.value)) else Fail(Range)
  }

  function UnaryValue(op: Op, n: int64): (o: Computed<bytes>)
    ensures Honest(o)
  {
    if op == OP_1ADD then OrRange(AddInt64(n, 1))
    else if op == OP_1SUB then OrRange(SubInt64(n, 1))
    else if op == OP_2MUL then OrRange(MulInt64(n, 2))
    else if op == OP_2DIV then Value(Int64Bytes(Rshift(n, 1)))
    else if op == OP_NEGATE then OrRange(NegateInt64(n))
    else if op == OP_ABS then
      if n == MIN_INT64 then Fail(Range) else Value(Int64Bytes(Abs(n)))
    else if op == OP_NOT then Value(BoolBytes(n == 0))
    else Value(BoolBytes(n != 0))
  }

  /** 1ADD, 1SUB, 2MUL, 2DIV, NEGATE, ABS, NOT and 0NOTEQUAL. */
  function OpUnary(vm: VM, op: Op): (r: Res<VM>)
    requires Ready(vm)
    ensures Meter(vm, r)
  {
    hide Weight, Pop, PopInt64, ApplyCost, PushDeferred, AsInt64, AsBool;
    var vm :- ApplyCost(vm, 2);
    var (vm, n) :- PopInt64(vm, true);
    match UnaryValue(op, n)
    case Fail(e) => Stop(vm, e)
    case Value(item) => Go(PushDeferred(vm, item))
  }

  /** The sign of the divisor, where Go's remainder has the sign of the dividend. */
  function ModValue(x: int64, y: int64): (o: Computed<bytes>)
    ensures Honest(o)
  {
    if y == 0 then Fail(DivZero)
    else
      match ModInt64(x, y)
      case None => Fail(Range)
      case Some(res) =>
        if res != 0 && (x >= 0) != (y >= 0) then Value(Int64Bytes(res + y)) else Value(Int64Bytes(res))
  }

  function BinaryValue(op: Op, x: int64, y: int64): (o: Computed<bytes>)
    ensures Honest(o)
  {
    if op == OP_ADD then OrRange(AddInt64(x, y))
    else if op == OP_SUB then OrRange(SubInt64(x, y))
    else if op == OP_MUL then OrRange(MulInt64(x, y))
    else if op == OP_DIV then
      if y == 0 then Fail(DivZero) else OrRange(DivInt64(x, y))
    else if op == OP_MOD then ModValue(x, y)
    else if op == OP_RSHIFT then
      if y < 0 then Fail(BadValue) else Value(Int64Bytes(Rshift(x, y)))
    else if op == OP_NUMEQUAL then Value(BoolBytes(x == y))
    else if op == OP_NUMNOTEQUAL then Value(BoolBytes(x != y))
    else if op == OP_LESSTHAN then Value(BoolBytes(x < y))
    else if op == OP_GREATERTHAN then Value(BoolBytes(x > y))
    else if op == OP_LESSTHANOREQUAL then Value(BoolBytes(x <= y))
    else if op == OP_GREATERTHANOREQUAL then Value(BoolBytes(x >= y))
    else if op == OP_MIN then Value(Int64Bytes(if x > y then y else x))
    else Value(Int64Bytes(if x < y then y else x))
  }

  function BinaryCost(op: Op): (n: nat)
    ensures n >= 2
  {
    if op == OP_MUL || op == OP_DIV || op == OP_MOD || op == OP_RSHIFT then 8 else 2
  }

  /** ADD to RSHIFT but LSHIFT, the comparisons, MIN and MAX: y is on top of x. */
  function OpBinary(vm: VM, op: Op): (r: Res<VM>)
    requires Ready(vm)
    ensures Meter(vm, r)
  {
    hide Weight, Pop, PopInt64, ApplyCost, PushDeferred, AsInt64, AsBool;
    var vm :- ApplyCost(vm, BinaryCost(op));
    var (vm, y) :- PopInt64(vm, true);
    var (vm, x) :- PopInt64(vm, true);
    match BinaryValue(op, x, y)
    case Fail(e) => Stop(vm, e)
    case Value(item) => Go(PushDeferred(vm, item))
  }

  function OpNumEqualVerify(vm: VM): (r: Res<VM>)
    requires Ready(vm)
    ensures Meter(vm, r)
  {
    hide Weight, Pop, PopInt64, ApplyCost, PushDeferred, AsInt64, AsBool;
    var vm :- ApplyCost(vm, 2);
    var (vm, y) :- PopInt64(vm, true);
    var (vm, x) :- PopInt64(vm, true);
    if x == y then Go(vm) else Stop(vm, VerifyFailed)
  }

  function OpLshift(vm: VM): (r: Res<VM>)
    requires Ready(vm)
    ensures Meter(vm, r)
  {
    hide Weight, Pop, PopInt64, ApplyCost, PushDeferred, AsInt64, AsBool;
    var vm :- ApplyCost(vm, 8);
    var (vm, y) :- PopInt64(vm, true);
    if y < 0 then Stop(vm, BadValue)
    else
      var (vm, x) :- PopInt64(vm, true);
      if x == 0 || y == 0 then Go(PushInt64(vm, x))
      else
        match LshiftInt64(x, y)
        case None => Stop(vm, Range)
        case Some(res) => Go(PushInt64(vm, res))
  }

  function OpBoolean(vm: VM, both: bool): (r: Res<VM>)
    requires Ready(vm)
    ensures Meter(vm, r)
  {
    hide Weight, Pop, PopInt64, ApplyCost, PushDeferred, AsInt64, AsBool;
    var vm :- ApplyCost(vm, 2);
    var (vm, b) :- Pop(vm, true);
    var (vm, a) :- Pop(vm, true);
    Go(PushBool(vm, if both then AsBool(a) && AsBool(b) else AsBool(a) || AsBool(b)))
  }

  function OpWithin(vm: VM): (r: Res<VM>)
    requires Ready(vm)
    ensures Meter(vm, r)
  {
    hide Weight, Pop, PopInt64, ApplyCost, PushDeferred, AsInt64, AsBool;
    var vm :- ApplyCost(vm, 4);
    var (vm, max) :- PopInt64(vm, true);
    var (vm, min) :- PopInt64(vm, true);
    var (vm, x) :- PopInt64(vm, true);
    Go(PushBool(vm, min <= x < max))
  }

  // ---------------------------------------------------------------- bitwise.go

  function Inverted(b: bytes): (r: bytes)
    ensures |r| == |b|
  {
    seq(|b|, i requires 0 <= i < |b| => 255 - b[i])
  }

  function OpInvert(vm: VM): (r: Res<VM>)
    requires Ready(vm)
    ensures Meter(vm, r)
  {
    var vm :- ApplyCost(vm, 1);
    var top :- Top(vm);
    var vm :- ApplyCost(vm, |top|);
    var rest := vm.dataStack[..|vm.dataStack| - 1];
    StackCostPush(rest, Inverted(top));
    Go(vm.(dataStack := rest + [Inverted(top)]))
  }

  function Min(a: nat, b: nat): nat
  {
    if a <= b then a else b
  }

  function Max(a: nat, b: nat): nat
  {
    if a <= b then b else a
  }

  function ByteAt(b: bytes, i: nat): byte
  {
    if i < |b| then b[i] else 0
  }

  function ByteAnd(a: byte, b: byte): byte
  {
    ((a as bv8) & (b as bv8)) as int
  }

  function ByteOr(a: byte, b: byte): byte
  {
    ((a as bv8) | (b as bv8)) as int
  }

  function ByteXor(a: byte, b: byte): byte
  {
    ((a as bv8) ^ (b as bv8)) as int
  }

  function Conjoined(a: bytes, b: bytes): (r: bytes)
    ensures |r| == Min(|a|, |b|)
  {
    seq(Min(|a|, |b|), i requires 0 <= i < Min(|a|, |b|) => ByteAnd(a[i], b[i]))
  }

  function Disjoined(a: bytes, b: bytes, xor: bool): (r: bytes)
    ensures |r| == Max(|a|, |b|)
  {
    seq(Max(|a|, |b|), i requires 0 <= i < Max(|a|, |b|) =>
      if xor then ByteXor(ByteAt(a, i), ByteAt(b, i)) else ByteOr(ByteAt(a, i), ByteAt(b, i)))
  }

  function OpAnd(vm: VM): (r: Res<VM>)
    requires Ready(vm)
    ensures Meter(vm, r)
  {
    hide Weight, Pop, PopInt64, ApplyCost, PushDeferred, AsInt64, AsBool;
    var vm :- ApplyCost(vm, 1);
    var (vm, b) :- Pop(vm, true);
    var (vm, a) :- Pop(vm, true);
    var vm :- ApplyCost(vm, Min(|a|, |b|));
    Go(PushDeferred(vm, Conjoined(a, b)))
  }

  function OpOr(vm: VM, xor: bool): (r: Res<VM>)
    requires Ready(vm)
    ensures Meter(vm, r)
  {
    hide Weight, Pop, PopInt64, ApplyCost, PushDeferred, AsInt64, AsBool;
    var vm :- ApplyCost(vm, 1);
    var (vm, b) :- Pop(vm, true);
    var (vm, a) :- Pop(vm, true);
    var vm :- ApplyCost(vm, Max(|a|, |b|));
    Go(PushDeferred(vm, Disjoined(a, b, xor)))
  }

  /** The loops of opInvert, opAnd and doOr. */
  method ComputeInverted(top: bytes) returns (newTop: bytes)
    ensures newTop == Inverted(top)
  {
    newTop := [];
    for i := 0 to |top|
      invariant newTop == Inverted(top)[..i]
    {
      newTop := newTop + [255 - top[i]];
    }
  }

  method ComputeConjoined(a: bytes, b: bytes) returns (res: bytes)
    ensures res == Conjoined(a, b)
  {
    hide ByteAnd;
    res := [];
    for i := 0 to Min(|a|, |b|)
      invariant res == Conjoined(a, b)[..i]
    {
      res := res + [ByteAnd(a[i], b[i])];
    }
  }

  method ComputeDisjoined(a: bytes, b: bytes, xor: bool) returns (res: bytes)
    ensures res == Disjoined(a, b, xor)
  {
    hide ByteOr, ByteXor;
    res := [];
    for i := 0 to Max(|a|, |b|)
      invariant res == Disjoined(a, b, xor)[..i]
    {
      var aByte := if i >= |a| then 0 else a[i];
      var bByte := if i >= |b| then 0 else b[i];
      var resByte := if xor then ByteXor(aByte, bByte) else ByteOr(aByte, bByte);
      assert resByte == Disjoined(a, b, xor)[i];
      res := res + [resByte];
    }
  }

  ghost predicate Compared(vm: VM, r: Res<(VM, bool)>)
  {
    match r
    case Go((w, _)) =>
      Ready(w) && SameFrame(w, vm) && Weight(w) < Weight(vm) && |w.dataStack| == |vm.dataStack| - 2
    case Stop(w, e) => Stopped(vm, w) && e != EndCharge
  }

  function DoEqual(vm: VM): (r: Res<(VM, bool)>)
    requires Ready(vm)
    ensures Compared(vm, r)
  {
    hide Weight, ApplyCost, Pop;
    var vm :- ApplyCost(vm, 1);
    var (vm, b) :- Pop(vm, true);
    var (vm, a) :- Pop(vm, true);
    var vm :- ApplyCost(vm, Min(|a|, |b|));
    Go((vm, a == b))
  }

  function OpEqual(vm: VM): (r: Res<VM>)
    requires Ready(vm)
    ensures Meter(vm, r)
  {
    hide Weight, Pop, PopInt64, ApplyCost, PushDeferred, AsInt64, AsBool;
    var (vm, res) :- DoEqual(vm);
    Go(PushBool(vm, res))
  }

  function OpEqualVerify(vm: VM): (r: Res<VM>)
    requires Ready(vm)
    ensures Meter(vm, r)
  {
    hide Weight, Pop, PopInt64, ApplyCost, PushDeferred, AsInt64, AsBool;
    var (vm, res) :- DoEqual(vm);
    if res then Go(vm) else Stop(vm, VerifyFailed)
  }

  // ---------------------------------------------------------------- splice.go

  /** CAT and CATPUSHDATA charge for the bytes joined and put the same amount back at the end of the step. */
  function OpCat(vm: VM, pushdata: bool): (r: Res<VM>)
    requires Ready(vm)
    ensures Meter(vm, r)
  {
    hide Weight, Pop, PopInt64, ApplyCost, PushDeferred, AsInt64, AsBool;
    var vm :- ApplyCost(vm, 4);
    var (vm, b) :- Pop(vm, true);
    var (vm, a) :- Pop(vm, true);
    var lens := |a| + |b|;
    var vm :- ApplyCost(vm, lens);
    var vm := DeferCost(vm, 0 - lens);
    Go(PushDeferred(vm, a + if pushdata then PushdataBytes(b) else b))
  }

  /** The common start of SUBSTR, LEFT and RIGHT: a size, charged and put back at the end of the step. */
  function PopSize(vm: VM): (r: Res<(VM, int64)>)
    requires Ready(vm)
    ensures r.Go? ==> r.value.1 >= 0 && Ready(r.value.0) && SameFrame(r.value.0, vm)
    ensures r.Go? ==> Weight(r.value.0) == Weight(vm) - 4 && |r.value.0.dataStack| == |vm.dataStack| - 1
    ensures r.Stop? ==> Stopped(vm, r.vm) && r.err != EndCharge
  {
    hide Weight, ApplyCost, DeferCost, PopInt64, AsInt64;
    var vm :- ApplyCost(vm, 4);
    var (vm, size) :- PopInt64(vm, true);
    if size < 0 then Stop(vm, BadValue)
    else
      var vm :- ApplyCost(vm, size);
      Go((DeferCost(vm, 0 - size), size))
  }

  function OpSubstr(vm: VM): (r: Res<VM>)
    requires Ready(vm)
    ensures Meter(vm, r)
  {
    hide Weight, Pop, PopInt64, ApplyCost, PushDeferred, AsInt64, AsBool;
    var (vm, size) :- PopSize(vm);
    var (vm, offset) :- PopInt64(vm, true);
    if offset < 0 then Stop(vm, BadValue)
    else
      var (vm, str) :- Pop(vm, true);
      match AddInt64(offset, size)
      case None => Stop(vm, BadValue)
      case Some(end) =>
        if end > |str| then Stop(vm, BadValue) else Go(PushDeferred(vm, str[offset..end]))
  }

  function OpLeftRight(vm: VM, left: bool): (r: Res<VM>)
    requires Ready(vm)
    ensures Meter(vm, r)
  {
    hide Weight, Pop, PopInt64, ApplyCost, PushDeferred, AsInt64, AsBool;
    var (vm, size) :- PopSize(vm);
    var (vm, str) :- Pop(vm, true);
    if size > |str| then Stop(vm, BadValue)
    else Go(PushDeferred(vm, if left then str[..size] else str[|str| - size..]))
  }

  function OpSize(vm: VM): (r: Res<VM>)
    requires Ready(vm)
    ensures Meter(vm, r)
  {
    hide Weight, Pop, PopInt64, ApplyCost, PushDeferred, AsInt64, AsBool;
    var vm :- ApplyCost(vm, 1);
    var str :- Top(vm);
    Go(PushInt64(vm, Signed(|str| % TWO_64)))
  }

  // ---------------------------------------------------------------- introspection.go

  /** The opcodes that push a field of the context, if it has one. */
  function OpContext(vm: VM, field: Option<bytes>): (r: Res<VM>)
    requires Ready(vm)
    ensures Meter(vm, r)
  {
    hide Weight, Pop, PopInt64, ApplyCost, PushDeferred, AsInt64, AsBool;
    var vm :- ApplyCost(vm, 1);
    match field
    case None => Stop(vm, Context)
    case Some(item) => Go(PushDeferred(vm, item))
  }

  /** index, data, amount, assetID, vmVersion, code, expansion. */
  type OutputChecker = (nat, bytes, nat, bytes, nat, bytes, bool) -> Option<bool>

  function PopNatural(vm: VM): (r: Res<(VM, nat)>)
    requires Ready(vm)
    ensures r.Go? ==> Ready(r.value.0) && SameFrame(r.value.0, vm)
    ensures r.Go? ==> Weight(r.value.0) == Weight(vm) && |r.value.0.dataStack| == |vm.dataStack| - 1
    ensures r.Stop? ==> Stopped(vm, r.vm) && r.err != EndCharge
  {
    var (vm, n) :- PopInt64(vm, true);
    if n < 0 then Stop(vm, BadValue) else Go((vm, n))
  }

  function OpCheckOutput(vm: VM, check: Option<OutputChecker>): (r: Res<VM>)
    requires Ready(vm)
    ensures Meter(vm, r)
  {
    hide Weight, Pop, PopInt64, ApplyCost, PushDeferred, AsInt64, AsBool;
    var vm :- ApplyCost(vm, 16);
    var (vm, code) :- Pop(vm, true);
    var (vm, vmVersion) :- PopNatural(vm);
    var (vm, assetID) :- Pop(vm, true);
    var (vm, amount) :- PopNatural(vm);
    var (vm, data) :- Pop(vm, true);
    var (vm, index) :- PopNatural(vm);
    match check
    case None => Stop(vm, Context)
    case Some(f) =>
      match f(index, data, amount, assetID, vmVersion, code, vm.expansionReserved)
      case None => Stop(vm, CheckOutputError)
      case Some(ok) => Go(PushBool(vm, ok))
  }
}
