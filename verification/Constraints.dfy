/**
 * core/txbuilder/constraint.go and witness.go: constraints on a transaction are compiled to bytecode; the
 * machine, running it, decides exactly whether they hold.
 */
module Constraints {
  import opened Basics
  import opened VmTypes
  import opened Opcodes
  import opened Machine
  import opened Assembly
  import opened Scripts
  import opened Interpreter
  import opened Outcomes
  import opened Straightline

  datatype Constraint =
    | Time(minTimeMS: uint64, maxTimeMS: uint64)
    | OutputID(id: Hash)
    | RefData(data: bytes, tx: bool)
    | Pay(index: nat, asset: Hash, amount: uint64, program: bytes, refDataHash: Option<Hash>)

  // ---------------------------------------------------------------- meaning

  /** The latest time the transaction allows, as MAXTIME reads it. */
  function LatestTime(max: uint64): int
  {
    if max == 0 || max > MAX_INT64 then MAX_INT64 else max
  }

  /** What a constraint says of the transaction the machine looks at. */
  predicate Holds(env: Env, c: Constraint, expansion: bool)
  {
    match c
    case Time(min, max) =>
      && (min > 0 ==> env.minTimeMS.Some? && env.minTimeMS.value >= min)
      && (max > 0 ==> env.maxTimeMS.Some? && LatestTime(env.maxTimeMS.value) <= max)
    case OutputID(id) => env.spentOutputID == Some(id)
    case RefData(data, tx) => (if tx then env.txData else env.entryData) == Some(env.crypto.sha3(data))
    case Pay(index, asset, amount, program, hash) =>
      OutputVerdict(env, index, if hash.None? then [] else hash.value, amount, asset, 1, program, expansion) == Some(true)
  }

  /** Numbers that fit a signed 64-bit integer. */
  predicate InRange(c: Constraint)
  {
    match c
    case Time(min, max) => min <= MAX_INT64 && max <= MAX_INT64
    case Pay(index, _, amount, _, _) => index <= MAX_INT64 && amount <= MAX_INT64
    case _ => true
  }

  predicate TimesInRange(env: Env)
  {
    env.minTimeMS.Some? ==> env.minTimeMS.value <= MAX_INT64
  }

  // ---------------------------------------------------------------- compilation

  function MinItems(min: uint64): seq<Item>
  {
    [Plain(OP_MINTIME), Int(Signed(min)), Plain(OP_GREATERTHANOREQUAL)]
  }

  function MaxItems(max: uint64): seq<Item>
  {
    [Plain(OP_MAXTIME), Int(Signed(max)), Plain(OP_LESSTHANOREQUAL)]
  }

  /** The items each code() builds. TRUE is the push of one. */
  function CodeItems(sha3: bytes -> Hash, c: Constraint): (items: seq<Item>)
  {
    match c
    case Time(min, max) =>
      if min == 0 && max == 0 then [Int(1)]
      else if max == 0 then MinItems(min)
      else if min == 0 then MaxItems(max)
      else MinItems(min) + [Plain(OP_VERIFY)] + MaxItems(max)
    case OutputID(id) => [Data(id), Plain(OP_OUTPUTID), Plain(OP_EQUAL)]
    case RefData(data, tx) => [Data(sha3(data)), Plain(if tx then OP_TXDATA else OP_ENTRYDATA), Plain(OP_EQUAL)]
    case Pay(index, asset, amount, program, hash) =>
      [Int(Signed(index % TWO_64)), Data(if hash.None? then [] else hash.value), Int(Signed(amount)), Data(asset), Int(1),
       Data(program), Plain(OP_CHECKOUTPUT)]
  }

  method TimeCode(sha3: bytes -> Hash, min: uint64, max: uint64) returns (program: bytes)
    ensures program == EncodeAll(CodeItems(sha3, Time(min, max)))
  {
    hide EncodeAll, Encode;
    if min == 0 && max == 0 {
      EncodeOne(Int(1));
      assert Encode(Int(1)) == [OP_TRUE] by { TrueIsOne(); }
      return [OP_TRUE];
    }
    var builder := new Builder();
    ghost var items: seq<Item> := [];
    EncodeNone();
    if min > 0 {
      builder.AddOp(OP_MINTIME);
      builder.AddInt64(Signed(min));
      builder.AddOp(OP_GREATERTHANOREQUAL);
      EncodeThree([], Plain(OP_MINTIME), Int(Signed(min)), Plain(OP_GREATERTHANOREQUAL));
      items := [] + MinItems(min);
    }
    if max > 0 {
      if min > 0 {
        builder.AddOp(OP_VERIFY);
        EncodeSnoc(items, Plain(OP_VERIFY));
        items := items + [Plain(OP_VERIFY)];
      }
      builder.AddOp(OP_MAXTIME);
      builder.AddInt64(Signed(max));
      builder.AddOp(OP_LESSTHANOREQUAL);
      EncodeThree(items, Plain(OP_MAXTIME), Int(Signed(max)), Plain(OP_LESSTHANOREQUAL));
      items := items + MaxItems(max);
    }
    assert items == CodeItems(sha3, Time(min, max));
    return builder.program;
  }

  lemma {:induction false} TrueIsOne()
    ensures Encode(Int(1)) == [OP_TRUE]
  {
  }

  lemma {:induction false} EncodeNone()
    ensures EncodeAll([]) == []
  {
  }

  lemma {:induction false} EncodeThree(items: seq<Item>, a: Item, b: Item, c: Item)
    ensures EncodeAll(items + [a, b, c]) == EncodeAll(items) + Encode(a) + Encode(b) + Encode(c)
  {
    hide EncodeAll, Encode;
    EncodeSnoc(items, a);
    EncodeSnoc(items + [a], b);
    EncodeSnoc(items + [a] + [b], c);
    assert items + [a] + [b] + [c] == items + [a, b, c];
  }

  /** The four code() compilers, each through a Builder. */
  method Code(sha3: bytes -> Hash, c: Constraint) returns (program: bytes)
    requires c.Pay? ==> c.index <= MAX_INT64
    ensures program == EncodeAll(CodeItems(sha3, c))
  {
    hide EncodeAll, Encode;
    EncodeNone();
    var builder := new Builder();
    match c
    case Time(min, max) =>
      program := TimeCode(sha3, min, max);
    case OutputID(id) =>
      builder.AddData(id);
      builder.AddOp(OP_OUTPUTID);
      builder.AddOp(OP_EQUAL);
      EncodeThree([], Data(id), Plain(OP_OUTPUTID), Plain(OP_EQUAL));
      assert [] + [Data(id), Plain(OP_OUTPUTID), Plain(OP_EQUAL)] == CodeItems(sha3, c);
      program := builder.program;
    case RefData(data, tx) =>
      var h := sha3(data);
      builder.AddData(h);
      if tx {
        builder.AddOp(OP_TXDATA);
      } else {
        builder.AddOp(OP_ENTRYDATA);
      }
      builder.AddOp(OP_EQUAL);
      var op := Plain(if tx then OP_TXDATA else OP_ENTRYDATA);
      EncodeThree([], Data(h), op, Plain(OP_EQUAL));
      assert [] + [Data(h), op, Plain(OP_EQUAL)] == CodeItems(sha3, c);
      program := builder.program;
    case Pay(index, asset, amount, prog, hash) =>
      builder.AddInt64(index);
      var ref := if hash.None? then [] else hash.value;
      builder.AddData(ref);
      builder.AddInt64(Signed(amount));
      EncodeThree([], Int(index), Data(ref), Int(Signed(amount)));
      ghost var items := [] + [Int(index), Data(ref), Int(Signed(amount))];
      builder.AddData(asset);
      builder.AddInt64(1);
      builder.AddData(prog);
      EncodeThree(items, Data(asset), Int(1), Data(prog));
      items := items + [Data(asset), Int(1), Data(prog)];
      builder.AddOp(OP_CHECKOUTPUT);
      EncodeSnoc(items, Plain(OP_CHECKOUTPUT));
      assert items + [Plain(OP_CHECKOUTPUT)] == CodeItems(sha3, c);
      program := builder.program;
  }

  // ---------------------------------------------------------------- running one constraint

  /** A run limit that is enough for the constraint's code. */
  function Need(c: Constraint): nat
  {
    match c
    case Pay(_, _, _, program, _) => 192 + |program|
    case _ => 128
  }

  /** The run goes on at w, before `rest`, with `stack`, having spent at most `spent`. */
  ghost predicate Arrives(env: Env, vm: VM, rest: seq<Item>, w: VM, stack: seq<bytes>, spent: int)
  {
    && Loaded(w, rest) && w.dataStack == stack && w.altStack == vm.altStack && w.runLimit >= vm.runLimit - spent
    && w.expansionReserved == vm.expansionReserved && w.depth == vm.depth
    && CanRun(vm) && Outcome(env, vm) == Outcome(env, w)
  }

  /** The code decided v: it left v on top, or, where v is false, it may have failed instead. */
  ghost predicate Decides(env: Env, vm: VM, rest: seq<Item>, w: VM, v: bool, spent: int)
  {
    || Arrives(env, vm, rest, w, vm.dataStack + [BoolBytes(v)], spent)
    || (!v && CanRun(vm) && Fails(env, vm))
  }

  lemma {:induction false} IntItem(n: int64)
    ensures AsInt64(Instr(Int(n)).data) == Some(n)
    ensures |Instr(Int(n)).data| <= 8
  {
    IntReadsBack(n);
  }

  lemma {:induction false} DataItem(d: bytes)
    ensures Instr(Data(d)).data == d
  {
  }

  /** <time> <bound> <comparison> */
  lemma {:induction false} TimeCompare(env: Env, vm: VM, rest: seq<Item>, field: Op, bound: int64, op: Op) returns (w: VM)
    requires HasField(field) && (op == OP_GREATERTHANOREQUAL || op == OP_LESSTHANOREQUAL)
    requires Field(env, field).Some? ==> |Field(env, field).value| <= 8 && AsInt64(Field(env, field).value).Some?
    requires Loaded(vm, [Plain(field), Int(bound), Plain(op)] + rest) && vm.runLimit >= 40
    ensures Decides(env, vm, rest, w,
              Field(env, field).Some? &&
              (var t := AsInt64(Field(env, field).value).value; if op == OP_GREATERTHANOREQUAL then t >= bound else t <= bound), 13)
  {
    hide Outcome, EncodeAll, Encode, AsInt64, Field, Instr, WellFormed, HasField;
    var items := [Plain(field), Int(bound), Plain(op)] + rest;
    IntItem(bound);
    w := vm;
    var w1 := RunField(env, vm, items, field);
    if Field(env, field).Some? {
      var t := Field(env, field).value;
      assert items[1..] == [Int(bound), Plain(op)] + rest;
      var w2 := RunPush(env, w1, items[1..]);
      assert items[1..][1..] == [Plain(op)] + rest;
      w := RunCompare(env, w2, items[1..][1..], op, vm.dataStack, t, Instr(Int(bound)).data, AsInt64(t).value, bound);
      assert items[1..][1..][1..] == rest;
    }
  }

  /** <digest> <context field> EQUAL */
  lemma {:induction false} DigestCompare(env: Env, vm: VM, rest: seq<Item>, h: Hash, field: Op) returns (w: VM)
    requires HasField(field)
    requires Loaded(vm, [Data(h), Plain(field), Plain(OP_EQUAL)] + rest) && vm.runLimit >= 128
    ensures Decides(env, vm, rest, w, Field(env, field) == Some(h), 64)
  {
    hide Outcome, EncodeAll, Encode, Field, Instr, WellFormed, HasField;
    var items := [Data(h), Plain(field), Plain(OP_EQUAL)] + rest;
    DataItem(h);
    var w1 := RunPush(env, vm, items);
    assert items[1..] == [Plain(field), Plain(OP_EQUAL)] + rest;
    w := RunField(env, w1, items[1..], field);
    if Field(env, field).Some? && 9 + |Field(env, field).value| <= w1.runLimit {
      var d := Field(env, field).value;
      assert items[1..][1..] == [Plain(OP_EQUAL)] + rest;
      w := RunEqual(env, w, items[1..][1..], vm.dataStack, h, d);
      assert items[1..][1..][1..] == rest;
    }
  }

  lemma {:induction false} MinTimeField(env: Env)
    requires TimesInRange(env)
    ensures Field(env, OP_MINTIME).Some? == env.minTimeMS.Some?
    ensures env.minTimeMS.Some? ==>
              && |Field(env, OP_MINTIME).value| <= 8
              && AsInt64(Field(env, OP_MINTIME).value) == Some(env.minTimeMS.value)
  {
    hide AsInt64, Int64Bytes;
    if env.minTimeMS.Some? { Int64RoundTrip(env.minTimeMS.value); }
  }

  lemma {:induction false} MaxTimeField(env: Env)
    ensures Field(env, OP_MAXTIME).Some? == env.maxTimeMS.Some?
    ensures env.maxTimeMS.Some? ==>
              && |Field(env, OP_MAXTIME).value| <= 8
              && AsInt64(Field(env, OP_MAXTIME).value) == Some(LatestTime(env.maxTimeMS.value))
  {
    hide AsInt64, Int64Bytes;
    if env.maxTimeMS.Some? { Int64RoundTrip(LatestTime(env.maxTimeMS.value)); }
  }

  lemma {:induction false} RunMin(env: Env, vm: VM, rest: seq<Item>, min: uint64) returns (w: VM)
    requires TimesInRange(env) && 0 < min <= MAX_INT64
    requires Loaded(vm, MinItems(min) + rest) && vm.runLimit >= 40
    ensures Decides(env, vm, rest, w, env.minTimeMS.Some? && env.minTimeMS.value >= min, 13)
  {
    hide Outcome, EncodeAll, AsInt64, Field, Decides, Loaded;
    MinTimeField(env);
    w := TimeCompare(env, vm, rest, OP_MINTIME, min, OP_GREATERTHANOREQUAL);
  }

  lemma {:induction false} RunMax(env: Env, vm: VM, rest: seq<Item>, max: uint64) returns (w: VM)
    requires 0 < max <= MAX_INT64
    requires Loaded(vm, MaxItems(max) + rest) && vm.runLimit >= 40
    ensures Decides(env, vm, rest, w, env.maxTimeMS.Some? && LatestTime(env.maxTimeMS.value) <= max, 13)
  {
    hide Outcome, EncodeAll, AsInt64, Field, Decides, Loaded;
    MaxTimeField(env);
    w := TimeCompare(env, vm, rest, OP_MAXTIME, max, OP_LESSTHANOREQUAL);
  }

  /** A decided value and VERIFY: the run goes on only if it was true. */
  lemma {:induction false} ThenVerify(env: Env, vm: VM, rest: seq<Item>, u: VM, v: bool, spent: int) returns (w: VM)
    requires Decides(env, vm, [Plain(OP_VERIFY)] + rest, u, v, spent) && CanRun(vm) && spent < vm.runLimit
    ensures v ==> Arrives(env, vm, rest, w, vm.dataStack, spent)
    ensures !v ==> Fails(env, vm)
  {
    hide Outcome, EncodeAll, AsBool;
    w := u;
    if Arrives(env, vm, [Plain(OP_VERIFY)] + rest, u, vm.dataStack + [BoolBytes(v)], spent) {
      BoolReads(v);
      w := RunVerify(env, u, [Plain(OP_VERIFY)] + rest, vm.dataStack, BoolBytes(v));
      assert ([Plain(OP_VERIFY)] + rest)[1..] == rest;
    }
  }

  lemma {:induction false} BoolReads(v: bool)
    ensures AsBool(BoolBytes(v)) == v
  {
    assert v ==> BoolBytes(v)[0] == 1;
  }

  lemma {:induction false} RunTime(env: Env, vm: VM, rest: seq<Item>, c: Constraint) returns (w: VM)
    requires c.Time? && InRange(c) && TimesInRange(env)
    requires Loaded(vm, CodeItems(env.crypto.sha3, c) + rest) && vm.runLimit >= Need(c)
    ensures Decides(env, vm, rest, w, Holds(env, c, vm.expansionReserved), Need(c))
  {
    hide Outcome, EncodeAll, WellFormed, LatestTime;
    var min, max := c.minTimeMS, c.maxTimeMS;
    if min == 0 && max == 0 {
      OneIsTrue();
      w := RunPush(env, vm, [Int(1)] + rest);
      assert ([Int(1)] + rest)[1..] == rest;
    } else if max == 0 {
      w := RunMin(env, vm, rest, min);
    } else if min == 0 {
      w := RunMax(env, vm, rest, max);
    } else {
      w := RunBoth(env, vm, rest, min, max);
    }
  }

  lemma {:induction false} OneIsTrue()
    ensures Instr(Int(1)).data == BoolBytes(true)
  {
    hide Encode;
    SmallInt(1);
  }

  lemma {:induction false} RunBoth(env: Env, vm: VM, rest: seq<Item>, min: uint64, max: uint64) returns (w: VM)
    requires TimesInRange(env) && 0 < min <= MAX_INT64 && 0 < max <= MAX_INT64
    requires Loaded(vm, MinItems(min) + [Plain(OP_VERIFY)] + MaxItems(max) + rest) && vm.runLimit >= 128
    ensures Decides(env, vm, rest, w,
              && (env.minTimeMS.Some? && env.minTimeMS.value >= min)
              && env.maxTimeMS.Some? && LatestTime(env.maxTimeMS.value) <= max, 128)
  {
    hide Outcome, EncodeAll, Loaded, LatestTime, MinItems, MaxItems;
    var later := MaxItems(max) + rest;
    assert MinItems(min) + [Plain(OP_VERIFY)] + MaxItems(max) + rest == MinItems(min) + ([Plain(OP_VERIFY)] + later);
    var u := RunMin(env, vm, [Plain(OP_VERIFY)] + later, min);
    var v := env.minTimeMS.Some? && env.minTimeMS.value >= min;
    w := ThenVerify(env, vm, later, u, v, 13);
    if v {
      w := RunMax(env, w, rest, max);
    }
  }

  lemma {:induction false} RunPay(env: Env, vm: VM, rest: seq<Item>, c: Constraint) returns (w: VM)
    requires c.Pay? && InRange(c)
    requires Loaded(vm, CodeItems(env.crypto.sha3, c) + rest) && vm.runLimit >= Need(c)
    ensures Decides(env, vm, rest, w, Holds(env, c, vm.expansionReserved), Need(c))
  {
    hide Outcome, EncodeAll, Encode, AsInt64, Instr, WellFormed, Loaded;
    var s := vm.dataStack;
    var ref := if c.refDataHash.None? then [] else c.refDataHash.value;
    var i, a := Instr(Int(c.index)).data, Instr(Int(c.amount)).data;
    IntItem(c.index);
    IntItem(c.amount);
    DataItem(ref);
    DataItem(c.asset);
    DataItem(c.program);
    OneIsTrue();
    IntItem(1);
    var last := [Plain(OP_CHECKOUTPUT)] + rest;
    var later := [Data(c.asset), Int(1), Data(c.program)] + last;
    assert CodeItems(env.crypto.sha3, c) + rest == [Int(c.index), Data(ref), Int(c.amount)] + later;
    var w1 := PushThree(env, vm, Int(c.index), Data(ref), Int(c.amount), later);
    var w2 := PushThree(env, w1, Data(c.asset), Int(1), Data(c.program), last);
    w := RunCheckOutput(env, w2, last, s, i, ref, a, c.asset, BoolBytes(true), c.program, c.index, c.amount, 1);
    assert last[1..] == rest;
  }

  lemma {:induction false} PushThree(env: Env, vm: VM, a: Item, b: Item, c: Item, rest: seq<Item>) returns (w: VM)
    requires Loaded(vm, [a, b, c] + rest) && !a.Plain? && !b.Plain? && !c.Plain?
    requires vm.runLimit >= 27 + |Instr(a).data| + |Instr(b).data| + |Instr(c).data|
    ensures Loaded(w, rest) && CanRun(vm) && Outcome(env, vm) == Outcome(env, w)
    ensures w.dataStack == vm.dataStack + [Instr(a).data] + [Instr(b).data] + [Instr(c).data] && w.altStack == vm.altStack
    ensures w.runLimit == vm.runLimit - 27 - |Instr(a).data| - |Instr(b).data| - |Instr(c).data|
    ensures w.expansionReserved == vm.expansionReserved && w.depth == vm.depth
  {
    hide Outcome, EncodeAll, Instr, WellFormed;
    var items := [a, b, c] + rest;
    var w1 := RunPush(env, vm, items);
    assert items[1..] == [b, c] + rest;
    var w2 := RunPush(env, w1, items[1..]);
    assert items[1..][1..] == [c] + rest;
    w := RunPush(env, w2, items[1..][1..]);
    assert items[1..][1..][1..] == rest;
  }

  /** Each code() consumes nothing, and leaves true exactly when its constraint holds; otherwise it leaves false or fails. */
  lemma {:induction false} RunConstraint(env: Env, vm: VM, rest: seq<Item>, c: Constraint) returns (w: VM)
    requires InRange(c) && TimesInRange(env)
    requires Loaded(vm, CodeItems(env.crypto.sha3, c) + rest) && vm.runLimit >= Need(c)
    ensures Decides(env, vm, rest, w, Holds(env, c, vm.expansionReserved), Need(c))
  {
    hide Outcome, EncodeAll, Loaded;
    match c
    case Time(_, _) => w := RunTime(env, vm, rest, c);
    case OutputID(id) => w := DigestCompare(env, vm, rest, id, OP_OUTPUTID);
    case RefData(data, tx) =>
      w := DigestCompare(env, vm, rest, env.crypto.sha3(data), if tx then OP_TXDATA else OP_ENTRYDATA);
    case Pay(_, _, _, _, _) => w := RunPay(env, vm, rest, c);
  }

  // ---------------------------------------------------------------- the whole signature program

  /** The codes one after the other, with VERIFY between them. */
  function JoinItems(sha3: bytes -> Hash, cs: seq<Constraint>): seq<Item>
  {
    if cs == [] then []
    else if |cs| == 1 then CodeItems(sha3, cs[0])
    else CodeItems(sha3, cs[0]) + [Plain(OP_VERIFY)] + JoinItems(sha3, cs[1..])
  }

  function NeedAll(cs: seq<Constraint>): nat
  {
    if cs == [] then 0 else 1 + Need(cs[0]) + NeedAll(cs[1..])
  }

  predicate AllHold(env: Env, cs: seq<Constraint>, expansion: bool)
  {
    forall i :: 0 <= i < |cs| ==> Holds(env, cs[i], expansion)
  }

  /** The run ends with the old stack and true on top where v, and otherwise fails, or ends with false on top. */
  ghost predicate DecidesAll(vm: VM, v: bool, o: Option<Res<VM>>)
  {
    && o.Some?
    && (v ==> o.value.Go? && o.value.value.dataStack == vm.dataStack + [BoolBytes(true)] && o.value.value.altStack == vm.altStack)
    && (!v ==> o.value.Stop? || o.value.value.dataStack == vm.dataStack + [BoolBytes(false)])
  }

  /**
   * Compilation is correct: from any stack and with enough run limit, the program finishes with that stack
   * and true on top exactly when every constraint holds; otherwise it fails, or finishes with false on top.
   */
  lemma {:induction false} CompiledDecides(env: Env, vm: VM, cs: seq<Constraint>)
    requires cs != [] && TimesInRange(env) && forall i :: 0 <= i < |cs| ==> InRange(cs[i])
    requires Loaded(vm, JoinItems(env.crypto.sha3, cs)) && vm.runLimit >= NeedAll(cs)
    ensures DecidesAll(vm, AllHold(env, cs, vm.expansionReserved), Outcome(env, vm))
    decreases |cs|
  {
    hide Outcome, EncodeAll, Loaded, Holds, CodeItems, Need, InRange;
    var c := cs[0];
    var code := CodeItems(env.crypto.sha3, c);
    if |cs| == 1 {
      assert code + [] == code;
      var w := RunConstraint(env, vm, [], c);
      if Loaded(w, []) { Finished(env, w); }
    } else {
      var rest := JoinItems(env.crypto.sha3, cs[1..]);
      assert code + [Plain(OP_VERIFY)] + rest == code + ([Plain(OP_VERIFY)] + rest);
      var u := RunConstraint(env, vm, [Plain(OP_VERIFY)] + rest, c);
      var w := ThenVerify(env, vm, rest, u, Holds(env, c, vm.expansionReserved), Need(c));
      if Holds(env, c, vm.expansionReserved) {
        CompiledDecides(env, w, cs[1..]);
      }
      AllHoldSplits(env, cs, vm.expansionReserved);
    }
  }

  lemma {:induction false} AllHoldSplits(env: Env, cs: seq<Constraint>, expansion: bool)
    requires cs != []
    ensures AllHold(env, cs, expansion) == (Holds(env, cs[0], expansion) && AllHold(env, cs[1..], expansion))
  {
    hide Holds;
    if Holds(env, cs[0], expansion) && AllHold(env, cs[1..], expansion) {
      forall i | 0 <= i < |cs| ensures Holds(env, cs[i], expansion) {
        if i > 0 { assert cs[i] == cs[1..][i - 1]; }
      }
    }
    if AllHold(env, cs, expansion) {
      forall i | 0 <= i < |cs[1..]| ensures Holds(env, cs[1..][i], expansion) {
        assert cs[1..][i] == cs[i + 1];
      }
    }
  }
}
