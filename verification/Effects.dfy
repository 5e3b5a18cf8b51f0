/**
  What every opcode but CHECKPREDICATE does to the stacks, as a table: the items it takes from the top, what it puts
  there instead, what it costs, and what it is refused for. There is no metering and no machine here.
 */
module Effects {
  import opened Basics
  import opened VmTypes
  import opened Opcodes
  import opened Machine
  import opened DataOps
  import opened CryptoOps
  import opened MultiSig
  import opened Interpreter

  /**
   * Does: `take` items go from the top of the data stack and `give` comes in their place, the last item on top; the
   * alternative stack becomes `alt`; execution goes on at `jump`, if given; `fee` is the price, apart from that of the
   * items themselves, and with a run limit below `need` there is no effect.
   */
  datatype Effect =
    | Does(take: nat, give: seq<bytes>, alt: seq<bytes>, jump: Option<nat>, fee: nat, need: int)
    | Refuses(err: VmError, need: int)

  /** The item k below the top. */
  function At(s: seq<bytes>, k: nat): bytes
    requires k < |s|
  {
    s[|s| - 1 - k]
  }

  /** An item that reads as an integer: at most eight bytes. */
  predicate IsInt(x: bytes)
  {
    |x| <= 8
  }

  function IntOf(x: bytes): int64
  {
    if IsInt(x) then AsInt64(x).value else 0
  }

  // ---------------------------------------------------------------- pushes and control

  function ControlEffect(op: Op, data: bytes, s: seq<bytes>, alt: seq<bytes>): Effect
    requires op == OP_JUMP || op == OP_JUMPIF ==> |data| == 4
  {
    if op == OP_FALSE then Does(0, [[]], alt, None, 1, 9)
    else if op == OP_1NEGATE then Does(0, [[255, 255, 255, 255, 255, 255, 255, 255]], alt, None, 1, 17)
    else if op <= OP_PUSHDATA4 || OP_1 <= op <= OP_16 then Does(0, [data], alt, None, 1, 9 + |data|)
    else if op == OP_NOP then Does(0, [], alt, None, 1, 1)
    else if op == OP_JUMP then Does(0, [], alt, Some(Uint(data)), 1, 1)
    else if op == OP_JUMPIF then
      if |s| < 1 then Refuses(DataStackUnderflow, 1)
      else Does(1, [], alt, if AsBool(At(s, 0)) then Some(Uint(data)) else None, 1, 1)
    else if op == OP_VERIFY then
      if |s| < 1 then Refuses(DataStackUnderflow, 1)
      else if AsBool(At(s, 0)) then Does(1, [], alt, None, 1, 1)
      else Refuses(VerifyFailed, 1)
    else Refuses(Return, 1)
  }

  // ---------------------------------------------------------------- the stacks

  function Moves(alt: seq<bytes>, take: nat, give: seq<bytes>, fee: nat, need: int): Effect
  {
    Does(take, give, alt, None, fee, need)
  }

  /** The items at the given depths, the first one lowest. */
  function Picked(s: seq<bytes>, depths: seq<nat>): (r: seq<bytes>)
    requires forall i :: 0 <= i < |depths| ==> depths[i] < |s|
    ensures |r| == |depths|
  {
    seq(|depths|, i requires 0 <= i < |depths| => At(s, depths[i]))
  }

  /** The top items, at least `take` of them, give way to those at the given depths. */
  function Arrange(s: seq<bytes>, alt: seq<bytes>, take: nat, depths: seq<nat>, fee: nat): Effect
    requires forall i :: 0 <= i < |depths| ==> depths[i] < take
  {
    if |s| < take then Refuses(DataStackUnderflow, fee) else Moves(alt, take, Picked(s, depths), fee, fee)
  }

  /** A block that starts n below the end of the stack is copied to the top, and paid for at once. */
  function Copy(s: seq<bytes>, alt: seq<bytes>, n: nat, block: nat, fee: nat): Effect
    requires block <= n
  {
    if |s| < n then Refuses(DataStackUnderflow, fee)
    else
      var items := s[|s| - n..|s| - n + block];
      Moves(alt, 0, items, fee, fee + StackCost(items))
  }

  function StackEffect(op: Op, s: seq<bytes>, alt: seq<bytes>): Effect
  {
    if op == OP_TOALTSTACK then ToAltEffect(s, alt)
    else if op == OP_FROMALTSTACK then FromAltEffect(s, alt)
    else if op == OP_2DROP then Arrange(s, alt, 2, [], 2)
    else if op == OP_2DUP then Copy(s, alt, 2, 2, 2)
    else if op == OP_3DUP then Copy(s, alt, 3, 3, 3)
    else if op == OP_2OVER then Copy(s, alt, 4, 2, 2)
    else if op == OP_2ROT then Arrange(s, alt, 6, [3, 2, 1, 0, 5, 4], 2)
    else if op == OP_2SWAP then Arrange(s, alt, 4, [1, 0, 3, 2], 2)
    else if op == OP_IFDUP then IfDupEffect(s, alt)
    else if op == OP_DEPTH then DepthEffect(s, alt)
    else if op == OP_DROP then Arrange(s, alt, 1, [], 1)
    else if op == OP_DUP then Copy(s, alt, 1, 1, 1)
    else if op == OP_NIP then Arrange(s, alt, 2, [0], 1)
    else if op == OP_OVER then Copy(s, alt, 2, 1, 1)
    else if op == OP_PICK then PickEffect(s, alt)
    else if op == OP_ROLL then RollEffect(s, alt)
    else if op == OP_ROT then Arrange(s, alt, 3, [1, 0, 2], 2)
    else if op == OP_SWAP then Arrange(s, alt, 2, [0, 1], 1)
    else TuckEffect(s, alt)
  }

  function ToAltEffect(s: seq<bytes>, alt: seq<bytes>): Effect
  {
    if |s| < 1 then Refuses(DataStackUnderflow, 2) else Does(1, [], alt + [At(s, 0)], None, 2, 2)
  }

  function FromAltEffect(s: seq<bytes>, alt: seq<bytes>): Effect
  {
    if alt == [] then Refuses(AltStackUnderflow, 2) else Does(0, [At(alt, 0)], alt[..|alt| - 1], None, 2, 2)
  }

  function IfDupEffect(s: seq<bytes>, alt: seq<bytes>): Effect
  {
    if |s| < 1 then Refuses(DataStackUnderflow, 1)
    else if AsBool(At(s, 0)) then Moves(alt, 0, [At(s, 0)], 1, 9 + |At(s, 0)|)
    else Moves(alt, 0, [], 1, 1)
  }

  function DepthEffect(s: seq<bytes>, alt: seq<bytes>): Effect
  {
    var depth := Int64Bytes(Signed(|s| % TWO_64));
    Moves(alt, 0, [depth], 1, 9 + |depth|)
  }

  function TuckEffect(s: seq<bytes>, alt: seq<bytes>): Effect
  {
    if |s| < 2 then Refuses(DataStackUnderflow, 1)
    else Moves(alt, 2, [At(s, 0), At(s, 1), At(s, 0)], 1, 9 + |At(s, 0)|)
  }

  /** The count on top says which item below it to copy; the price of the count is returned before the copy is paid for. */
  function PickEffect(s: seq<bytes>, alt: seq<bytes>): Effect
  {
    if |s| < 1 then Refuses(DataStackUnderflow, 2)
    else if !IsInt(At(s, 0)) then Refuses(BadValue, 2)
    else
      var n := IntOf(At(s, 0));
      if n < 0 || n == MAX_INT64 then Refuses(BadValue, 2)
      else if |s| < n + 2 then Refuses(DataStackUnderflow, 2)
      else
        var item := At(s, n + 1);
        Moves(alt, 1, [item], 2, if |item| > |At(s, 0)| then 2 + |item| - |At(s, 0)| else 2)
  }

  /** The count on top says which item below it comes to the top. */
  function RollEffect(s: seq<bytes>, alt: seq<bytes>): Effect
  {
    if |s| < 1 then Refuses(DataStackUnderflow, 2)
    else if !IsInt(At(s, 0)) then Refuses(BadValue, 2)
    else
      var n := IntOf(At(s, 0));
      if n < 0 || n == MAX_INT64 then Refuses(BadValue, 2)
      else if |s| < n + 2 then Refuses(DataStackUnderflow, 2)
      else Moves(alt, n + 2, s[|s| - 1 - n..|s| - 1] + [At(s, n + 1)], 2, 2)
  }

  // ---------------------------------------------------------------- strings

  function BytesEffect(op: Op, s: seq<bytes>, alt: seq<bytes>): Effect
  {
    if op == OP_CAT then CatEffect(false, s, alt)
    else if op == OP_SUBSTR then SubstrEffect(s, alt)
    else if op == OP_LEFT then SideEffect(true, s, alt)
    else if op == OP_RIGHT then SideEffect(false, s, alt)
    else if op == OP_SIZE then SizeEffect(s, alt)
    else if op == OP_INVERT then InvertEffect(s, alt)
    else if op == OP_CATPUSHDATA then CatEffect(true, s, alt)
    else PairEffect(op, s, alt)
  }

  function CatEffect(pushdata: bool, s: seq<bytes>, alt: seq<bytes>): Effect
  {
    if |s| < 2 then Refuses(DataStackUnderflow, 4)
    else
      var tail := if pushdata then PushdataBytes(At(s, 0)) else At(s, 0);
      Moves(alt, 2, [At(s, 1) + tail], 4, 4 + |At(s, 1)| + |At(s, 0)|)
  }

  function SizeEffect(s: seq<bytes>, alt: seq<bytes>): Effect
  {
    if |s| < 1 then Refuses(DataStackUnderflow, 1) else Moves(alt, 0, [Int64Bytes(Signed(|At(s, 0)| % TWO_64))], 1, 1)
  }

  function InvertEffect(s: seq<bytes>, alt: seq<bytes>): Effect
  {
    if |s| < 1 then Refuses(DataStackUnderflow, 1) else Moves(alt, 1, [Inverted(At(s, 0))], 1 + |At(s, 0)|, 1 + |At(s, 0)|)
  }

  /** AND, EQUAL and EQUALVERIFY cost by the shorter operand, OR and XOR by the longer. */
  function PairEffect(op: Op, s: seq<bytes>, alt: seq<bytes>): Effect
  {
    if |s| < 2 then Refuses(DataStackUnderflow, 1)
    else
      var a, b := At(s, 1), At(s, 0);
      var less := 1 + if |a| <= |b| then |a| else |b|;
      var more := 1 + if |a| <= |b| then |b| else |a|;
      if op == OP_AND then Moves(alt, 2, [Conjoined(a, b)], less, less)
      else if op == OP_OR then Moves(alt, 2, [Disjoined(a, b, false)], more, more)
      else if op == OP_XOR then Moves(alt, 2, [Disjoined(a, b, true)], more, more)
      else if op == OP_EQUAL then Moves(alt, 2, [BoolBytes(a == b)], less, less)
      else if a == b then Moves(alt, 2, [], less, less)
      else Refuses(VerifyFailed, less)
  }

  /** string, offset, size */
  function SubstrEffect(s: seq<bytes>, alt: seq<bytes>): Effect
  {
    if |s| < 1 then Refuses(DataStackUnderflow, 4)
    else if !IsInt(At(s, 0)) || IntOf(At(s, 0)) < 0 then Refuses(BadValue, 4)
    else
      var size := IntOf(At(s, 0));
      if |s| < 2 then Refuses(DataStackUnderflow, 4 + size)
      else if !IsInt(At(s, 1)) || IntOf(At(s, 1)) < 0 then Refuses(BadValue, 4 + size)
      else
        var offset := IntOf(At(s, 1));
        if |s| < 3 then Refuses(DataStackUnderflow, 4 + size)
        else if offset + size > MAX_INT64 || offset + size > |At(s, 2)| then Refuses(BadValue, 4 + size)
        else Moves(alt, 3, [At(s, 2)[offset..offset + size]], 4, 4 + size)
  }

  /** string, size */
  function SideEffect(left: bool, s: seq<bytes>, alt: seq<bytes>): Effect
  {
    if |s| < 1 then Refuses(DataStackUnderflow, 4)
    else if !IsInt(At(s, 0)) || IntOf(At(s, 0)) < 0 then Refuses(BadValue, 4)
    else
      var size := IntOf(At(s, 0));
      if |s| < 2 then Refuses(DataStackUnderflow, 4 + size)
      else
        var str := At(s, 1);
        if size > |str| then Refuses(BadValue, 4 + size)
        else Moves(alt, 2, [if left then str[..size] else str[|str| - size..]], 4, 4 + size)
  }

  // ---------------------------------------------------------------- numbers

  function NumericEffect(op: Op, s: seq<bytes>, alt: seq<bytes>): Effect
  {
    if op <= OP_0NOTEQUAL then UnaryEffect(op, s, alt)
    else if op == OP_LSHIFT then LshiftEffect(s, alt)
    else if op == OP_BOOLAND then BooleanEffect(true, s, alt)
    else if op == OP_BOOLOR then BooleanEffect(false, s, alt)
    else if op == OP_WITHIN then WithinEffect(s, alt)
    else BinaryEffect(op, s, alt)
  }

  function UnaryEffect(op: Op, s: seq<bytes>, alt: seq<bytes>): Effect
  {
    if |s| < 1 then Refuses(DataStackUnderflow, 2)
    else if !IsInt(At(s, 0)) then Refuses(BadValue, 2)
    else
      match UnaryValue(op, IntOf(At(s, 0)))
      case Fail(e) => Refuses(e, 2)
      case Value(item) => Moves(alt, 1, [item], 2, 2)
  }

  function BooleanEffect(both: bool, s: seq<bytes>, alt: seq<bytes>): Effect
  {
    if |s| < 2 then Refuses(DataStackUnderflow, 2)
    else
      var a, b := AsBool(At(s, 1)), AsBool(At(s, 0));
      Moves(alt, 2, [BoolBytes(if both then a && b else a || b)], 2, 2)
  }

  /** x, the lower bound, the upper bound, which is outside */
  function WithinEffect(s: seq<bytes>, alt: seq<bytes>): Effect
  {
    if |s| < 1 then Refuses(DataStackUnderflow, 4)
    else if !IsInt(At(s, 0)) then Refuses(BadValue, 4)
    else if |s| < 2 then Refuses(DataStackUnderflow, 4)
    else if !IsInt(At(s, 1)) then Refuses(BadValue, 4)
    else if |s| < 3 then Refuses(DataStackUnderflow, 4)
    else if !IsInt(At(s, 2)) then Refuses(BadValue, 4)
    else Moves(alt, 3, [BoolBytes(IntOf(At(s, 1)) <= IntOf(At(s, 2)) < IntOf(At(s, 0)))], 4, 4)
  }

  function BinaryEffect(op: Op, s: seq<bytes>, alt: seq<bytes>): Effect
  {
    var fee := if op == OP_MUL || op == OP_DIV || op == OP_MOD || op == OP_RSHIFT then 8 else 2;
    if |s| < 1 then Refuses(DataStackUnderflow, fee)
    else if !IsInt(At(s, 0)) then Refuses(BadValue, fee)
    else if |s| < 2 then Refuses(DataStackUnderflow, fee)
    else if !IsInt(At(s, 1)) then Refuses(BadValue, fee)
    else
      var x, y := IntOf(At(s, 1)), IntOf(At(s, 0));
      if op == OP_NUMEQUALVERIFY then
        if x == y then Moves(alt, 2, [], 2, 2) else Refuses(VerifyFailed, 2)
      else
        match BinaryValue(op, x, y)
        case Fail(e) => Refuses(e, fee)
        case Value(item) => Moves(alt, 2, [item], fee, fee)
  }

  function Shift(x: int, y: nat): int
  {
    x * Pow2(y)
  }

  /** A negative shift is refused before the shifted number is looked at. */
  function LshiftEffect(s: seq<bytes>, alt: seq<bytes>): Effect
  {
    if |s| < 1 then Refuses(DataStackUnderflow, 8)
    else if !IsInt(At(s, 0)) || IntOf(At(s, 0)) < 0 then Refuses(BadValue, 8)
    else if |s| < 2 then Refuses(DataStackUnderflow, 8)
    else if !IsInt(At(s, 1)) then Refuses(BadValue, 8)
    else
      var x, y := IntOf(At(s, 1)), IntOf(At(s, 0));
      if x == 0 then Moves(alt, 2, [Int64Bytes(0)], 8, 8)
      else if y >= 64 || !InInt64(Shift(x, y)) then Refuses(Range, 8)
      else Moves(alt, 2, [Int64Bytes(Shift(x, y))], 8, 8)
  }

  // ---------------------------------------------------------------- hashes and signatures

  function HashEffect(hash: bytes -> Hash, s: seq<bytes>, alt: seq<bytes>): Effect
  {
    if |s| < 1 then Refuses(DataStackUnderflow, 0)
    else
      var x := At(s, 0);
      var fee := if |x| < 64 then 64 else |x|;
      // the price of the item is returned first, then the fee and the price of the hash are charged
      Moves(alt, 1, [hash(x)], fee, fee + 32 - |x|)
  }

  /** signature, message, key */
  function CheckSigEffect(c: Crypto, s: seq<bytes>, alt: seq<bytes>): Effect
  {
    if |s| < 3 then Refuses(DataStackUnderflow, 1024)
    else
      var sig, msg, key := At(s, 2), At(s, 1), At(s, 0);
      if |msg| != 32 then Refuses(BadValue, 1024)
      else Moves(alt, 3, [BoolBytes(|key| == 32 && c.verify(key, msg, sig))], 1024, 1024)
  }

  /** The price of n keys. */
  function KeyFee(n: int): int
  {
    1024 * n
  }

  /** signatures, message, keys, the number of signatures, the number of keys */
  ghost function MultiSigEffect(c: Crypto, s: seq<bytes>, alt: seq<bytes>): Effect
  {
    if |s| < 1 then Refuses(DataStackUnderflow, 0)
    else if !IsInt(At(s, 0)) then Refuses(BadValue, 0)
    else
      var n := IntOf(At(s, 0));
      var fee := KeyFee(n);
      if n < 0 || fee > MAX_INT64 then Refuses(BadValue, 0)
      else if |s| < 2 then Refuses(DataStackUnderflow, fee)
      else if !IsInt(At(s, 1)) then Refuses(BadValue, fee)
      else
        var m := IntOf(At(s, 1));
        if m < 0 || m > n || (n > 0 && m == 0) then Refuses(BadValue, fee)
        else if |s| < n + 3 then Refuses(DataStackUnderflow, fee)
        else if |At(s, n + 2)| != 32 then Refuses(BadValue, fee)
        else if |s| < n + m + 3 then Refuses(DataStackUnderflow, fee)
        else Moves(alt, n + m + 3, [BoolBytes(SignaturesMatch(c, s, n, m))], fee, fee)
  }

  /** All keys have the right size, and the signatures match keys in the order both were pushed. */
  ghost predicate SignaturesMatch(c: Crypto, s: seq<bytes>, n: nat, m: nat)
    requires n + m + 3 <= |s|
  {
    var keys, msg, sigs := s[|s| - 2 - n..|s| - 2], At(s, n + 2), s[|s| - 3 - n - m..|s| - 3 - n];
    AllKeySized(keys) && Matchable(c, msg, keys, sigs)
  }

  // ---------------------------------------------------------------- the context

  function Number(n: Option<uint64>): Option<bytes>
  {
    if n.None? then None else Some(Int64Bytes(Signed(n.value)))
  }

  /** The field of the context that an opcode pushes; a maximum time that is absent from the transaction is the largest. */
  function Field(env: Env, op: Op): Option<bytes>
  {
    if op == OP_ASSET then env.assetID
    else if op == OP_AMOUNT then Number(env.amount)
    else if op == OP_PROGRAM then Some(env.code)
    else if op == OP_MINTIME then Number(env.minTimeMS)
    else if op == OP_MAXTIME then
      if env.maxTimeMS.Some? && !(1 <= env.maxTimeMS.value <= MAX_INT64) then Some(Int64Bytes(MAX_INT64)) else Number(env.maxTimeMS)
    else if op == OP_TXDATA then env.txData
    else if op == OP_ENTRYDATA then env.entryData
    else if op == OP_INDEX then Number(env.destPos)
    else if op == OP_ENTRYID then Some(env.entryID)
    else if op == OP_OUTPUTID then env.spentOutputID
    else if op == OP_NONCE then env.anchorID
    else if op == OP_NEXTPROGRAM then env.nextConsensusProgram
    else if op == OP_BLOCKTIME then Number(env.blockTimeMS)
    else if op == OP_TXSIGHASH then env.txSigHash
    else env.blockHash
  }

  /** The two hashes are paid for at once, the other fields at the end of the step. */
  function FieldEffect(env: Env, op: Op, s: seq<bytes>, alt: seq<bytes>): Effect
  {
    var field := Field(env, op);
    var fee := if op == OP_TXSIGHASH then 256 else 1;
    if field.None? then Refuses(Context, fee)
    else Moves(alt, 0, [field.value], fee, if op == OP_TXSIGHASH || op == OP_BLOCKHASH then fee + 8 + |field.value| else fee)
  }

  function NaturalOf(x: bytes): nat
  {
    if IntOf(x) >= 0 then IntOf(x) else 0
  }

  /** A natural number at the given depth: missing, or not one. */
  function NaturalMissing(s: seq<bytes>, k: nat): (r: Option<VmError>)
    ensures r.None? ==> k < |s|
  {
    if |s| <= k then Some(DataStackUnderflow)
    else if !IsInt(At(s, k)) || IntOf(At(s, k)) < 0 then Some(BadValue)
    else None
  }

  /** index, data, amount, asset, version, program */
  function CheckOutputEffect(env: Env, expansion: bool, s: seq<bytes>, alt: seq<bytes>): Effect
  {
    if |s| < 1 then Refuses(DataStackUnderflow, 16)
    else if NaturalMissing(s, 1).Some? then Refuses(NaturalMissing(s, 1).value, 16)
    else if |s| < 3 then Refuses(DataStackUnderflow, 16)
    else if NaturalMissing(s, 3).Some? then Refuses(NaturalMissing(s, 3).value, 16)
    else if |s| < 5 then Refuses(DataStackUnderflow, 16)
    else if NaturalMissing(s, 5).Some? then Refuses(NaturalMissing(s, 5).value, 16)
    else if env.checkOutput.None? then Refuses(Context, 16)
    else
      var verdict := env.checkOutput.value(NaturalOf(At(s, 5)), At(s, 4), NaturalOf(At(s, 3)), At(s, 2), NaturalOf(At(s, 1)), At(s, 0), expansion);
      if verdict.None? then Refuses(CheckOutputError, 16) else Moves(alt, 6, [BoolBytes(verdict.value)], 16, 16)
  }

  // ---------------------------------------------------------------- all of them

  /** A byte that is no opcode does nothing for one unit, unless the transaction's version forbids it. */
  function ExpansionEffect(reserved: bool, alt: seq<bytes>): Effect
  {
    if reserved then Refuses(DisallowedOpcode, 0) else Moves(alt, 0, [], 1, 1)
  }

  ghost function EffectOf(env: Env, op: Op, data: bytes, expansion: bool, s: seq<bytes>, alt: seq<bytes>): Effect
    requires op == OP_JUMP || op == OP_JUMPIF ==> |data| == 4
  {
    if IsExpansion(op) then ExpansionEffect(expansion, alt)
    else if op < OP_TOALTSTACK then ControlEffect(op, data, s, alt)
    else if op <= OP_TUCK then StackEffect(op, s, alt)
    else if op <= OP_CATPUSHDATA then BytesEffect(op, s, alt)
    else if op <= OP_WITHIN then NumericEffect(op, s, alt)
    else if op == OP_SHA256 then HashEffect(env.crypto.sha256, s, alt)
    else if op == OP_SHA3 then HashEffect(env.crypto.sha3, s, alt)
    else if op == OP_CHECKSIG then CheckSigEffect(env.crypto, s, alt)
    else if op == OP_CHECKMULTISIG then MultiSigEffect(env.crypto, s, alt)
    else if op == OP_CHECKOUTPUT then CheckOutputEffect(env, expansion, s, alt)
    else FieldEffect(env, op, s, alt)
  }
}
