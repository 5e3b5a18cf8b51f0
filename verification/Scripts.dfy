/** protocol/vmutil/script.go: multisig programs, and the parsers that read their keys and quorum back. */
module Scripts {
  import opened Basics
  import opened VmTypes
  import opened Opcodes
  import opened Machine
  import opened Programs
  import opened Assembly
  import opened CryptoOps

  datatype ScriptError = Vm(err: VmError) | BadParams | MultisigFormat

  datatype Parsed = Keys(keys: seq<bytes>, quorum: int) | Refused(err: ScriptError)

  /** checkMultiSigParams. */
  predicate GoodParams(nrequired: int, npubkeys: int)
  {
    0 <= nrequired <= npubkeys && (nrequired == 0 ==> npubkeys == 0)
  }

  function KeyItems(keys: seq<bytes>): (r: seq<Item>)
    ensures |r| == |keys| && forall i :: 0 <= i < |keys| ==> r[i] == Data(keys[i])
  {
    seq(|keys|, i requires 0 <= i < |keys| => Data(keys[i]))
  }

  /** BLOCKHASH <key>... <nrequired> <npubkeys> CHECKMULTISIG */
  function BlockItems(keys: seq<bytes>, nrequired: int64): seq<Item>
    requires |keys| <= MAX_INT64
  {
    [Plain(OP_BLOCKHASH)] + KeyItems(keys) + [Int(nrequired), Int(|keys|), Plain(OP_CHECKMULTISIG)]
  }

  const P2SP_HEAD: seq<Item> := [Plain(OP_DUP), Plain(OP_TOALTSTACK), Plain(OP_SHA3)]
  const P2SP_TAIL: seq<Item> :=
    [Plain(OP_CHECKMULTISIG), Plain(OP_VERIFY), Plain(OP_FROMALTSTACK), Int(0), Plain(OP_CHECKPREDICATE)]

  /** DUP TOALTSTACK SHA3 <key>... <nrequired> <npubkeys> CHECKMULTISIG VERIFY FROMALTSTACK 0 CHECKPREDICATE */
  function P2SPItems(keys: seq<bytes>, nrequired: int64): seq<Item>
    requires |keys| <= MAX_INT64
  {
    P2SP_HEAD + KeyItems(keys) + [Int(nrequired), Int(|keys|)] + P2SP_TAIL
  }

  // ---------------------------------------------------------------- builders

  lemma {:induction false} EncodeSnoc(items: seq<Item>, item: Item)
    ensures EncodeAll(items + [item]) == EncodeAll(items) + Encode(item)
  {
    hide Encode, EncodeAll;
    EncodeConcat(items, [item]);
    EncodeOne(item);
  }

  /** The loop that adds the keys. */
  method AddKeys(builder: Builder, keys: seq<bytes>, ghost before: seq<Item>)
    requires builder.program == EncodeAll(before)
    modifies builder
    ensures builder.program == EncodeAll(before + KeyItems(keys))
  {
    hide Encode, EncodeAll;
    assert before + [] == before;
    for i := 0 to |keys|
      invariant builder.program == EncodeAll(before + KeyItems(keys)[..i])
    {
      builder.AddData(keys[i]);
      EncodeSnoc(before + KeyItems(keys)[..i], Data(keys[i]));
      assert before + KeyItems(keys)[..i] + [Data(keys[i])] == before + KeyItems(keys)[..i + 1];
    }
    assert KeyItems(keys)[..|keys|] == KeyItems(keys);
  }

  method BlockMultiSigProgram(keys: seq<bytes>, nrequired: int64) returns (r: Option<bytes>)
    requires |keys| <= MAX_INT64
    ensures r == if GoodParams(nrequired, |keys|) then Some(EncodeAll(BlockItems(keys, nrequired))) else None
  {
    hide Encode, EncodeAll;
    if !GoodParams(nrequired, |keys|) {
      return None;
    }
    ghost var items := [Plain(OP_BLOCKHASH)];
    var builder := new Builder();
    builder.AddOp(OP_BLOCKHASH);
    EncodeOne(Plain(OP_BLOCKHASH));
    assert builder.program == EncodeAll(items);
    AddKeys(builder, keys, items);
    items := items + KeyItems(keys);
    builder.AddInt64(nrequired);
    EncodeSnoc(items, Int(nrequired));
    items := items + [Int(nrequired)];
    builder.AddInt64(|keys|);
    EncodeSnoc(items, Int(|keys|));
    items := items + [Int(|keys|)];
    builder.AddOp(OP_CHECKMULTISIG);
    EncodeSnoc(items, Plain(OP_CHECKMULTISIG));
    assert items + [Plain(OP_CHECKMULTISIG)] == BlockItems(keys, nrequired);
    return Some(builder.program);
  }

  method P2SPMultiSigProgram(keys: seq<bytes>, nrequired: int64) returns (r: Option<bytes>)
    requires |keys| <= MAX_INT64
    ensures r == if GoodParams(nrequired, |keys|) then Some(EncodeAll(P2SPItems(keys, nrequired))) else None
  {
    hide Encode, EncodeAll;
    if !GoodParams(nrequired, |keys|) {
      return None;
    }
    ghost var items := [Plain(OP_DUP)];
    var builder := new Builder();
    builder.AddOp(OP_DUP);
    EncodeOne(Plain(OP_DUP));
    assert builder.program == EncodeAll(items);
    builder.AddOp(OP_TOALTSTACK);
    EncodeSnoc(items, Plain(OP_TOALTSTACK));
    items := items + [Plain(OP_TOALTSTACK)];
    builder.AddOp(OP_SHA3);
    EncodeSnoc(items, Plain(OP_SHA3));
    items := items + [Plain(OP_SHA3)];
    AddKeys(builder, keys, items);
    items := items + KeyItems(keys);
    builder.AddInt64(nrequired);
    EncodeSnoc(items, Int(nrequired));
    items := items + [Int(nrequired)];
    builder.AddInt64(|keys|);
    EncodeSnoc(items, Int(|keys|));
    items := items + [Int(|keys|)];
    AddTail(builder, items);
    assert items + P2SP_TAIL == P2SPItems(keys, nrequired);
    return Some(builder.program);
  }

  method AddTail(builder: Builder, ghost before: seq<Item>)
    requires builder.program == EncodeAll(before)
    modifies builder
    ensures builder.program == EncodeAll(before + P2SP_TAIL)
  {
    hide Encode, EncodeAll;
    ghost var items := before;
    builder.AddOp(OP_CHECKMULTISIG);
    EncodeSnoc(items, Plain(OP_CHECKMULTISIG));
    items := items + [Plain(OP_CHECKMULTISIG)];
    builder.AddOp(OP_VERIFY);
    EncodeSnoc(items, Plain(OP_VERIFY));
    items := items + [Plain(OP_VERIFY)];
    builder.AddOp(OP_FROMALTSTACK);
    EncodeSnoc(items, Plain(OP_FROMALTSTACK));
    items := items + [Plain(OP_FROMALTSTACK)];
    builder.AddInt64(0);
    EncodeSnoc(items, Int(0));
    items := items + [Int(0)];
    builder.AddOp(OP_CHECKPREDICATE);
    EncodeSnoc(items, Plain(OP_CHECKPREDICATE));
    assert items + [Plain(OP_CHECKPREDICATE)] == before + P2SP_TAIL;
  }

  // ---------------------------------------------------------------- parsers

  function DataOf(pops: seq<Instruction>): (r: seq<bytes>)
    ensures |r| == |pops| && forall i :: 0 <= i < |pops| ==> r[i] == pops[i].data
  {
    seq(|pops|, i requires 0 <= i < |pops| => pops[i].data)
  }

  /** The key loop. A key of the wrong size ends it with no keys, no quorum and no error. */
  function CollectKeys(pops: seq<Instruction>, quorum: int): Parsed
  {
    if AllKeySized(DataOf(pops)) then Keys(DataOf(pops), quorum) else Keys([], 0)
  }

  method ComputeCollectKeys(pops: seq<Instruction>, quorum: int) returns (r: Parsed)
    ensures r == CollectKeys(pops, quorum)
  {
    var pubkeys := [];
    for i := 0 to |pops|
      invariant pubkeys == DataOf(pops)[..i] && AllKeySized(pubkeys)
    {
      if |pops[i].data| != PUBLIC_KEY_SIZE {
        assert |DataOf(pops)[i]| != PUBLIC_KEY_SIZE;
        return Keys([], 0);
      }
      pubkeys := pubkeys + [pops[i].data];
    }
    return Keys(pubkeys, quorum);
  }

  function ParseBlockMultiSig(script: bytes): Parsed
  {
    match ParseProgram(script)
    case Fail(e) => Refused(Vm(e))
    case Value(pops) =>
      var l := |pops|;
      if l < 4 then Refused(Vm(ShortProgram))
      else if pops[l - 1].op != OP_CHECKMULTISIG then Refused(MultisigFormat)
      else
        match AsInt64(pops[l - 2].data)
        case None => Refused(MultisigFormat)
        case Some(npubkeys) =>
          if npubkeys != l - 4 then Refused(Vm(ShortProgram))
          else
            match AsInt64(pops[l - 3].data)
            case None => Refused(MultisigFormat)
            case Some(nrequired) =>
              if !GoodParams(nrequired, npubkeys) then Refused(BadParams)
              else CollectKeys(pops[l - 3 - npubkeys..l - 3], nrequired)
  }

  function ParseP2SPMultiSig(program: bytes): Parsed
  {
    match ParseProgram(program)
    case Fail(e) => Refused(Vm(e))
    case Value(pops) =>
      var l := |pops|;
      if l < 11 then Refused(Vm(ShortProgram))
      else
        match AsInt64(pops[l - 6].data)
        case None => Refused(Vm(BadValue))
        case Some(npubkeys) =>
          if npubkeys > l - 10 then Refused(Vm(ShortProgram))
          else
            match AsInt64(pops[l - 7].data)
            case None => Refused(Vm(BadValue))
            case Some(nrequired) =>
              if !GoodParams(nrequired, npubkeys) then Refused(BadParams)
              else CollectKeys(pops[l - 7 - npubkeys..l - 7], nrequired)
  }

  /** ParseBlockMultiSigProgram, with its loops. */
  method ParseBlockMultiSigProgram(script: bytes) returns (r: Parsed)
    ensures r == ParseBlockMultiSig(script)
  {
    hide ParseProgram, AsInt64, CollectKeys;
    var parsed := ComputeParseProgram(script);
    if parsed.Fail? {
      return Refused(Vm(parsed.err));
    }
    var pops := parsed.value;
    var l := |pops|;
    if l < 4 {
      return Refused(Vm(ShortProgram));
    }
    if pops[l - 1].op != OP_CHECKMULTISIG {
      return Refused(MultisigFormat);
    }
    var npubkeys := AsInt64(pops[l - 2].data);
    if npubkeys.None? {
      return Refused(MultisigFormat);
    }
    if npubkeys.value != l - 4 {
      return Refused(Vm(ShortProgram));
    }
    var nrequired := AsInt64(pops[l - 3].data);
    if nrequired.None? {
      return Refused(MultisigFormat);
    }
    if !GoodParams(nrequired.value, npubkeys.value) {
      return Refused(BadParams);
    }
    r := ComputeCollectKeys(pops[l - 3 - npubkeys.value..l - 3], nrequired.value);
  }

  /** ParseP2SPMultiSigProgram, with its loops; it counts back from the end of the program. */
  method ParseP2SPMultiSigProgram(program: bytes) returns (r: Parsed)
    ensures r == ParseP2SPMultiSig(program)
  {
    hide ParseProgram, AsInt64, CollectKeys;
    var parsed := ComputeParseProgram(program);
    if parsed.Fail? {
      return Refused(Vm(parsed.err));
    }
    var pops := parsed.value;
    var l := |pops|;
    if l < 11 {
      return Refused(Vm(ShortProgram));
    }
    var npubkeys := AsInt64(pops[l - 6].data);
    if npubkeys.None? {
      return Refused(Vm(BadValue));
    }
    if npubkeys.value > l - 10 {
      return Refused(Vm(ShortProgram));
    }
    var nrequired := AsInt64(pops[l - 7].data);
    if nrequired.None? {
      return Refused(Vm(BadValue));
    }
    if !GoodParams(nrequired.value, npubkeys.value) {
      return Refused(BadParams);
    }
    r := ComputeCollectKeys(pops[l - 7 - npubkeys.value..l - 7], nrequired.value);
  }

  // ---------------------------------------------------------------- round trips

  lemma {:induction false} KeysReadBack(keys: seq<bytes>, pops: seq<Instruction>)
    requires pops == InstrAll(KeyItems(keys))
    ensures DataOf(pops) == keys
  {
    hide Encode;
  }

  /** Block programs: the keys and the quorum come back. */
  lemma {:induction false} BlockRoundTrip(keys: seq<bytes>, nrequired: int64)
    requires |keys| <= MAX_INT64 && GoodParams(nrequired, |keys|) && AllKeySized(keys)
    requires |EncodeAll(BlockItems(keys, nrequired))| <= MAX_INT32
    ensures ParseBlockMultiSig(EncodeAll(BlockItems(keys, nrequired))) == Keys(keys, nrequired)
  {
    hide EncodeAll, ParseProgram, Instr, AsInt64;
    var items := BlockItems(keys, nrequired);
    ParseBuilt(items);
    var pops := InstrAll(items);
    var l := |pops|;
    assert items[l - 1] == Plain(OP_CHECKMULTISIG) && items[l - 2] == Int(|keys|) && items[l - 3] == Int(nrequired);
    PlainInstr(OP_CHECKMULTISIG);
    IntReadsBack(|keys|);
    IntReadsBack(nrequired);
    assert pops[1..l - 3] == InstrAll(KeyItems(keys));
    KeysReadBack(keys, pops[1..l - 3]);
  }

  lemma {:induction false} PlainInstr(op: Op)
    ensures Instr(Plain(op)).op == op
  {
  }

  /**
   * Pay-to-signature-program locks, with any program that parses in front: the keys and the quorum come
   * back whenever there is a key or an instruction in front.
   */
  lemma {:induction false} P2SPRoundTrip(prefix: bytes, keys: seq<bytes>, nrequired: int64)
    requires |keys| <= MAX_INT64 && GoodParams(nrequired, |keys|) && AllKeySized(keys)
    requires ParseProgram(prefix).Value? && |prefix + EncodeAll(P2SPItems(keys, nrequired))| <= MAX_INT32
    ensures ParseP2SPMultiSig(prefix + EncodeAll(P2SPItems(keys, nrequired)))
         == if |keys| > 0 || ParseProgram(prefix).value != [] then Keys(keys, nrequired) else Refused(Vm(ShortProgram))
  {
    hide EncodeAll, ParseProgram, Instr, AsInt64;
    var items := P2SPItems(keys, nrequired);
    ParseBuilt(items);
    ParseConcat(prefix, EncodeAll(items));
    var front, pops := ParseProgram(prefix).value, InstrAll(items);
    var all := front + pops;
    var l := |all|;
    assert items[|items| - 6] == Int(|keys|) && items[|items| - 7] == Int(nrequired);
    assert all[l - 6] == pops[|items| - 6] && all[l - 7] == pops[|items| - 7];
    IntReadsBack(|keys|);
    IntReadsBack(nrequired);
    assert all[l - 7 - |keys|..l - 7] == InstrAll(KeyItems(keys));
    KeysReadBack(keys, all[l - 7 - |keys|..l - 7]);
  }
}
