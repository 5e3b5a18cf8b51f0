/** protocol/bc/legacy: transactions as bytes, written and read back. */
module WireTx {
  import opened Basics
  import opened WireCodec

  datatype SpendCommitment = SpendCommitment(
    sourceID: Hash, assetID: Hash, amount: nat, sourcePosition: nat, vmVersion: nat, controlProgram: bytes, refDataHash: Hash)

  datatype TypedInput =
    | Issuance(nonce: bytes, amount: nat, initialBlock: Hash, assetDefinition: bytes, vmVersion: nat, issuanceProgram: bytes,
               arguments: seq<bytes>)
    | Spend(commitment: SpendCommitment, commitmentSuffix: bytes, arguments: seq<bytes>)

  datatype Input = Input(assetVersion: nat, referenceData: bytes, typed: Option<TypedInput>, commitmentSuffix: bytes, witnessSuffix: bytes)

  datatype OutputCommitment = OutputCommitment(assetID: Hash, amount: nat, vmVersion: nat, controlProgram: bytes)

  datatype Output = Output(assetVersion: nat, commitment: OutputCommitment, commitmentSuffix: bytes, witnessSuffix: bytes, referenceData: bytes)

  datatype TxData = TxData(version: nat, inputs: seq<Input>, outputs: seq<Output>, minTime: nat, maxTime: nat, referenceData: bytes,
                           commonFieldsSuffix: bytes, commonWitnessSuffix: bytes)

  const SER_REQUIRED: byte := 7

  /** The id of an issued asset: issuance program, initial block, VM version and asset definition. */
  type AssetIDs = (bytes, Hash, nat, bytes) -> Hash

  function IssuedAsset(ids: AssetIDs, ii: TypedInput): Hash
    requires ii.Issuance?
  {
    ids(ii.issuanceProgram, ii.initialBlock, ii.vmVersion, ii.assetDefinition)
  }

  // ---------------------------------------------------------------- writers

  function WriteSpendContents(sc: SpendCommitment, suffix: bytes): Out
  {
    var amount :- WriteVarint63(sc.amount);
    var pos :- WriteVarint63(sc.sourcePosition);
    var ver :- WriteVarint63(sc.vmVersion);
    var prog :- WriteVarstr31(sc.controlProgram);
    Bytes(sc.sourceID + (sc.assetID + (amount + (pos + (ver + (prog + (sc.refDataHash + suffix)))))))
  }

  /** writeContents writes the suffix, and so does the extensible string around it. */
  function WriteSpendCommitment(sc: SpendCommitment, suffix: bytes): Out
  {
    var contents :- WriteSpendContents(sc, suffix);
    WriteExtensible(contents, suffix)
  }

  function WriteOutputContents(oc: OutputCommitment, suffix: bytes): Out
  {
    var amount :- WriteVarint63(oc.amount);
    var ver :- WriteVarint63(oc.vmVersion);
    var prog :- WriteVarstr31(oc.controlProgram);
    Bytes(oc.assetID + (amount + (ver + (prog + suffix))))
  }

  /** For an asset version other than 1 the commitment is the suffix alone. */
  function WriteOutputCommitment(assetVersion: nat, oc: OutputCommitment, suffix: bytes): Out
  {
    var contents :- if assetVersion == 1 then WriteOutputContents(oc, suffix) else Bytes(suffix);
    WriteExtensible(contents, suffix)
  }

  function WriteInputCommitment(ids: AssetIDs, typed: TypedInput): Out
  {
    match typed
    case Issuance(nonce, amount, _, _, _, _, _) =>
      var n :- WriteVarstr31(nonce);
      var a :- WriteVarint63(amount);
      Bytes([0] + (n + (IssuedAsset(ids, typed) + a)))
    case Spend(commitment, suffix, _) =>
      var c :- WriteSpendCommitment(commitment, suffix);
      Bytes([1] + c)
  }

  function WriteInputWitness(typed: TypedInput): Out
  {
    match typed
    case Issuance(_, _, block, definition, vmVersion, program, arguments) =>
      var d :- WriteVarstr31(definition);
      var v :- WriteVarint63(vmVersion);
      var p :- WriteVarstr31(program);
      var args :- WriteVarstrList(arguments);
      Bytes(block + (d + (v + (p + args))))
    case Spend(_, _, arguments) => WriteVarstrList(arguments)
  }

  function WriteInput(ids: AssetIDs, t: Input): Out
  {
    var typed := t.assetVersion == 1 && t.typed.Some?;
    var version :- WriteVarint63(t.assetVersion);
    var commitment :- if typed then WriteInputCommitment(ids, t.typed.value) else Bytes([]);
    var c :- WriteExtensible(commitment, t.commitmentSuffix);
    var ref :- WriteVarstr31(t.referenceData);
    var wit :- if typed then WriteInputWitness(t.typed.value) else Bytes([]);
    var w :- WriteExtensible(wit, t.witnessSuffix);
    Bytes(version + (c + (ref + w)))
  }

  /** The witness suffix of an output is not written. */
  function WriteOutput(o: Output): Out
  {
    var version :- WriteVarint63(o.assetVersion);
    var c :- WriteOutputCommitment(o.assetVersion, o.commitment, o.commitmentSuffix);
    var ref :- WriteVarstr31(o.referenceData);
    var w :- WriteVarstr31([]);
    Bytes(version + (c + (ref + w)))
  }

  function WriteInputs(ids: AssetIDs, ins: seq<Input>): Out
  {
    if ins == [] then Bytes([])
    else
      var first :- WriteInput(ids, ins[0]);
      var more :- WriteInputs(ids, ins[1..]);
      Bytes(first + more)
  }

  function WriteOutputs(outs: seq<Output>): Out
  {
    if outs == [] then Bytes([])
    else
      var first :- WriteOutput(outs[0]);
      var more :- WriteOutputs(outs[1..]);
      Bytes(first + more)
  }

  function WriteTimes(tx: TxData): Out
  {
    var min :- WriteVarint63(tx.minTime);
    var max :- WriteVarint63(tx.maxTime);
    WriteExtensible(min + max, tx.commonFieldsSuffix)
  }

  function WriteTx(ids: AssetIDs, tx: TxData): Out
  {
    var version :- WriteVarint63(tx.version);
    var times :- WriteTimes(tx);
    var wit :- WriteExtensible([], tx.commonWitnessSuffix);
    var nIn :- WriteVarint31(|tx.inputs|);
    var ins :- WriteInputs(ids, tx.inputs);
    var nOut :- WriteVarint31(|tx.outputs|);
    var outs :- WriteOutputs(tx.outputs);
    var ref :- WriteVarstr31(tx.referenceData);
    Bytes([SER_REQUIRED] + (version + (times + (wit + (nIn + (ins + (nOut + (outs + ref))))))))
  }

  // ---------------------------------------------------------------- readers

  function ReadSpendContents(buf: bytes): Read<SpendCommitment>
  {
    var (source, buf) :- ReadHash(buf);
    var (asset, buf) :- ReadHash(buf);
    var (amount, buf) :- ReadVarint63(buf);
    var (pos, buf) :- ReadVarint63(buf);
    var (ver, buf) :- ReadVarint63(buf);
    if ver != 1 then Failed
    else
      var (prog, buf) :- ReadVarstr31(buf);
      var (ref, buf) :- ReadHash(buf);
      Got(SpendCommitment(source, asset, amount, pos, ver, prog, ref), buf)
  }

  function ReadOutputContents(buf: bytes): Read<OutputCommitment>
  {
    var (asset, buf) :- ReadHash(buf);
    var (amount, buf) :- ReadVarint63(buf);
    var (ver, buf) :- ReadVarint63(buf);
    if ver != 1 then Failed
    else
      var (prog, buf) :- ReadVarstr31(buf);
      Got(OutputCommitment(asset, amount, ver, prog), buf)
  }

  const NO_OUTPUT := OutputCommitment(ZERO_HASH, 0, 0, [])

  /** The commitment and the unconsumed suffix. */
  function ReadOutputCommitment(buf: bytes, assetVersion: nat): Read<(OutputCommitment, bytes)>
  {
    var (s, buf) :- ReadVarstr31(buf);
    if assetVersion != 1 then Got((NO_OUTPUT, s), buf)
    else
      var (oc, suffix) :- ReadOutputContents(s);
      Got((oc, suffix), buf)
  }

  function ReadSpendCommitment(buf: bytes): Read<(SpendCommitment, bytes)>
  {
    var (s, buf) :- ReadVarstr31(buf);
    var (sc, suffix) :- ReadSpendContents(s);
    Got((sc, suffix), buf)
  }

  /** What the commitment of an input says, before its witness is read. */
  datatype Half = IssuanceHalf(nonce: bytes, assetID: Hash, amount: nat) | SpendHalf(commitment: SpendCommitment, suffix: bytes)

  function ReadInputCommitment(buf: bytes): Read<Half>
  {
    if buf == [] then Failed
    else if buf[0] == 0 then
      var (nonce, buf) :- ReadVarstr31(buf[1..]);
      var (asset, buf) :- ReadHash(buf);
      var (amount, buf) :- ReadVarint63(buf);
      Got(IssuanceHalf(nonce, asset, amount), buf)
    else if buf[0] == 1 then
      var (c, buf) :- ReadSpendCommitment(buf[1..]);
      Got(SpendHalf(c.0, c.1), buf)
    else Failed
  }

  function ReadInputWitness(ids: AssetIDs, half: Half, buf: bytes): Read<TypedInput>
  {
    match half
    case IssuanceHalf(nonce, asset, amount) =>
      var (block, buf) :- ReadHash(buf);
      var (definition, buf) :- ReadVarstr31(buf);
      var (ver, buf) :- ReadVarint63(buf);
      var (prog, buf) :- ReadVarstr31(buf);
      if ids(prog, block, ver, definition) != asset then Failed
      else
        var (args, buf) :- ReadVarstrList(buf);
        Got(Issuance(nonce, amount, block, definition, ver, prog, args), buf)
    case SpendHalf(commitment, suffix) =>
      var (args, buf) :- ReadVarstrList(buf);
      Got(Spend(commitment, suffix, args), buf)
  }

  function ReadInput(ids: AssetIDs, buf: bytes): Read<Input>
  {
    var (version, buf) :- ReadVarint63(buf);
    var (c, buf) :- ReadVarstr31(buf);
    if version != 1 then
      var (ref, buf) :- ReadVarstr31(buf);
      var (w, buf) :- ReadVarstr31(buf);
      Got(Input(version, ref, None, c, w), buf)
    else
      var (half, cSuffix) :- ReadInputCommitment(c);
      var (ref, buf) :- ReadVarstr31(buf);
      var (w, buf) :- ReadVarstr31(buf);
      var (typed, wSuffix) :- ReadInputWitness(ids, half, w);
      Got(Input(version, ref, Some(typed), cSuffix, wSuffix), buf)
  }

  /** The witness of an output is read and ignored. */
  function ReadOutput(buf: bytes): Read<Output>
  {
    var (version, buf) :- ReadVarint63(buf);
    var (c, buf) :- ReadOutputCommitment(buf, version);
    var (ref, buf) :- ReadVarstr31(buf);
    var (_, buf) :- ReadVarstr31(buf);
    Got(Output(version, c.0, c.1, [], ref), buf)
  }

  function ReadInputs(ids: AssetIDs, buf: bytes, n: nat): Read<seq<Input>>
    decreases n
  {
    if n == 0 then Got([], buf)
    else
      var (first, buf) :- ReadInput(ids, buf);
      var (more, buf) :- ReadInputs(ids, buf, n - 1);
      Got([first] + more, buf)
  }

  function ReadOutputs(buf: bytes, n: nat): Read<seq<Output>>
    decreases n
  {
    if n == 0 then Got([], buf)
    else
      var (first, buf) :- ReadOutput(buf);
      var (more, buf) :- ReadOutputs(buf, n - 1);
      Got([first] + more, buf)
  }

  /** The time bounds and the unconsumed suffix. */
  function ReadTimes(buf: bytes): Read<(nat, nat, bytes)>
  {
    var (s, buf) :- ReadVarstr31(buf);
    var (min, s) :- ReadVarint63(s);
    var (max, s) :- ReadVarint63(s);
    Got((min, max, s), buf)
  }

  function ReadTx(ids: AssetIDs, buf: bytes): Read<TxData>
  {
    if buf == [] || buf[0] != SER_REQUIRED then Failed
    else
      var (version, buf) :- ReadVarint63(buf[1..]);
      var (times, buf) :- ReadTimes(buf);
      var (wit, buf) :- ReadVarstr31(buf);
      var (nIn, buf) :- ReadVarint31(buf);
      var (ins, buf) :- ReadInputs(ids, buf, nIn);
      var (nOut, buf) :- ReadVarint31(buf);
      var (outs, buf) :- ReadOutputs(buf, nOut);
      var (ref, buf) :- ReadVarstr31(buf);
      Got(TxData(version, ins, outs, times.0, times.1, ref, times.2, wit), buf)
  }

  // ---------------------------------------------------------------- what comes back

  /** The suffix of a spend commitment is written twice and comes back twice. */
  function RereadTyped(typed: TypedInput): TypedInput
  {
    if typed.Spend? then Spend(typed.commitment, typed.commitmentSuffix + typed.commitmentSuffix, typed.arguments) else typed
  }

  function RereadInput(t: Input): Input
  {
    if t.typed.Some? then t.(typed := Some(RereadTyped(t.typed.value))) else t
  }

  /** So does that of an output commitment; the witness suffix is not written at all. */
  function RereadOutput(o: Output): Output
  {
    Output(o.assetVersion, if o.assetVersion == 1 then o.commitment else NO_OUTPUT, o.commitmentSuffix + o.commitmentSuffix, [],
           o.referenceData)
  }

  function RereadInputs(ins: seq<Input>): (r: seq<Input>)
    ensures |r| == |ins| && forall i :: 0 <= i < |ins| ==> r[i] == RereadInput(ins[i])
  {
    seq(|ins|, i requires 0 <= i < |ins| => RereadInput(ins[i]))
  }

  function RereadOutputs(outs: seq<Output>): (r: seq<Output>)
    ensures |r| == |outs| && forall i :: 0 <= i < |outs| ==> r[i] == RereadOutput(outs[i])
  {
    seq(|outs|, i requires 0 <= i < |outs| => RereadOutput(outs[i]))
  }

  /** What writing and reading makes of a transaction. */
  function Reread(tx: TxData): TxData
  {
    tx.(inputs := RereadInputs(tx.inputs), outputs := RereadOutputs(tx.outputs))
  }

  /** Asset version 1 goes with a typed input, and every commitment has VM version 1. */
  predicate ReadableInput(t: Input)
  {
    && (t.assetVersion == 1 <==> t.typed.Some?)
    && (t.typed.Some? && t.typed.value.Spend? ==> t.typed.value.commitment.vmVersion == 1)
  }

  predicate ReadableOutput(o: Output)
  {
    o.assetVersion == 1 ==> o.commitment.vmVersion == 1
  }

  predicate Readable(tx: TxData)
  {
    && (forall i :: 0 <= i < |tx.inputs| ==> ReadableInput(tx.inputs[i]))
    && (forall i :: 0 <= i < |tx.outputs| ==> ReadableOutput(tx.outputs[i]))
  }

  // ---------------------------------------------------------------- part by part

  lemma {:induction false} SpendContentsBack(sc: SpendCommitment, suffix: bytes, rest: bytes)
    requires WriteSpendContents(sc, suffix).Bytes? && sc.vmVersion == 1
    ensures ReadSpendContents(WriteSpendContents(sc, suffix).b + rest) == Got(sc, suffix + rest)
  {
    hide ReadVarint, WriteVarint, ReadVarstr31, WriteVarstr31, ReadHash;
    var amount, pos, ver := WriteVarint63(sc.amount).b, WriteVarint63(sc.sourcePosition).b, WriteVarint63(sc.vmVersion).b;
    var prog := WriteVarstr31(sc.controlProgram).b;
    var t7 := suffix + rest;
    var t6 := sc.refDataHash + t7;
    var t5 := prog + t6;
    var t4 := ver + t5;
    var t3 := pos + t4;
    var t2 := amount + t3;
    var t1 := sc.assetID + t2;
    assert WriteSpendContents(sc, suffix).b + rest == sc.sourceID + t1;
    HashRoundTrip(sc.sourceID, t1);
    HashRoundTrip(sc.assetID, t2);
    VarintRoundTrip(sc.amount, MAX_INT64, t3);
    VarintRoundTrip(sc.sourcePosition, MAX_INT64, t4);
    VarintRoundTrip(sc.vmVersion, MAX_INT64, t5);
    VarstrRoundTrip(sc.controlProgram, t6);
    HashRoundTrip(sc.refDataHash, t7);
  }

  lemma {:induction false} SpendCommitmentBack(sc: SpendCommitment, suffix: bytes, rest: bytes)
    requires WriteSpendCommitment(sc, suffix).Bytes? && sc.vmVersion == 1
    ensures ReadSpendCommitment(WriteSpendCommitment(sc, suffix).b + rest) == Got((sc, suffix + suffix), rest)
  {
    hide ReadVarstr31, WriteVarstr31, ReadSpendContents, WriteSpendContents;
    var contents := WriteSpendContents(sc, suffix).b;
    VarstrRoundTrip(contents + suffix, rest);
    SpendContentsBack(sc, suffix, suffix);
  }

  lemma {:induction false} OutputContentsBack(oc: OutputCommitment, suffix: bytes, rest: bytes)
    requires WriteOutputContents(oc, suffix).Bytes? && oc.vmVersion == 1
    ensures ReadOutputContents(WriteOutputContents(oc, suffix).b + rest) == Got(oc, suffix + rest)
  {
    hide ReadVarint, WriteVarint, ReadVarstr31, WriteVarstr31, ReadHash;
    var amount, ver, prog := WriteVarint63(oc.amount).b, WriteVarint63(oc.vmVersion).b, WriteVarstr31(oc.controlProgram).b;
    var t4 := suffix + rest;
    var t3 := prog + t4;
    var t2 := ver + t3;
    var t1 := amount + t2;
    assert WriteOutputContents(oc, suffix).b + rest == oc.assetID + t1;
    HashRoundTrip(oc.assetID, t1);
    VarintRoundTrip(oc.amount, MAX_INT64, t2);
    VarintRoundTrip(oc.vmVersion, MAX_INT64, t3);
    VarstrRoundTrip(oc.controlProgram, t4);
  }

  lemma {:induction false} OutputCommitmentBack(version: nat, oc: OutputCommitment, suffix: bytes, rest: bytes)
    requires WriteOutputCommitment(version, oc, suffix).Bytes? && (version == 1 ==> oc.vmVersion == 1)
    ensures ReadOutputCommitment(WriteOutputCommitment(version, oc, suffix).b + rest, version)
         == Got((if version == 1 then oc else NO_OUTPUT, suffix + suffix), rest)
  {
    hide ReadVarstr31, WriteVarstr31, ReadOutputContents, WriteOutputContents;
    if version == 1 {
      VarstrRoundTrip(WriteOutputContents(oc, suffix).b + suffix, rest);
      OutputContentsBack(oc, suffix, suffix);
    } else {
      VarstrRoundTrip(suffix + suffix, rest);
    }
  }

  /** The half of a typed input its commitment carries. */
  function HalfOf(ids: AssetIDs, typed: TypedInput): Half
  {
    match typed
    case Issuance(nonce, amount, _, _, _, _, _) => IssuanceHalf(nonce, IssuedAsset(ids, typed), amount)
    case Spend(c, suffix, _) => SpendHalf(c, suffix + suffix)
  }

  lemma {:induction false} InputCommitmentBack(ids: AssetIDs, typed: TypedInput, rest: bytes)
    requires WriteInputCommitment(ids, typed).Bytes? && (typed.Spend? ==> typed.commitment.vmVersion == 1)
    ensures ReadInputCommitment(WriteInputCommitment(ids, typed).b + rest) == Got(HalfOf(ids, typed), rest)
  {
    hide ReadVarint, WriteVarint, ReadVarstr31, WriteVarstr31, ReadHash, ReadSpendCommitment, WriteSpendCommitment;
    var buf := WriteInputCommitment(ids, typed).b + rest;
    match typed
    case Issuance(nonce, amount, _, _, _, _, _) =>
      var n, a, h := WriteVarstr31(nonce).b, WriteVarint63(amount).b, IssuedAsset(ids, typed);
      var t2 := a + rest;
      var t1 := h + t2;
      assert buf[1..] == n + t1;
      VarstrRoundTrip(nonce, t1);
      HashRoundTrip(h, t2);
      VarintRoundTrip(amount, MAX_INT64, rest);
    case Spend(c, suffix, _) =>
      assert buf[1..] == WriteSpendCommitment(c, suffix).b + rest;
      SpendCommitmentBack(c, suffix, rest);
  }

  lemma {:induction false} InputWitnessBack(ids: AssetIDs, typed: TypedInput, rest: bytes)
    requires WriteInputWitness(typed).Bytes?
    ensures ReadInputWitness(ids, HalfOf(ids, typed), WriteInputWitness(typed).b + rest) == Got(RereadTyped(typed), rest)
  {
    hide ReadVarint, WriteVarint, ReadVarstr31, WriteVarstr31, ReadHash, ReadVarstrList, WriteVarstrList;
    var buf := WriteInputWitness(typed).b + rest;
    match typed
    case Issuance(nonce, amount, block, definition, ver, prog, args) =>
      var d, v, p, l := WriteVarstr31(definition).b, WriteVarint63(ver).b, WriteVarstr31(prog).b, WriteVarstrList(args).b;
      var t4 := l + rest;
      var t3 := p + t4;
      var t2 := v + t3;
      var t1 := d + t2;
      assert buf == block + t1;
      HashRoundTrip(block, t1);
      VarstrRoundTrip(definition, t2);
      VarintRoundTrip(ver, MAX_INT64, t3);
      VarstrRoundTrip(prog, t4);
      VarstrListRoundTrip(args, rest);
    case Spend(_, _, args) => VarstrListRoundTrip(args, rest);
  }

  lemma {:induction false} InputBack(ids: AssetIDs, t: Input, rest: bytes)
    requires WriteInput(ids, t).Bytes? && ReadableInput(t)
    ensures ReadInput(ids, WriteInput(ids, t).b + rest) == Got(RereadInput(t), rest)
  {
    hide ReadVarint, WriteVarint, ReadVarstr31, WriteVarstr31, WriteInputCommitment, WriteInputWitness, ReadInputCommitment, ReadInputWitness;
    var version := WriteVarint63(t.assetVersion).b;
    var commitment := if t.typed.Some? then WriteInputCommitment(ids, t.typed.value).b else [];
    var wit := if t.typed.Some? then WriteInputWitness(t.typed.value).b else [];
    var c, ref, w := WriteVarstr31(commitment + t.commitmentSuffix).b, WriteVarstr31(t.referenceData).b, WriteVarstr31(wit + t.witnessSuffix).b;
    var t3 := w + rest;
    var t2 := ref + t3;
    var t1 := c + t2;
    assert WriteInput(ids, t).b + rest == version + t1;
    VarintRoundTrip(t.assetVersion, MAX_INT64, t1);
    VarstrRoundTrip(commitment + t.commitmentSuffix, t2);
    VarstrRoundTrip(t.referenceData, t3);
    VarstrRoundTrip(wit + t.witnessSuffix, rest);
    if t.typed.Some? {
      InputCommitmentBack(ids, t.typed.value, t.commitmentSuffix);
      InputWitnessBack(ids, t.typed.value, t.witnessSuffix);
    } else {
      assert [] + t.commitmentSuffix == t.commitmentSuffix && [] + t.witnessSuffix == t.witnessSuffix;
    }
  }

  lemma {:induction false} OutputBack(o: Output, rest: bytes)
    requires WriteOutput(o).Bytes? && ReadableOutput(o)
    ensures ReadOutput(WriteOutput(o).b + rest) == Got(RereadOutput(o), rest)
  {
    hide ReadVarint, WriteVarint, ReadVarstr31, WriteVarstr31, WriteOutputCommitment, ReadOutputCommitment;
    var version, c := WriteVarint63(o.assetVersion).b, WriteOutputCommitment(o.assetVersion, o.commitment, o.commitmentSuffix).b;
    var ref, w := WriteVarstr31(o.referenceData).b, WriteVarstr31([]).b;
    var t3 := w + rest;
    var t2 := ref + t3;
    var t1 := c + t2;
    assert WriteOutput(o).b + rest == version + t1;
    VarintRoundTrip(o.assetVersion, MAX_INT64, t1);
    OutputCommitmentBack(o.assetVersion, o.commitment, o.commitmentSuffix, t2);
    VarstrRoundTrip(o.referenceData, t3);
    VarstrRoundTrip([], rest);
  }

  lemma {:induction false} InputsBack(ids: AssetIDs, ins: seq<Input>, rest: bytes)
    requires WriteInputs(ids, ins).Bytes? && forall i :: 0 <= i < |ins| ==> ReadableInput(ins[i])
    ensures ReadInputs(ids, WriteInputs(ids, ins).b + rest, |ins|) == Got(RereadInputs(ins), rest)
    decreases |ins|
  {
    hide ReadInput, WriteInput, RereadInput, ReadableInput;
    if ins == [] {
      assert WriteInputs(ids, ins).b + rest == rest;
    } else {
      var first, more := WriteInput(ids, ins[0]).b, WriteInputs(ids, ins[1..]).b;
      assert first + more + rest == first + (more + rest);
      InputBack(ids, ins[0], more + rest);
      InputsBack(ids, ins[1..], rest);
      assert RereadInputs(ins) == [RereadInput(ins[0])] + RereadInputs(ins[1..]);
    }
  }

  lemma {:induction false} OutputsBack(outs: seq<Output>, rest: bytes)
    requires WriteOutputs(outs).Bytes? && forall i :: 0 <= i < |outs| ==> ReadableOutput(outs[i])
    ensures ReadOutputs(WriteOutputs(outs).b + rest, |outs|) == Got(RereadOutputs(outs), rest)
    decreases |outs|
  {
    hide ReadOutput, WriteOutput, RereadOutput, ReadableOutput;
    if outs == [] {
      assert WriteOutputs(outs).b + rest == rest;
    } else {
      var first, more := WriteOutput(outs[0]).b, WriteOutputs(outs[1..]).b;
      assert first + more + rest == first + (more + rest);
      OutputBack(outs[0], more + rest);
      OutputsBack(outs[1..], rest);
      assert RereadOutputs(outs) == [RereadOutput(outs[0])] + RereadOutputs(outs[1..]);
    }
  }

  lemma {:induction false} TimesBack(tx: TxData, rest: bytes)
    requires WriteTimes(tx).Bytes?
    ensures ReadTimes(WriteTimes(tx).b + rest) == Got((tx.minTime, tx.maxTime, tx.commonFieldsSuffix), rest)
  {
    hide ReadVarint, WriteVarint, ReadVarstr31, WriteVarstr31;
    var min, max, suffix := WriteVarint63(tx.minTime).b, WriteVarint63(tx.maxTime).b, tx.commonFieldsSuffix;
    VarstrRoundTrip(min + max + suffix, rest);
    assert min + max + suffix == min + (max + suffix);
    VarintRoundTrip(tx.minTime, MAX_INT64, max + suffix);
    VarintRoundTrip(tx.maxTime, MAX_INT64, suffix);
  }

  // ---------------------------------------------------------------- transactions

  /** Reading the written bytes, whatever follows them, gives the reread transaction and exactly what followed. */
  lemma {:induction false} TxBack(ids: AssetIDs, tx: TxData, rest: bytes)
    requires WriteTx(ids, tx).Bytes? && Readable(tx)
    ensures ReadTx(ids, WriteTx(ids, tx).b + rest) == Got(Reread(tx), rest)
  {
    hide ReadVarint, WriteVarint, ReadVarstr31, WriteVarstr31, ReadTimes, WriteTimes, ReadInputs, WriteInputs, ReadOutputs, WriteOutputs;
    hide ReadableInput, ReadableOutput, RereadInput, RereadOutput;
    var version, times, wit := WriteVarint63(tx.version).b, WriteTimes(tx).b, WriteVarstr31([] + tx.commonWitnessSuffix).b;
    var nIn, ins := WriteVarint31(|tx.inputs|).b, WriteInputs(ids, tx.inputs).b;
    var nOut, outs, ref := WriteVarint31(|tx.outputs|).b, WriteOutputs(tx.outputs).b, WriteVarstr31(tx.referenceData).b;
    var t7 := ref + rest;
    var t6 := outs + t7;
    var t5 := nOut + t6;
    var t4 := ins + t5;
    var t3 := nIn + t4;
    var t2 := wit + t3;
    var t1 := times + t2;
    var buf := WriteTx(ids, tx).b + rest;
    assert buf == [SER_REQUIRED] + (version + t1);
    assert buf[1..] == version + t1;
    VarintRoundTrip(tx.version, MAX_INT64, t1);
    TimesBack(tx, t2);
    VarstrRoundTrip([] + tx.commonWitnessSuffix, t3);
    assert [] + tx.commonWitnessSuffix == tx.commonWitnessSuffix;
    VarintRoundTrip(|tx.inputs|, MAX_INT32, t4);
    InputsBack(ids, tx.inputs, t5);
    VarintRoundTrip(|tx.outputs|, MAX_INT32, t6);
    OutputsBack(tx.outputs, t7);
    VarstrRoundTrip(tx.referenceData, rest);
  }

  /** What does not survive is absent: commitment suffixes of spends and outputs, output witness suffixes, other asset versions' commitments. */
  predicate PlainInput(t: Input)
  {
    t.typed.Some? && t.typed.value.Spend? ==> t.typed.value.commitmentSuffix == []
  }

  predicate PlainOutput(o: Output)
  {
    o.commitmentSuffix == [] && o.witnessSuffix == [] && (o.assetVersion != 1 ==> o.commitment == NO_OUTPUT)
  }

  predicate Plain(tx: TxData)
  {
    && (forall i :: 0 <= i < |tx.inputs| ==> PlainInput(tx.inputs[i]))
    && (forall i :: 0 <= i < |tx.outputs| ==> PlainOutput(tx.outputs[i]))
  }

  lemma {:induction false} RereadIsIdentity(tx: TxData)
    ensures Reread(tx) == tx <==> Plain(tx)
  {
    var r := Reread(tx);
    forall i | 0 <= i < |tx.inputs| ensures r.inputs[i] == tx.inputs[i] <==> PlainInput(tx.inputs[i]) {
      InputIsPlain(tx.inputs[i]);
    }
    forall i | 0 <= i < |tx.outputs| ensures r.outputs[i] == tx.outputs[i] <==> PlainOutput(tx.outputs[i]) {
      OutputIsPlain(tx.outputs[i]);
    }
    if Plain(tx) {
      assert r.inputs == tx.inputs && r.outputs == tx.outputs;
    }
  }

  lemma {:induction false} InputIsPlain(t: Input)
    ensures RereadInput(t) == t <==> PlainInput(t)
  {
    if t.typed.Some? && t.typed.value.Spend? {
      Twice(t.typed.value.commitmentSuffix);
    }
  }

  lemma {:induction false} OutputIsPlain(o: Output)
    ensures RereadOutput(o) == o <==> PlainOutput(o)
  {
    Twice(o.commitmentSuffix);
  }

  lemma {:induction false} Twice(s: bytes)
    ensures s + s == s <==> s == []
  {
    assert |s + s| == 2 * |s|;
  }

  // ---------------------------------------------------------------- what can be read at all

  lemma {:induction false} ReadTypedIsReadable(ids: AssetIDs, half: Half, buf: bytes)
    requires half.SpendHalf? ==> half.commitment.vmVersion == 1
    ensures var r := ReadInputWitness(ids, half, buf);
            r.Got? && r.value.Spend? ==> r.value.commitment.vmVersion == 1
  {
    hide ReadVarint, ReadVarstr31, ReadVarstrList, ReadHash;
  }

  lemma {:induction false} ReadHalfIsReadable(buf: bytes)
    ensures var r := ReadInputCommitment(buf);
            r.Got? && r.value.SpendHalf? ==> r.value.commitment.vmVersion == 1
  {
    hide ReadVarint, ReadVarstr31, ReadHash;
  }

  lemma {:induction false} ReadInputIsReadable(ids: AssetIDs, buf: bytes)
    ensures ReadInput(ids, buf).Got? ==> ReadableInput(ReadInput(ids, buf).value)
  {
    hide ReadVarint, ReadVarstr31, ReadInputCommitment, ReadInputWitness;
    var v := ReadVarint63(buf);
    if v.Got? {
      var c := ReadVarstr31(v.rest);
      if c.Got? && v.value == 1 {
        ReadHalfIsReadable(c.value);
        var half := ReadInputCommitment(c.value);
        var ref := ReadVarstr31(c.rest);
        if half.Got? && ref.Got? {
          var w := ReadVarstr31(ref.rest);
          if w.Got? { ReadTypedIsReadable(ids, half.value, w.value); }
        }
      }
    }
  }

  lemma {:induction false} ReadOutputIsReadable(buf: bytes)
    ensures ReadOutput(buf).Got? ==> ReadableOutput(ReadOutput(buf).value)
  {
    hide ReadVarint, ReadVarstr31, ReadHash;
  }

  lemma {:induction false} ReadInputsAreReadable(ids: AssetIDs, buf: bytes, n: nat)
    ensures ReadInputs(ids, buf, n).Got? ==>
              forall i :: 0 <= i < |ReadInputs(ids, buf, n).value| ==> ReadableInput(ReadInputs(ids, buf, n).value[i])
    decreases n
  {
    hide ReadInput, ReadableInput;
    if n > 0 {
      ReadInputIsReadable(ids, buf);
      var first := ReadInput(ids, buf);
      if first.Got? { ReadInputsAreReadable(ids, first.rest, n - 1); }
    }
  }

  lemma {:induction false} ReadOutputsAreReadable(buf: bytes, n: nat)
    ensures ReadOutputs(buf, n).Got? ==>
              forall i :: 0 <= i < |ReadOutputs(buf, n).value| ==> ReadableOutput(ReadOutputs(buf, n).value[i])
    decreases n
  {
    hide ReadOutput, ReadableOutput;
    if n > 0 {
      ReadOutputIsReadable(buf);
      var first := ReadOutput(buf);
      if first.Got? { ReadOutputsAreReadable(first.rest, n - 1); }
    }
  }

  /** Whatever the bytes, a transaction that is read has a typed input exactly for asset version 1, and VM version 1 commitments. */
  lemma {:induction false} WhatIsReadIsReadable(ids: AssetIDs, buf: bytes)
    ensures ReadTx(ids, buf).Got? ==> Readable(ReadTx(ids, buf).value)
  {
    hide ReadVarint, ReadVarstr31, ReadTimes, ReadInputs, ReadOutputs, ReadableInput, ReadableOutput;
    if ReadTx(ids, buf).Got? {
      var times := ReadTimes(ReadVarint63(buf[1..]).rest);
      var nIn := ReadVarint31(ReadVarstr31(times.rest).rest);
      ReadInputsAreReadable(ids, nIn.rest, nIn.value);
      var nOut := ReadVarint31(ReadInputs(ids, nIn.rest, nIn.value).rest);
      ReadOutputsAreReadable(nOut.rest, nOut.value);
    }
  }

  /** For everything that can be written, the round trip holds exactly for the plain and readable transactions. */
  lemma {:induction false} WireRoundTrip(ids: AssetIDs, tx: TxData, rest: bytes)
    requires WriteTx(ids, tx).Bytes?
    ensures ReadTx(ids, WriteTx(ids, tx).b + rest) == Got(tx, rest) <==> Plain(tx) && Readable(tx)
  {
    hide ReadTx, WriteTx, Reread, Plain, Readable;
    WhatIsReadIsReadable(ids, WriteTx(ids, tx).b + rest);
    RereadIsIdentity(tx);
    if Readable(tx) { TxBack(ids, tx, rest); }
  }
}
