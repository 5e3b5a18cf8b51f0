/**
  Legacy transactions and the entries that mapTx makes of them, one function per entry. The functions give
  the entry as it is first added: the witness fields that later loops fill in are still empty.
 */
module LegacyTx {
  import opened Basics
  import opened Entries
  import opened Opcodes
  import opened VmTypes

  datatype TxInput =
    | SpendInput(sourceId: Hash, value: AssetAmount, sourcePosition: nat, vmVersion: nat, controlProgram: bytes,
                 refDataHash: Hash, arguments: seq<bytes>, referenceData: bytes)
    | IssuanceInput(nonce: bytes, amount: nat, initialBlock: Hash, assetDefinition: bytes, vmVersion: nat,
                    issuanceProgram: bytes, arguments: seq<bytes>, referenceData: bytes)
    | UnknownInput  // an asset version other than 1: no typed input

  datatype TxOutput = TxOutput(value: AssetAmount, vmVersion: nat, controlProgram: bytes, referenceData: bytes)

  datatype TxData = TxData(version: nat, inputs: seq<TxInput>, outputs: seq<TxOutput>, minTime: nat, maxTime: nat,
                           referenceData: bytes)

  // ---------------------------------------------------------------- inputs

  /** The output being spent, rebuilt from what the input claims about it. */
  function PrevoutEntry(inp: TxInput): Entry
    requires inp.SpendInput?
  {
    Output(Some(ValueSource(Some(inp.sourceId), Some(inp.value), inp.sourcePosition)),
           Program(inp.vmVersion, inp.controlProgram), inp.refDataHash, None, 0)
  }

  function PrevoutId(env: Env, inp: TxInput): Hash
    requires inp.SpendInput?
  {
    env.EntryId(PrevoutEntry(inp))
  }

  function SpendWith(env: Env, inp: TxInput, ordinal: nat, dest: Option<ValueDestination>, anchored: Option<Hash>): Entry
    requires inp.SpendInput?
  {
    Spend(Some(PrevoutId(env, inp)), env.hashData(inp.referenceData), None, ordinal, dest, inp.arguments, anchored)
  }

  function SpendEntry(env: Env, inp: TxInput, ordinal: nat): Entry
    requires inp.SpendInput?
  {
    SpendWith(env, inp, ordinal, None, None)
  }

  function SpendId(env: Env, inp: TxInput): Hash
    requires inp.SpendInput?
  {
    env.EntryId(SpendEntry(env, inp, 0))
  }

  function Definition(env: Env, inp: TxInput): AssetDefinition
    requires inp.IssuanceInput?
  {
    AssetDefinition(inp.initialBlock, Program(inp.vmVersion, inp.issuanceProgram), env.hashData(inp.assetDefinition))
  }

  function IssuedValue(env: Env, inp: TxInput): AssetAmount
    requires inp.IssuanceInput?
  {
    AssetAmount(env.assetIdOf(Definition(env, inp)), inp.amount)
  }

  function TimeRangeEntry(td: TxData): Entry
  {
    TimeRange(td.minTime, td.maxTime, None)
  }

  function NonceProgram(env: Env, inp: TxInput): bytes
    requires inp.IssuanceInput?
  {
    PushdataBytes(inp.nonce) + [OP_DROP] + [OP_ASSET] + PushdataBytes(IssuedValue(env, inp).assetId) + [OP_EQUAL]
  }

  function NonceWith(env: Env, td: TxData, inp: TxInput, anchored: Option<Hash>): Entry
    requires inp.IssuanceInput?
  {
    Nonce(Program(1, NonceProgram(env, inp)), env.EntryId(TimeRangeEntry(td)), None, [], anchored)
  }

  function NonceEntry(env: Env, td: TxData, inp: TxInput): Entry
    requires inp.IssuanceInput?
  {
    NonceWith(env, td, inp, None)
  }

  function NonceId(env: Env, td: TxData, inp: TxInput): Hash
    requires inp.IssuanceInput?
  {
    env.EntryId(NonceEntry(env, td, inp))
  }

  predicate NoSpendBefore(td: TxData, i: nat)
    requires i <= |td.inputs|
  {
    forall k :: 0 <= k < i ==> !td.inputs[k].SpendInput?
  }

  /** The first spend, if there is one. */
  function FirstSpend(td: TxData, i: nat := 0): (f: Option<nat>)
    requires i <= |td.inputs| && NoSpendBefore(td, i)
    ensures f.Some? ==> f.value < |td.inputs| && td.inputs[f.value].SpendInput? && NoSpendBefore(td, f.value)
    ensures f.None? ==> NoSpendBefore(td, |td.inputs|)
    decreases |td.inputs| - i
  {
    if i == |td.inputs| then None
    else if td.inputs[i].SpendInput? then Some(i)
    else FirstSpend(td, i + 1)
  }

  /** An issuance with a nonce is anchored there, otherwise to the first spend, otherwise to nothing. */
  function AnchorId(env: Env, td: TxData, inp: TxInput): Hash
    requires inp.IssuanceInput?
  {
    if |inp.nonce| > 0 then NonceId(env, td, inp)
    else
      match FirstSpend(td)
      case Some(f) => SpendId(env, td.inputs[f])
      case None => ZERO_HASH
  }

  function IssuanceWith(env: Env, td: TxData, inp: TxInput, ordinal: nat, dest: Option<ValueDestination>): Entry
    requires inp.IssuanceInput?
  {
    Issuance(AnchorId(env, td, inp), IssuedValue(env, inp), env.hashData(inp.referenceData), None, ordinal,
             dest, Definition(env, inp), inp.arguments, None)
  }

  function IssuanceEntry(env: Env, td: TxData, inp: TxInput, ordinal: nat): Entry
    requires inp.IssuanceInput?
  {
    IssuanceWith(env, td, inp, ordinal, None)
  }

  function IssuanceId(env: Env, td: TxData, inp: TxInput): Hash
    requires inp.IssuanceInput?
  {
    env.EntryId(IssuanceEntry(env, td, inp, 0))
  }

  // ---------------------------------------------------------------- mux, results, header

  function MuxSource(env: Env, td: TxData, inp: TxInput): Option<ValueSource>
  {
    match inp
    case SpendInput(_, value, _, _, _, _, _, _) => Some(ValueSource(Some(SpendId(env, inp)), Some(value), 0))
    case IssuanceInput(_, _, _, _, _, _, _, _) =>
      Some(ValueSource(Some(IssuanceId(env, td, inp)), Some(IssuedValue(env, inp)), 0))
    case UnknownInput => None
  }

  function MuxSources(env: Env, td: TxData): seq<Option<ValueSource>>
  {
    seq(|td.inputs|, i requires 0 <= i < |td.inputs| => MuxSource(env, td, td.inputs[i]))
  }

  function MuxWith(env: Env, td: TxData, dests: seq<Option<ValueDestination>>): Entry
  {
    Mux(MuxSources(env, td), Program(1, [OP_TRUE]), None, dests, [])
  }

  function MuxEntry(env: Env, td: TxData): Entry
  {
    MuxWith(env, td, [])
  }

  function MuxId(env: Env, td: TxData): Hash
  {
    env.EntryId(MuxEntry(env, td))
  }

  predicate IsUnspendable(prog: bytes)
  {
    |prog| > 0 && prog[0] == OP_FAIL
  }

  function ResultEntry(env: Env, td: TxData, j: nat): Entry
    requires j < |td.outputs|
  {
    var out := td.outputs[j];
    var src := Some(ValueSource(Some(MuxId(env, td)), Some(out.value), j));
    if IsUnspendable(out.controlProgram) then Retirement(src, env.hashData(out.referenceData), None, j)
    else Output(src, Program(out.vmVersion, out.controlProgram), env.hashData(out.referenceData), None, j)
  }

  function ResultId(env: Env, td: TxData, j: nat): Hash
    requires j < |td.outputs|
  {
    env.EntryId(ResultEntry(env, td, j))
  }

  function ResultIds(env: Env, td: TxData): seq<Hash>
  {
    seq(|td.outputs|, j requires 0 <= j < |td.outputs| => ResultId(env, td, j))
  }

  function Destination(env: Env, td: TxData, j: nat): Option<ValueDestination>
    requires j < |td.outputs|
  {
    Some(ValueDestination(Some(ResultId(env, td, j)), Some(td.outputs[j].value), 0))
  }

  function Destinations(env: Env, td: TxData): seq<Option<ValueDestination>>
  {
    seq(|td.outputs|, j requires 0 <= j < |td.outputs| => Destination(env, td, j))
  }

  function HeaderEntry(env: Env, td: TxData): Entry
  {
    TxHeader(td.version, ResultIds(env, td), env.hashData(td.referenceData), td.minTime, td.maxTime, None)
  }

  // ---------------------------------------------------------------- all entries of a transaction

  ghost function InputBodies(env: Env, td: TxData, inp: TxInput): set<Entry>
  {
    match inp
    case SpendInput(_, _, _, _, _, _, _, _) => {Body(PrevoutEntry(inp)), Body(SpendEntry(env, inp, 0))}
    case IssuanceInput(nonce, _, _, _, _, _, _, _) =>
      {Body(IssuanceEntry(env, td, inp, 0))} + (if |nonce| > 0 then {Body(NonceEntry(env, td, inp)), TimeRangeEntry(td)} else {})
    case UnknownInput => {}
  }

  /** The bodies of all entries that mapTx adds. */
  ghost function Bodies(env: Env, td: TxData): set<Entry>
  {
    (set i, b | 0 <= i < |td.inputs| && b in InputBodies(env, td, td.inputs[i]) :: b)
    + (set j | 0 <= j < |td.outputs| :: Body(ResultEntry(env, td, j)))
    + {Body(MuxEntry(env, td)), HeaderEntry(env, td)}
  }

  /** The hashes of the transaction's entries do not collide and none is zero. */
  ghost predicate Hashable(env: Env, td: TxData)
  {
    && CollisionFree(env, Bodies(env, td))
    && forall b :: b in Bodies(env, td) ==> env.hashOf(b) != ZERO_HASH
  }

  // ---------------------------------------------------------------- what mapTx produces

  predicate IsSpend(env: Env, td: TxData, i: nat, id: Hash)
  {
    i < |td.inputs| && td.inputs[i].SpendInput? && SpendId(env, td.inputs[i]) == id
  }

  predicate IsIssuance(env: Env, td: TxData, i: nat, id: Hash)
  {
    i < |td.inputs| && td.inputs[i].IssuanceInput? && IssuanceId(env, td, td.inputs[i]) == id
  }

  /** Input i is an issuance anchored to the nonce with this identifier. */
  predicate UsesNonce(env: Env, td: TxData, i: nat, id: Hash)
  {
    i < |td.inputs| && td.inputs[i].IssuanceInput? && |td.inputs[i].nonce| > 0 && NonceId(env, td, td.inputs[i]) == id
  }

  /** Input i is an issuance without a nonce: it is anchored to the first spend. */
  predicate UsesSpend(td: TxData, i: nat)
  {
    i < |td.inputs| && td.inputs[i].IssuanceInput? && |td.inputs[i].nonce| == 0
  }

  // The last input below n of each kind: the one whose entry or mark the maps keep.

  function LastSpend(env: Env, td: TxData, id: Hash, n: nat): (r: Option<nat>)
    ensures r.Some? ==> r.value < n && IsSpend(env, td, r.value, id) && forall i :: r.value < i < n ==> !IsSpend(env, td, i, id)
    ensures r.None? ==> forall i :: 0 <= i < n ==> !IsSpend(env, td, i, id)
  {
    if n == 0 then None else if IsSpend(env, td, n - 1, id) then Some(n - 1) else LastSpend(env, td, id, n - 1)
  }

  function LastIssuance(env: Env, td: TxData, id: Hash, n: nat): (r: Option<nat>)
    ensures r.Some? ==> r.value < n && IsIssuance(env, td, r.value, id) && forall i :: r.value < i < n ==> !IsIssuance(env, td, i, id)
    ensures r.None? ==> forall i :: 0 <= i < n ==> !IsIssuance(env, td, i, id)
  {
    if n == 0 then None else if IsIssuance(env, td, n - 1, id) then Some(n - 1) else LastIssuance(env, td, id, n - 1)
  }

  function LastUser(env: Env, td: TxData, id: Hash, n: nat): (r: Option<nat>)
    ensures r.Some? ==> r.value < n && UsesNonce(env, td, r.value, id) && forall i :: r.value < i < n ==> !UsesNonce(env, td, i, id)
    ensures r.None? ==> forall i :: 0 <= i < n ==> !UsesNonce(env, td, i, id)
  {
    if n == 0 then None else if UsesNonce(env, td, n - 1, id) then Some(n - 1) else LastUser(env, td, id, n - 1)
  }

  function LastPlain(td: TxData, n: nat): (r: Option<nat>)
    ensures r.Some? ==> r.value < n && UsesSpend(td, r.value) && forall i :: r.value < i < n ==> !UsesSpend(td, i)
    ensures r.None? ==> forall i :: 0 <= i < n ==> !UsesSpend(td, i)
  {
    if n == 0 then None else if UsesSpend(td, n - 1) then Some(n - 1) else LastPlain(td, n - 1)
  }

  /** The destination of an input: its own position in the mux. */
  function ToMux(env: Env, td: TxData, value: AssetAmount, ordinal: nat): Option<ValueDestination>
  {
    Some(ValueDestination(Some(MuxId(env, td)), Some(value), ordinal))
  }

  /** What setAnchored leaves in a spend after the first n inputs: only the first spend is ever marked. */
  function SpendAnchored(env: Env, td: TxData, ordinal: nat, n: nat): Option<Hash>
  {
    match LastPlain(td, n)
    case Some(i) => if FirstSpend(td) == Some(ordinal) then Some(IssuanceId(env, td, td.inputs[i])) else None
    case None => None
  }

  ghost predicate SpendOf(env: Env, td: TxData, e: Entry, id: Hash, n: nat)
  {
    e.Spend? ==>
      && LastSpend(env, td, id, n) == Some(e.ordinal)
      && var inp := td.inputs[e.ordinal];
         e == SpendWith(env, inp, e.ordinal, ToMux(env, td, inp.value, e.ordinal), SpendAnchored(env, td, e.ordinal, |td.inputs|))
  }

  ghost predicate IssuanceOf(env: Env, td: TxData, e: Entry, id: Hash, n: nat)
  {
    e.Issuance? ==>
      && LastIssuance(env, td, id, n) == Some(e.ordinal)
      && var inp := td.inputs[e.ordinal];
         e == IssuanceWith(env, td, inp, e.ordinal, ToMux(env, td, IssuedValue(env, inp), e.ordinal))
  }

  ghost predicate NonceOf(env: Env, td: TxData, e: Entry, id: Hash, n: nat)
  {
    e.Nonce? ==>
      match LastUser(env, td, id, n)
      case Some(i) => e == NonceWith(env, td, td.inputs[i], Some(IssuanceId(env, td, td.inputs[i])))
      case None => false
  }

  /** Every key is the identifier of its entry, and the entries are exactly the transaction's. */
  ghost predicate HoldsBodies(env: Env, td: TxData, entries: map<Hash, Entry>)
  {
    && (forall id :: id in entries ==> env.EntryId(entries[id]) == id && Body(entries[id]) in Bodies(env, td))
    && (forall b :: b in Bodies(env, td) ==> env.hashOf(b) in entries)
  }

  /** The entry graph that mapTx builds for a legacy transaction. */
  ghost predicate MappedEntries(env: Env, td: TxData, entries: map<Hash, Entry>)
  {
    && HoldsBodies(env, td, entries)
    && MuxId(env, td) in entries && entries[MuxId(env, td)] == MuxWith(env, td, Destinations(env, td))
    && (forall j :: 0 <= j < |td.outputs| ==>
          ResultId(env, td, j) in entries && entries[ResultId(env, td, j)] == ResultEntry(env, td, j))
    && (forall id :: id in entries ==>
          && SpendOf(env, td, entries[id], id, |td.inputs|)
          && IssuanceOf(env, td, entries[id], id, |td.inputs|)
          && NonceOf(env, td, entries[id], id, |td.inputs|))
  }

  ghost function SpentIds(env: Env, td: TxData): set<Hash>
  {
    set i | 0 <= i < |td.inputs| && td.inputs[i].SpendInput? :: PrevoutId(env, td.inputs[i])
  }

  ghost function NonceIds(env: Env, td: TxData): set<Hash>
  {
    set i | 0 <= i < |td.inputs| && td.inputs[i].IssuanceInput? && |td.inputs[i].nonce| > 0 :: NonceId(env, td, td.inputs[i])
  }

  /** A list that names every element of a set once. */
  ghost predicate Lists(s: seq<Hash>, ids: set<Hash>)
  {
    (forall h :: h in s <==> h in ids) && forall i, j :: 0 <= i < j < |s| ==> s[i] != s[j]
  }

  /** MapTx */
  ghost predicate Mapped(env: Env, td: TxData, tx: Tx)
  {
    && tx.id == env.EntryId(HeaderEntry(env, td))
    && MappedEntries(env, td, tx.entries)
    && Lists(tx.spentOutputIds, SpentIds(env, td))
    && Lists(tx.nonceIds, NonceIds(env, td))
    && |tx.inputIds| == |td.inputs|
    && (forall id :: id in tx.entries && tx.entries[id].Spend? ==>
          tx.entries[id].ordinal < |td.inputs| && tx.inputIds[tx.entries[id].ordinal] == id)
    && (forall id :: id in tx.entries && tx.entries[id].Issuance? && tx.entries[id].anchorId in tx.entries ==>
          tx.entries[id].ordinal < |td.inputs| && tx.inputIds[tx.entries[id].ordinal] == id)
  }
}
