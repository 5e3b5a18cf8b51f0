/**
  checkValid without its cache, as a recursive function over the entry graph: the reference that the
  memoised checker of module Checker is proved to refine.
 */
module Validation {
  import opened Basics
  import opened Entries

  function ExtHashOk(extHash: Option<Hash>): bool
  {
    extHash.None? || extHash.value == ZERO_HASH
  }

  /** errNonemptyExtHash when the version is 1 and the extension hash is neither absent nor zero. */
  function CheckExt(version: nat, extHash: Option<Hash>): Verdict
  {
    if version == 1 && !ExtHashOk(extHash) then Err(NonemptyExtHash) else Ok
  }

  function Version(tx: Tx): nat
    requires tx.id in tx.entries && tx.entries[tx.id].TxHeader?
  {
    tx.entries[tx.id].version
  }

  // ---------------------------------------------------------------- balance of a mux

  function ParityAt(parity: map<AssetId, int>, a: AssetId): int
  {
    if a in parity then parity[a] else 0
  }

  datatype Parity = Totals(parity: map<AssetId, int>) | Failed(error: Error)

  /** The first loop: add every source, checking each sum. */
  function AddSources(sources: seq<AssetAmount>): Parity
  {
    if sources == [] then Totals(map[])
    else
      match AddSources(sources[..|sources| - 1])
      case Failed(e) => Failed(e)
      case Totals(parity) =>
        var v := sources[|sources| - 1];
        var sum := ParityAt(parity, v.assetId) + AsSigned(v.amount);
        if InInt64(sum) then Totals(parity[v.assetId := sum]) else Failed(Overflow)
  }

  /** The second loop: subtract every destination, which must have a source. */
  function SubDests(start: map<AssetId, int>, dests: seq<AssetAmount>): Parity
  {
    if dests == [] then Totals(start)
    else
      match SubDests(start, dests[..|dests| - 1])
      case Failed(e) => Failed(e)
      case Totals(parity) =>
        var v := dests[|dests| - 1];
        if v.assetId !in parity then Failed(NoSource)
        else
          var diff := parity[v.assetId] - AsSigned(v.amount);
          if InInt64(diff) then Totals(parity[v.assetId := diff]) else Failed(Overflow)
  }

  /** The third loop: every asset must end at zero. */
  function CheckParity(sources: seq<AssetAmount>, dests: seq<AssetAmount>): Verdict
  {
    match AddSources(sources)
    case Failed(e) => Err(e)
    case Totals(added) =>
      match SubDests(added, dests)
      case Failed(e) => Err(e)
      case Totals(parity) => if forall a :: a in parity ==> parity[a] == 0 then Ok else Err(Unbalanced)
  }

  // ---------------------------------------------------------------- links between entries

  predicate HasValue(s: Option<ValueSource>)
  {
    s.Some? && s.value.value.Some?
  }

  predicate HasDestValue(d: Option<ValueDestination>)
  {
    d.Some? && d.value.value.Some?
  }

  function SourceValues(sources: seq<Option<ValueSource>>): seq<AssetAmount>
    requires forall i :: 0 <= i < |sources| ==> HasValue(sources[i])
  {
    seq(|sources|, i requires 0 <= i < |sources| && HasValue(sources[i]) => sources[i].value.value.value)
  }

  function DestValues(dests: seq<Option<ValueDestination>>): seq<AssetAmount>
    requires forall i :: 0 <= i < |dests| ==> HasDestValue(dests[i])
  {
    seq(|dests|, i requires 0 <= i < |dests| && HasDestValue(dests[i]) => dests[i].value.value.value)
  }

  datatype Found<T> = Found(item: T) | NotFound(error: Error)

  /** The destination that an entry declares for a source reading it at a position. */
  function DestinationOf(e: Entry, position: nat): Found<Option<ValueDestination>>
  {
    match e
    case Issuance(_, _, _, _, _, d, _, _, _) => if position != 0 then NotFound(Position) else Found(d)
    case Spend(_, _, _, _, d, _, _) => if position != 0 then NotFound(Position) else Found(d)
    case Mux(_, _, _, ds, _) => if position >= |ds| then NotFound(Position) else Found(ds[position])
    case _ => NotFound(EntryType)
  }

  /** The source that an entry declares for a destination feeding it at a position. */
  function SourceOf(e: Entry, position: nat): Found<Option<ValueSource>>
  {
    match e
    case Output(s, _, _, _, _) => if position != 0 then NotFound(Position) else Found(s)
    case Retirement(s, _, _, _) => if position != 0 then NotFound(Position) else Found(s)
    case Mux(ss, _, _, _, _) => if position >= |ss| then NotFound(Position) else Found(ss[position])
    case _ => NotFound(EntryType)
  }

  /** The comparison at the end of checkValidSrc: the destination must point back at (id, position). */
  function DestAgrees(dest: Option<ValueDestination>, id: Hash, position: nat, value: AssetAmount): Verdict
  {
    match dest
    case None => Err(NilDereference)
    case Some(d) =>
      if d.ref != Some(id) then Err(MismatchedReference)
      else if d.position != position then Err(MismatchedPosition)
      else if d.value.None? then Err(MissingField)
      else if d.value.value != value then Err(MismatchedValue)
      else Ok
  }

  /** The comparison at the end of checkValidDest. */
  function SourceAgrees(source: Option<ValueSource>, id: Hash, position: nat, value: AssetAmount): Verdict
  {
    match source
    case None => Err(NilDereference)
    case Some(s) =>
      if s.ref != Some(id) then Err(MismatchedReference)
      else if s.position != position then Err(MismatchedPosition)
      else if s.value.None? then Err(MissingField)
      else if s.value.value != value then Err(MismatchedValue)
      else Ok
  }

  /** checkValidDest: does not recurse. */
  function CheckDest(tx: Tx, id: Hash, destPos: nat, dest: Option<ValueDestination>): Verdict
  {
    match dest
    case None => Err(MissingField)
    case Some(d) =>
      if d.ref.None? || d.value.None? then Err(MissingField)
      else if d.ref.value !in tx.entries then Err(MissingEntry)
      else
        match SourceOf(tx.entries[d.ref.value], d.position)
        case NotFound(e) => Err(e)
        case Found(s) => SourceAgrees(s, id, destPos, d.value.value)
  }

  /** The mux destinations, in order, stopping at the first failure. */
  function CheckDests(tx: Tx, id: Hash, dests: seq<Option<ValueDestination>>): Verdict
  {
    if dests == [] then Ok
    else
      match CheckDests(tx, id, dests[..|dests| - 1])
      case Err(e) => Err(e)
      case Ok => CheckDest(tx, id, |dests| - 1, dests[|dests| - 1])
  }

  /** What is checked of a source once the entry it reads is known to be valid. */
  function CheckSrcLink(tx: Tx, id: Hash, sourcePos: nat, src: ValueSource): Verdict
    requires src.ref.Some? && src.value.Some? && src.ref.value in tx.entries
  {
    match DestinationOf(tx.entries[src.ref.value], src.position)
    case NotFound(e) => Err(e)
    case Found(d) => DestAgrees(d, id, sourcePos, src.value.value)
  }

  /** The spend's own checks before its destination: prevout present, program, equal value. */
  function CheckSpend(env: Env, tx: Tx, e: Entry): Verdict
    requires e.Spend?
  {
    if e.spentOutputId.None? then Err(MissingField)
    else if e.spentOutputId.value !in tx.entries then Err(MissingEntry)
    else
      match tx.entries[e.spentOutputId.value]
      case Output(source, prog, _, _, _) =>
        if !env.verify(tx, e, prog, e.witnessArguments) then Err(VMFailure)
        else if source.None? || e.witnessDestination.None? then Err(NilDereference)
        else if source.value.value.None? || e.witnessDestination.value.value.None? then Err(MissingField)
        else if source.value.value != e.witnessDestination.value.value then Err(MismatchedValue)
        else Ok
      case _ => Err(EntryType)
  }

  function AnchoredId(e: Entry): Found<Option<Hash>>
  {
    match e
    case Nonce(_, _, _, _, a) => Found(a)
    case Spend(_, _, _, _, _, _, a) => Found(a)
    case Issuance(_, _, _, _, _, _, _, _, a) => Found(a)
    case _ => NotFound(EntryType)
  }

  /** The issuance's own checks before its anchor is validated. */
  function CheckIssuance(env: Env, tx: Tx, id: Hash, e: Entry): Verdict
    requires e.Issuance?
  {
    if e.witnessAssetDefinition.initialBlockId != env.blockchainId then Err(WrongBlockchain)
    else if env.assetIdOf(e.witnessAssetDefinition) != e.value.assetId then Err(MismatchedAssetId)
    else if e.anchorId !in tx.entries then Err(MissingEntry)
    else if !env.verify(tx, e, e.witnessAssetDefinition.issuanceProgram, e.witnessArguments) then Err(VMFailure)
    else
      match AnchoredId(tx.entries[e.anchorId])
      case NotFound(err) => Err(err)
      case Found(None) => Err(NilDereference)
      case Found(Some(anchored)) => if anchored != id then Err(MismatchedReference) else Ok
  }

  // ---------------------------------------------------------------- the recursive checker

  function CheckValid(env: Env, tx: Tx, id: Hash): Verdict
    requires Graph(env, tx) && Reachable(tx, id)
    decreases Rank(tx)[id], 2, 0
  {
    var e := tx.entries[id];
    var version := Version(tx);
    match e
    case TxHeader(_, results, _, minTime, maxTime, ext) =>
      if maxTime > 0 && maxTime < minTime then Err(BadTimeRange)
      else
        assert forall r :: r in results ==> r in Refs(e);
        var v := CheckResults(env, tx, id, results);
        if v.Err? then v
        else if e.version == 1 && results == [] then Err(EmptyResults)
        else CheckExt(e.version, ext)

    case Mux(sources, program, ext, dests, args) =>
      if !env.verify(tx, e, program, args) then Err(VMFailure)
      else
        assert forall i, r :: 0 <= i < |sources| && r in SourceRefs(sources[i]) ==> r in Refs(e);
        var v := CheckSources(env, tx, id, sources);
        if v.Err? then v
        else
          var w := CheckDests(tx, id, dests);
          if w.Err? then w
          else
            CheckedSourcesHaveValues(env, tx, id, sources);
            CheckedDestsHaveValues(tx, id, dests);
            var p := CheckParity(SourceValues(sources), DestValues(dests));
            if p.Err? then p else CheckExt(version, ext)

    case Nonce(program, timeRangeId, ext, args, _) =>
      if !env.verify(tx, e, program, args) then Err(VMFailure)
      else if timeRangeId !in tx.entries then Err(MissingEntry)
      else if !tx.entries[timeRangeId].TimeRange? then Err(EntryType)
      else
        assert timeRangeId in Refs(e);
        var v := CheckValid(env, tx, timeRangeId);
        if v.Err? then v
        else if tx.entries[timeRangeId].minTimeMs == 0 || tx.entries[timeRangeId].maxTimeMs == 0 then Err(ZeroTime)
        else CheckExt(version, ext)

    case Output(source, _, _, ext, _) =>
      assert forall r :: r in SourceRefs(source) ==> r in Refs(e);
      var v := CheckSrc(env, tx, id, 0, source);
      if v.Err? then v else CheckExt(version, ext)

    case Retirement(source, _, ext, _) =>
      assert forall r :: r in SourceRefs(source) ==> r in Refs(e);
      var v := CheckSrc(env, tx, id, 0, source);
      if v.Err? then v else CheckExt(version, ext)

    case TimeRange(minTime, maxTime, ext) =>
      if minTime > tx.entries[tx.id].minTimeMs then Err(BadTimeRange)
      else if maxTime > 0 && maxTime < tx.entries[tx.id].maxTimeMs then Err(BadTimeRange)
      else CheckExt(version, ext)

    case Issuance(anchorId, _, _, ext, _, dest, _, _, _) =>
      var v := CheckIssuance(env, tx, id, e);
      if v.Err? then v
      else
        assert anchorId in Refs(e);
        var a := CheckValid(env, tx, anchorId);
        if a.Err? then a
        else
          var d := CheckDest(tx, id, 0, dest);
          if d.Err? then d else CheckExt(version, ext)

    case Spend(_, _, ext, _, dest, _, _) =>
      var v := CheckSpend(env, tx, e);
      if v.Err? then v
      else
        var d := CheckDest(tx, id, 0, dest);
        if d.Err? then d else CheckExt(version, ext)
  }

  /** A reference followed from an entry: absent, or reachable with a lower rank. */
  ghost predicate Follows(tx: Tx, id: Hash, r: Hash)
    requires Acyclic(tx) && Reachable(tx, id)
  {
    r in tx.entries ==> Reachable(tx, r) && Rank(tx)[r] < Rank(tx)[id]
  }

  /** The header's results in order; a result without an entry is the nil entry, which no case accepts. */
  function CheckResults(env: Env, tx: Tx, id: Hash, results: seq<Hash>): Verdict
    requires Graph(env, tx) && Reachable(tx, id) && forall r :: r in results ==> Follows(tx, id, r)
    decreases Rank(tx)[id], 1, |results|
  {
    if results == [] then Ok
    else
      match CheckResults(env, tx, id, results[..|results| - 1])
      case Err(e) => Err(e)
      case Ok =>
        var r := results[|results| - 1];
        assert Follows(tx, id, r);
        if r !in tx.entries then Err(UnexpectedType) else CheckValid(env, tx, r)
  }

  /** The mux sources in order. */
  function CheckSources(env: Env, tx: Tx, id: Hash, sources: seq<Option<ValueSource>>): Verdict
    requires Graph(env, tx) && Reachable(tx, id)
    requires forall s, r :: s in sources && r in SourceRefs(s) ==> Follows(tx, id, r)
    decreases Rank(tx)[id], 1, |sources|
  {
    if sources == [] then Ok
    else
      match CheckSources(env, tx, id, sources[..|sources| - 1])
      case Err(e) => Err(e)
      case Ok => CheckSrc(env, tx, id, |sources| - 1, sources[|sources| - 1])
  }

  /** checkValidSrc */
  function CheckSrc(env: Env, tx: Tx, id: Hash, sourcePos: nat, source: Option<ValueSource>): Verdict
    requires Graph(env, tx) && Reachable(tx, id)
    requires forall r :: r in SourceRefs(source) ==> Follows(tx, id, r)
    decreases Rank(tx)[id], 0, 0
  {
    match source
    case None => Err(MissingField)
    case Some(s) =>
      if s.ref.None? || s.value.None? then Err(MissingField)
      else if s.ref.value !in tx.entries then Err(MissingEntry)
      else
        assert s.ref.value in SourceRefs(source) && Follows(tx, id, s.ref.value);
        var v := CheckValid(env, tx, s.ref.value);
        if v.Err? then v else CheckSrcLink(tx, id, sourcePos, s)
  }

  /** ValidateTx */
  function ValidateTx(env: Env, tx: Tx): Verdict
    requires Graph(env, tx)
  {
    CheckValid(env, tx, tx.id)
  }

  // ---------------------------------------------------------------- what acceptance of a list means

  lemma {:induction false} CheckedSourcesHaveValues(env: Env, tx: Tx, id: Hash, sources: seq<Option<ValueSource>>)
    requires Graph(env, tx) && Reachable(tx, id)
    requires forall s, r :: s in sources && r in SourceRefs(s) ==> Follows(tx, id, r)
    requires CheckSources(env, tx, id, sources).Ok?
    ensures forall i :: 0 <= i < |sources| ==> CheckSrc(env, tx, id, i, sources[i]).Ok?
    ensures forall i :: 0 <= i < |sources| ==> HasValue(sources[i])
    decreases Rank(tx)[id], 1, |sources| + 1
  {
    if sources != [] {
      CheckedSourcesHaveValues(env, tx, id, sources[..|sources| - 1]);
    }
  }

  lemma {:induction false} CheckedDestsHaveValues(tx: Tx, id: Hash, dests: seq<Option<ValueDestination>>)
    requires CheckDests(tx, id, dests).Ok?
    ensures forall i :: 0 <= i < |dests| ==> CheckDest(tx, id, i, dests[i]).Ok?
    ensures forall i :: 0 <= i < |dests| ==> HasDestValue(dests[i])
    decreases |dests|
  {
    if dests != [] {
      CheckedDestsHaveValues(tx, id, dests[..|dests| - 1]);
    }
  }
}
