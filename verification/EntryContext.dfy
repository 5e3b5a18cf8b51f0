/** protocol/validation/vmcontext.go: what a program attached to an entry sees of its transaction. */
module EntryContexts {
  import opened Basics
  import opened Entries
  import opened CryptoOps
  import I = Interpreter

  predicate HasHeader(tx: Tx)
  {
    tx.id in tx.entries && tx.entries[tx.id].TxHeader?
  }

  /** A number of the entry graph as the machine's 64-bit field. */
  function U64(n: nat): I.uint64
  {
    n % TWO_64
  }

  // ---------------------------------------------------------------- checkOutput

  /** What CHECKOUTPUT asks for. */
  datatype Query = Query(index: nat, data: bytes, amount: nat, assetID: bytes, vmVersion: nat, code: bytes, expansion: bool)

  predicate Matches(q: Query, p: Program, v: AssetAmount, data: Hash)
  {
    && p.vmVersion == q.vmVersion && p.code == q.code
    && v.assetId == q.assetID && v.amount == q.amount
    && (q.data == [] || data == q.data)
  }

  /** checkEntry: an output, or a retirement, which stands for an output with no program. */
  function CheckEntry(q: Query, e: Entry): Option<bool>
  {
    match e
    case Output(source, program, data, _, _) =>
      if source.None? || source.value.value.None? then None else Some(Matches(q, program, source.value.value.value, data))
    case Retirement(source, data, _, _) =>
      if source.None? || source.value.value.None? then None
      else Some(Matches(q, Program(0, if q.expansion then q.code else []), source.value.value.value, data))
    case _ => None
  }

  /** checkMux: the destination at the index. */
  function CheckMux(tx: Tx, q: Query, m: Entry): Option<bool>
    requires m.Mux?
  {
    if q.index >= |m.witnessDestinations| then None
    else
      var d := m.witnessDestinations[q.index];
      if d.None? || d.value.ref.None? || d.value.ref.value !in tx.entries then None
      else CheckEntry(q, tx.entries[d.value.ref.value])
  }

  /** Through the destination of a spend or an issuance. */
  function CheckDestination(tx: Tx, q: Query, d: Option<ValueDestination>): Option<bool>
  {
    if d.None? || d.value.ref.None? || d.value.ref.value !in tx.entries then None
    else
      var e := tx.entries[d.value.ref.value];
      if e.Mux? then CheckMux(tx, q, e)
      else if q.index != 0 then None
      else CheckEntry(q, e)
  }

  /** entryContext.checkOutput: yes, no, or an error. */
  function CheckOutput(tx: Tx, e: Entry, q: Query): Option<bool>
  {
    match e
    case Mux(_, _, _, _, _) => CheckMux(tx, q, e)
    case Issuance(_, _, _, _, _, d, _, _, _) => CheckDestination(tx, q, d)
    case Spend(_, _, _, _, d, _, _) => CheckDestination(tx, q, d)
    case _ => None
  }

  // ---------------------------------------------------------------- NewTxVMContext

  /** The value the context shows: that of the issuance, of the anchored issuance, or of the spent output. */
  function ShownValue(tx: Tx, e: Entry): Option<AssetAmount>
  {
    match e
    case Nonce(_, _, _, _, anchored) =>
      if anchored.Some? && anchored.value in tx.entries && tx.entries[anchored.value].Issuance?
      then Some(tx.entries[anchored.value].value) else None
    case Issuance(_, v, _, _, _, _, _, _, _) => Some(v)
    case Spend(spent, _, _, _, _, _, _) =>
      if spent.Some? && spent.value in tx.entries && tx.entries[spent.value].Output? && tx.entries[spent.value].source.Some?
      then tx.entries[spent.value].source.value.value else None
    case _ => None
  }

  function ShownData(e: Entry): Option<bytes>
  {
    match e
    case Issuance(_, _, d, _, _, _, _, _, _) => Some(d)
    case Spend(_, d, _, _, _, _, _) => Some(d)
    case Output(_, _, d, _, _) => Some(d)
    case Retirement(_, d, _, _) => Some(d)
    case _ => None
  }

  function ShownPosition(e: Entry): Option<I.uint64>
  {
    match e
    case Issuance(_, _, _, _, _, d, _, _, _) => if d.None? then None else Some(U64(d.value.position))
    case Spend(_, _, _, _, d, _, _) => if d.None? then None else Some(U64(d.value.position))
    case _ => None
  }

  /** The dereferences of NewTxVMContext that must find something. */
  predicate Whole(tx: Tx, e: Entry)
  {
    match e
    case Nonce(_, _, _, _, anchored) => anchored.Some?
    case Issuance(_, _, _, _, _, d, _, _, _) => d.Some?
    case Spend(_, _, _, _, d, _, _) => d.Some? && ShownValue(tx, e).Some?
    case _ => true
  }

  function NewTxVMContext(env: Env, c: Crypto, tx: Tx, e: Entry, p: Program, args: seq<bytes>): I.Env
    requires HasHeader(tx)
  {
    var header := tx.entries[tx.id];
    var value := ShownValue(tx, e);
    var id: bytes := env.EntryId(e);
    I.Env(
      U64(p.vmVersion), p.code, args, id, Some(U64(header.version)),
      None, None, None,
      if value.None? then None else Some(value.value.assetId),
      if value.None? then None else Some(U64(value.value.amount)),
      Some(U64(header.minTimeMs)), Some(U64(header.maxTimeMs)),
      ShownData(e), Some(header.data), ShownPosition(e),
      if e.Issuance? then Some(e.anchorId) else None,
      if e.Spend? && e.spentOutputId.Some? then Some(e.spentOutputId.value) else None,
      Some(c.sha3(id + tx.id)),
      Some((index: nat, data: bytes, amount: nat, asset: bytes, version: nat, code: bytes, expansion: bool) =>
             CheckOutput(tx, e, Query(index, data, amount, asset, version, code, expansion))),
      c)
  }
}
