/**
  The entry graph of protocol/bc: hash-linked transaction components. A pointer that the source may find
  nil is an Option; entry identifiers are hashes of the entry without its witness fields.
 */
module Entries {
  import opened Basics

  type AssetId = Hash

  datatype AssetAmount = AssetAmount(assetId: AssetId, amount: nat)

  datatype ValueSource = ValueSource(ref: Option<Hash>, value: Option<AssetAmount>, position: nat)

  datatype ValueDestination = ValueDestination(ref: Option<Hash>, value: Option<AssetAmount>, position: nat)

  datatype Program = Program(vmVersion: nat, code: bytes)

  datatype AssetDefinition = AssetDefinition(initialBlockId: Hash, issuanceProgram: Program, data: Hash)

  datatype Entry =
    | TxHeader(version: nat, resultIds: seq<Hash>, data: Hash, minTimeMs: nat, maxTimeMs: nat, extHash: Option<Hash>)
    | Mux(sources: seq<Option<ValueSource>>, program: Program, extHash: Option<Hash>,
          witnessDestinations: seq<Option<ValueDestination>>, witnessArguments: seq<bytes>)
    | Nonce(program: Program, timeRangeId: Hash, extHash: Option<Hash>,
            witnessArguments: seq<bytes>, witnessAnchoredId: Option<Hash>)
    | Output(source: Option<ValueSource>, controlProgram: Program, data: Hash, extHash: Option<Hash>, ordinal: nat)
    | Retirement(source: Option<ValueSource>, data: Hash, extHash: Option<Hash>, ordinal: nat)
    | TimeRange(minTimeMs: nat, maxTimeMs: nat, extHash: Option<Hash>)
    | Issuance(anchorId: Hash, value: AssetAmount, data: Hash, extHash: Option<Hash>, ordinal: nat,
               witnessDestination: Option<ValueDestination>, witnessAssetDefinition: AssetDefinition,
               witnessArguments: seq<bytes>, witnessAnchoredId: Option<Hash>)
    | Spend(spentOutputId: Option<Hash>, data: Hash, extHash: Option<Hash>, ordinal: nat,
            witnessDestination: Option<ValueDestination>, witnessArguments: seq<bytes>,
            witnessAnchoredId: Option<Hash>)

  const NO_DEFINITION := AssetDefinition(ZERO_HASH, Program(0, []), ZERO_HASH)

  /** What writeForHash writes: the witness fields and the ordinal do not contribute to an entry's identifier. */
  function Body(e: Entry): Entry
  {
    match e
    case Mux(s, p, x, _, _) => Mux(s, p, x, [], [])
    case Nonce(p, t, x, _, _) => Nonce(p, t, x, [], None)
    case Output(s, p, d, x, _) => Output(s, p, d, x, 0)
    case Retirement(s, d, x, _) => Retirement(s, d, x, 0)
    case Issuance(a, v, d, x, _, _, _, _, _) => Issuance(a, v, d, x, 0, None, NO_DEFINITION, [], None)
    case Spend(o, d, x, _, _, _, _) => Spend(o, d, x, 0, None, [], None)
    case TxHeader(_, _, _, _, _, _) => e
    case TimeRange(_, _, _) => e
  }

  /** A transaction with its entries; id is the identifier of its header. */
  datatype Tx = Tx(id: Hash, entries: map<Hash, Entry>, inputIds: seq<Hash>, nonceIds: seq<Hash>, spentOutputIds: seq<Hash>)

  datatype Error =
    | BadTimeRange | EmptyResults | MismatchedAssetId | MismatchedPosition | MismatchedReference | MismatchedValue
    | MissingField | NoSource | NonemptyExtHash | Overflow | Position | Unbalanced | WrongBlockchain | ZeroTime
    | MissingEntry | EntryType | UnexpectedType | VMFailure | NilDereference

  datatype Verdict = Ok | Err(error: Error)

  /**
    What validation takes as given: SHA3 of an entry body and of plain data, the hash of an asset definition, the
    verdict on a program attached to an entry (the machine itself is in the module Metering and below), and the
    identifier of the blockchain.
   */
  datatype Env = Env(
    hashOf: Entry -> Hash,
    hashData: bytes -> Hash,
    assetIdOf: AssetDefinition -> AssetId,
    verify: (Tx, Entry, Program, seq<bytes>) -> bool,
    blockchainId: Hash)
  {
    function EntryId(e: Entry): Hash
    {
      hashOf(Body(e))
    }
  }

  /** No two different bodies of the set have the same hash. */
  ghost predicate CollisionFree(env: Env, bodies: set<Entry>)
  {
    forall a, b :: a in bodies && b in bodies && env.hashOf(a) == env.hashOf(b) ==> a == b
  }

  /** Every key is the identifier of its entry, none is the zero hash, and the header is present. */
  ghost predicate WellKeyed(env: Env, tx: Tx)
  {
    && tx.id in tx.entries && tx.entries[tx.id].TxHeader?
    && ZERO_HASH !in tx.entries
    && forall id :: id in tx.entries ==> env.EntryId(tx.entries[id]) == id
  }

  ghost function SourceRefs(s: Option<ValueSource>): set<Hash>
  {
    if s.Some? && s.value.ref.Some? then {s.value.ref.value} else {}
  }

  /** The hashed references that checkValid follows. */
  ghost function Refs(e: Entry): set<Hash>
  {
    match e
    case TxHeader(_, results, _, _, _, _) => set r | r in results
    case Mux(sources, _, _, _, _) => set i, r | 0 <= i < |sources| && r in SourceRefs(sources[i]) :: r
    case Output(source, _, _, _, _) => SourceRefs(source)
    case Retirement(source, _, _, _) => SourceRefs(source)
    case Nonce(_, timeRangeId, _, _, _) => {timeRangeId}
    case Issuance(anchorId, _, _, _, _, _, _, _, _) => {anchorId}
    case TimeRange(_, _, _) => {}
    case Spend(_, _, _, _, _, _, _) => {}
  }

  /** A ranking of the entries reachable from the header in which every reference points down. */
  ghost predicate Ranking(tx: Tx, rank: map<Hash, nat>)
  {
    && tx.id in rank
    && forall id :: id in rank ==>
         && id in tx.entries
         && forall r :: r in Refs(tx.entries[id]) && r in tx.entries ==> r in rank && rank[r] < rank[id]
  }

  ghost predicate Acyclic(tx: Tx)
  {
    exists rank :: Ranking(tx, rank)
  }

  ghost function Rank(tx: Tx): (rank: map<Hash, nat>)
    requires Acyclic(tx)
    ensures Ranking(tx, rank)
  {
    var rank :| Ranking(tx, rank);
    rank
  }

  /** The entry graphs the checker is proved for. */
  ghost predicate Graph(env: Env, tx: Tx)
  {
    WellKeyed(env, tx) && Acyclic(tx)
  }

  ghost predicate Reachable(tx: Tx, id: Hash)
    requires Acyclic(tx)
  {
    id in Rank(tx)
  }
}
