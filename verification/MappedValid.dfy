/**
  The graph that MapTx builds: it always is an acyclic graph keyed by entry identifiers. When it is valid is the
  matter of the module MappedAccept.
 */
module MappedValid {
  import opened Basics
  import opened Entries
  import opened LegacyTx
  import M = MapTx
  import T = TxMapper

  // ---------------------------------------------------------------- the graph is acyclic

  function KindRank(e: Entry): nat
  {
    match e
    case TxHeader(_, _, _, _, _, _) => 6
    case Output(_, _, _, _, _) => 5
    case Retirement(_, _, _, _) => 5
    case Mux(_, _, _, _, _) => 4
    case Issuance(_, _, _, _, _, _, _, _, _) => 3
    case Nonce(_, _, _, _, _) => 2
    case Spend(_, _, _, _, _, _, _) => 2
    case TimeRange(_, _, _) => 1
  }

  /** The entries reached from the header: not the prevouts, unless they are results too. */
  ghost predicate Walked(env: Env, td: TxData, tx: Tx, id: Hash)
  {
    && id in tx.entries
    && (tx.entries[id].Output? || tx.entries[id].Retirement? ==> id in ResultIds(env, td))
  }

  ghost function KindRanks(env: Env, td: TxData, tx: Tx): map<Hash, nat>
  {
    map id | id in tx.entries && Walked(env, td, tx, id) :: KindRank(tx.entries[id])
  }

  lemma {:induction false} HeaderAt(env: Env, td: TxData, tx: Tx)
    requires Hashable(env, td) && Mapped(env, td, tx)
    ensures tx.id in tx.entries && tx.entries[tx.id] == HeaderEntry(env, td)
  {
    hide Bodies, ResultIds, SpendOf, IssuanceOf, NonceOf, Hashable;
    InBodies(env, td);
    M.BodyAt(env, td, tx.entries, HeaderEntry(env, td));
  }

  lemma {:induction false} InBodies(env: Env, td: TxData)
    ensures HeaderEntry(env, td) in Bodies(env, td) && Body(MuxEntry(env, td)) in Bodies(env, td)
  {
  }

  lemma {:induction false} InputBodyKinds(env: Env, td: TxData, inp: TxInput, b: Entry)
    requires b in InputBodies(env, td, inp)
    ensures !b.TxHeader? && !b.Mux?
    ensures b.Nonce? ==> b.timeRangeId == env.EntryId(TimeRangeEntry(td)) && TimeRangeEntry(td) in InputBodies(env, td, inp)
    ensures b.TimeRange? ==> b == TimeRangeEntry(td)
  {
    hide NonceProgram, AnchorId, IssuedValue, PrevoutId, Env.EntryId;
  }

  ghost predicate ResultBody(env: Env, td: TxData, b: Entry)
  {
    exists j :: 0 <= j < |td.outputs| && b == Body(ResultEntry(env, td, j))
  }

  lemma {:induction false} BodyCases(env: Env, td: TxData, b: Entry) returns (i: nat)
    requires b in Bodies(env, td)
    ensures
      || (i < |td.inputs| && b in InputBodies(env, td, td.inputs[i]))
      || ResultBody(env, td, b) || b == Body(MuxEntry(env, td)) || b == HeaderEntry(env, td)
  {
    hide InputBodies, ResultEntry, MuxEntry, HeaderEntry;
    i := 0;
    if k, c :| 0 <= k < |td.inputs| && c in InputBodies(env, td, td.inputs[k]) && c == b {
      i := k;
    }
  }

  /** A header, mux or time range entry of the graph can only be the transaction's own. */
  lemma {:induction false} OnlyKinds(env: Env, td: TxData, b: Entry)
    requires b in Bodies(env, td)
    ensures b.TxHeader? ==> b == HeaderEntry(env, td)
    ensures b.Mux? ==> b == Body(MuxEntry(env, td))
    ensures b.Nonce? ==> b.timeRangeId == env.EntryId(TimeRangeEntry(td)) && TimeRangeEntry(td) in Bodies(env, td)
    ensures b.TimeRange? ==> b == TimeRangeEntry(td)
  {
    var i := BodyCases(env, td, b);
    hide Bodies, InputBodies, MuxSources, ResultIds, Env.EntryId;
    if i < |td.inputs| && b in InputBodies(env, td, td.inputs[i]) {
      InputBodyKinds(env, td, td.inputs[i], b);
      T.InputBodyIn(env, td, i);
    } else if ResultBody(env, td, b) {
      var j :| 0 <= j < |td.outputs| && b == Body(ResultEntry(env, td, j));
      ResultKind(env, td, j);
    }
  }

  lemma {:induction false} RefsWalked(env: Env, td: TxData, tx: Tx, id: Hash, r: Hash)
    requires Hashable(env, td) && Mapped(env, td, tx) && Walked(env, td, tx, id)
    requires r in Refs(tx.entries[id]) && r in tx.entries
    ensures Walked(env, td, tx, r) && KindRank(tx.entries[r]) < KindRank(tx.entries[id])
  {
    hide Hashable, Mapped, Refs, Bodies, ResultIds;
    var e := tx.entries[id];
    if e.TxHeader? {
      HeaderRef(env, td, tx, id, r);
    } else if e.Mux? {
      MuxRef(env, td, tx, id, r);
    } else if e.Nonce? {
      NonceRef(env, td, tx, id, r);
    } else if e.Issuance? {
      IssuanceRef(env, td, tx, id, r);
    } else if e.Output? || e.Retirement? {
      ResultRef(env, td, tx, id, r);
    } else {
      NoRefs(e);
    }
  }

  lemma {:induction false} NoRefs(e: Entry)
    requires e.Spend? || e.TimeRange?
    ensures Refs(e) == {}
  {
  }

  lemma {:induction false} BodyOfEntry(env: Env, td: TxData, tx: Tx, id: Hash)
    requires Mapped(env, td, tx) && id in tx.entries
    ensures Body(tx.entries[id]) in Bodies(env, td) && env.EntryId(tx.entries[id]) == id
  {
    hide Bodies, SpendOf, IssuanceOf, NonceOf;
  }

  lemma {:induction false} HeaderRef(env: Env, td: TxData, tx: Tx, id: Hash, r: Hash)
    requires Hashable(env, td) && Mapped(env, td, tx) && id in tx.entries && tx.entries[id].TxHeader?
    requires r in Refs(tx.entries[id]) && r in tx.entries
    ensures Walked(env, td, tx, r) && KindRank(tx.entries[r]) < 6
  {
    hide Mapped, Hashable, Bodies, ResultEntry, ResultId;
    BodyOfEntry(env, td, tx, id);
    OnlyKinds(env, td, Body(tx.entries[id]));
    assert r in ResultIds(env, td);
    var j :| 0 <= j < |td.outputs| && ResultIds(env, td)[j] == r;
    ResultAt(env, td, tx, j);
    ResultKind(env, td, j);
  }

  lemma {:induction false} MuxRef(env: Env, td: TxData, tx: Tx, id: Hash, r: Hash)
    requires Hashable(env, td) && Mapped(env, td, tx) && id in tx.entries && tx.entries[id].Mux?
    requires r in Refs(tx.entries[id]) && r in tx.entries
    ensures Walked(env, td, tx, r) && KindRank(tx.entries[r]) < 4
  {
    hide Mapped, Hashable, Bodies, MuxSource;
    BodyOfEntry(env, td, tx, id);
    OnlyKinds(env, td, Body(tx.entries[id]));
    var sources := tx.entries[id].sources;
    assert sources == MuxSources(env, td);
    var i :| 0 <= i < |sources| && r in SourceRefs(sources[i]);
    SourceKind(env, td, tx, i, r);
  }

  lemma {:induction false} NonceRef(env: Env, td: TxData, tx: Tx, id: Hash, r: Hash)
    requires Hashable(env, td) && Mapped(env, td, tx) && id in tx.entries && tx.entries[id].Nonce?
    requires r in Refs(tx.entries[id]) && r in tx.entries
    ensures Walked(env, td, tx, r) && KindRank(tx.entries[r]) < 2
  {
    hide Hashable, Bodies, SpendOf, IssuanceOf, NonceOf;
    BodyOfEntry(env, td, tx, id);
    OnlyKinds(env, td, Body(tx.entries[id]));
    M.BodyAt(env, td, tx.entries, TimeRangeEntry(td));
  }

  lemma {:induction false} IssuanceRef(env: Env, td: TxData, tx: Tx, id: Hash, r: Hash)
    requires Hashable(env, td) && Mapped(env, td, tx) && id in tx.entries && tx.entries[id].Issuance?
    requires r in Refs(tx.entries[id]) && r in tx.entries
    ensures Walked(env, td, tx, r) && KindRank(tx.entries[r]) < 3
  {
    hide Hashable, HoldsBodies, SpendOf, NonceOf, IssuedValue, NonceId, AnchorId, IssuanceId;
    assert IssuanceOf(env, td, tx.entries[id], id, |td.inputs|);
    M.AnchorKind(env, td, tx.entries, tx.entries[id].ordinal);
  }

  lemma {:induction false} ResultKind(env: Env, td: TxData, j: nat)
    requires j < |td.outputs|
    ensures ResultEntry(env, td, j).Output? || ResultEntry(env, td, j).Retirement?
  {
  }

  lemma {:induction false} MuxAt(env: Env, td: TxData, tx: Tx)
    requires Mapped(env, td, tx)
    ensures MuxId(env, td) in tx.entries && tx.entries[MuxId(env, td)] == MuxWith(env, td, Destinations(env, td))
  {
  }

  lemma {:induction false} ResultAt(env: Env, td: TxData, tx: Tx, j: nat)
    requires Mapped(env, td, tx) && j < |td.outputs|
    ensures ResultId(env, td, j) in tx.entries && tx.entries[ResultId(env, td, j)] == ResultEntry(env, td, j)
  {
  }

  lemma {:induction false} ResultRef(env: Env, td: TxData, tx: Tx, id: Hash, r: Hash)
    requires Mapped(env, td, tx) && Walked(env, td, tx, id) && (tx.entries[id].Output? || tx.entries[id].Retirement?)
    requires r in Refs(tx.entries[id])
    ensures r == MuxId(env, td) && r in tx.entries && tx.entries[r].Mux? && Walked(env, td, tx, r)
  {
    hide Bodies, HoldsBodies, SpendOf, IssuanceOf, NonceOf, MuxId, ResultId;
    var j :| 0 <= j < |td.outputs| && ResultIds(env, td)[j] == id;
    ResultAt(env, td, tx, j);
    MuxAt(env, td, tx);
  }

  lemma {:induction false} SourceKind(env: Env, td: TxData, tx: Tx, i: nat, r: Hash)
    requires Hashable(env, td) && Mapped(env, td, tx) && i < |td.inputs|
    requires r in SourceRefs(MuxSource(env, td, td.inputs[i]))
    ensures r in tx.entries && (tx.entries[r].Spend? || tx.entries[r].Issuance?)
  {
    hide Bodies, Hashable, HoldsBodies, SpendOf, IssuanceOf, NonceOf, SpendId, IssuanceId;
    match td.inputs[i]
    case SpendInput(_, _, _, _, _, _, _, _) => M.SpendAt(env, td, tx.entries, i);
    case IssuanceInput(_, _, _, _, _, _, _, _) => M.IssuanceAt(env, td, tx.entries, i);
    case UnknownInput =>
  }

  /** Every mapped transaction is a graph the checker is proved for. */
  lemma {:induction false} MappedIsGraph(env: Env, td: TxData, tx: Tx)
    requires Hashable(env, td) && Mapped(env, td, tx)
    ensures Graph(env, tx)
  {
    hide Bodies, Hashable, SpendOf, IssuanceOf, NonceOf, Refs, ResultIds, MuxWith, KindRank;
    HeaderAt(env, td, tx);
    M.NoZero(env, td, tx.entries);
    var rank := KindRanks(env, td, tx);
    forall id, r | id in rank && r in Refs(tx.entries[id]) && r in tx.entries
      ensures r in rank && rank[r] < rank[id]
    {
      RefsWalked(env, td, tx, id, r);
    }
    assert Ranking(tx, rank);
  }
}
