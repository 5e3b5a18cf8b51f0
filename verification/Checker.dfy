/**
  checkValid as the source runs it: one shared cache of verdicts per entry identifier, filled while the
  graph is walked. Every method is proved to return the verdict of the cache-free checker.
 */
module Checker {
  import opened Basics
  import opened Entries
  import V = Validation

  // ---------------------------------------------------------------- a failing prefix decides a list

  lemma {:induction false} ResultsPrefix(env: Env, tx: Tx, id: Hash, results: seq<Hash>, i: nat)
    requires Graph(env, tx) && Reachable(tx, id) && forall r :: r in results ==> V.Follows(tx, id, r)
    requires i <= |results|
    ensures V.CheckResults(env, tx, id, results[..i]).Err? ==>
      V.CheckResults(env, tx, id, results) == V.CheckResults(env, tx, id, results[..i])
    decreases |results|
  {
    if i == |results| {
      assert results[..i] == results;
    } else {
      var shorter := results[..|results| - 1];
      assert shorter[..i] == results[..i];
      ResultsPrefix(env, tx, id, shorter, i);
    }
  }

  lemma {:induction false} SourcesPrefix(env: Env, tx: Tx, id: Hash, sources: seq<Option<ValueSource>>, i: nat)
    requires Graph(env, tx) && Reachable(tx, id)
    requires forall s, r :: s in sources && r in SourceRefs(s) ==> V.Follows(tx, id, r)
    requires i <= |sources|
    ensures V.CheckSources(env, tx, id, sources[..i]).Err? ==>
      V.CheckSources(env, tx, id, sources) == V.CheckSources(env, tx, id, sources[..i])
    decreases |sources|
  {
    if i == |sources| {
      assert sources[..i] == sources;
    } else {
      var shorter := sources[..|sources| - 1];
      assert shorter[..i] == sources[..i];
      SourcesPrefix(env, tx, id, shorter, i);
    }
  }

  lemma {:induction false} DestsPrefix(tx: Tx, id: Hash, dests: seq<Option<ValueDestination>>, i: nat)
    requires i <= |dests|
    ensures V.CheckDests(tx, id, dests[..i]).Err? ==> V.CheckDests(tx, id, dests) == V.CheckDests(tx, id, dests[..i])
    decreases |dests|
  {
    if i == |dests| {
      assert dests[..i] == dests;
    } else {
      var shorter := dests[..|dests| - 1];
      assert shorter[..i] == dests[..i];
      DestsPrefix(tx, id, shorter, i);
    }
  }

  lemma {:induction false} AddPrefix(sources: seq<AssetAmount>, i: nat)
    requires i <= |sources|
    ensures V.AddSources(sources[..i]).Failed? ==> V.AddSources(sources) == V.AddSources(sources[..i])
    decreases |sources|
  {
    if i == |sources| {
      assert sources[..i] == sources;
    } else {
      var shorter := sources[..|sources| - 1];
      assert shorter[..i] == sources[..i];
      AddPrefix(shorter, i);
    }
  }

  lemma {:induction false} SubPrefix(start: map<AssetId, int>, dests: seq<AssetAmount>, i: nat)
    requires i <= |dests|
    ensures V.SubDests(start, dests[..i]).Failed? ==> V.SubDests(start, dests) == V.SubDests(start, dests[..i])
    decreases |dests|
  {
    if i == |dests| {
      assert dests[..i] == dests;
    } else {
      var shorter := dests[..|dests| - 1];
      assert shorter[..i] == dests[..i];
      SubPrefix(start, shorter, i);
    }
  }

  // ---------------------------------------------------------------- the parity loops

  method ComputeParity(sources: seq<AssetAmount>, dests: seq<AssetAmount>) returns (v: Verdict)
    ensures v == V.CheckParity(sources, dests)
  {
    var parity: map<AssetId, int> := map[];
    for i := 0 to |sources|
      invariant V.AddSources(sources[..i]) == V.Totals(parity)
    {
      var src := sources[i];
      assert sources[..i + 1][..i] == sources[..i];
      AddPrefix(sources, i + 1);
      var sum := V.ParityAt(parity, src.assetId) + AsSigned(src.amount);
      if !InInt64(sum) {
        return Err(Overflow);
      }
      parity := parity[src.assetId := sum];
    }
    assert sources[..|sources|] == sources;
    ghost var added := parity;
    for i := 0 to |dests|
      invariant V.SubDests(added, dests[..i]) == V.Totals(parity)
    {
      var dest := dests[i];
      assert dests[..i + 1][..i] == dests[..i];
      SubPrefix(added, dests, i + 1);
      if dest.assetId !in parity {
        return Err(NoSource);
      }
      var diff := parity[dest.assetId] - AsSigned(dest.amount);
      if !InInt64(diff) {
        return Err(Overflow);
      }
      parity := parity[dest.assetId := diff];
    }
    assert dests[..|dests|] == dests;
    var remaining := parity.Keys;
    while remaining != {}
      invariant remaining <= parity.Keys
      invariant forall a :: a in parity && a !in remaining ==> parity[a] == 0
      decreases |remaining|
    {
      var assetId :| assetId in remaining;
      if parity[assetId] != 0 {
        return Err(Unbalanced);
      }
      remaining := remaining - {assetId};
    }
    return Ok;
  }

  // ---------------------------------------------------------------- the memoised walk

  class ValidationState {
    const env: Env
    const tx: Tx
    var cache: map<Hash, Verdict>

    constructor (env: Env, tx: Tx)
      ensures this.env == env && this.tx == tx && cache == map[]
    {
      this.env, this.tx, this.cache := env, tx, map[];
    }

    /** Every cached verdict is the one the cache-free checker gives; the nil entry is cached under the zero hash. */
    ghost predicate Sound()
      requires Graph(env, tx)
      reads this
    {
      forall h :: h in cache ==>
        if h in tx.entries then Reachable(tx, h) && cache[h] == V.CheckValid(env, tx, h)
        else h == ZERO_HASH && cache[h] == Err(UnexpectedType)
    }

    ghost function Depth(e: Option<Entry>, at: Hash): nat
      requires Graph(env, tx) && (e.Some? ==> Reachable(tx, at))
    {
      if e.Some? then Rank(tx)[at] + 1 else 0
    }

    /** checkValid on an entry of the transaction, or on the nil entry that a missing identifier gives. */
    method CheckValid(e: Option<Entry>, at: Hash) returns (v: Verdict)
      requires Graph(env, tx) && Sound()
      requires e.Some? ==> Reachable(tx, at) && tx.entries[at] == e.value
      modifies this
      ensures Sound()
      ensures v == if e.Some? then V.CheckValid(env, tx, at) else Err(UnexpectedType)
      decreases Depth(e, at), 2
    {
      var entryId := if e.None? then ZERO_HASH else env.EntryId(e.value);
      if entryId in cache {
        return cache[entryId];
      }
      if e.None? {
        v := Err(UnexpectedType);
      } else {
        v := CheckCases(e.value, at);
      }
      cache := cache[entryId := v];
    }

    /** The switch over the entry's type. */
    method CheckCases(e: Entry, at: Hash) returns (v: Verdict)
      requires Graph(env, tx) && Sound() && Reachable(tx, at) && tx.entries[at] == e
      modifies this
      ensures Sound()
      ensures v == V.CheckValid(env, tx, at)
      decreases Depth(Some(e), at), 1
    {
      var version := V.Version(tx);
      match e
      case TxHeader(_, results, _, minTime, maxTime, ext) =>
        if maxTime > 0 && maxTime < minTime {
          return Err(BadTimeRange);
        }
        v := CheckResults(at, results);
        if v.Err? {
          return;
        }
        if e.version == 1 && results == [] {
          return Err(EmptyResults);
        }
        return V.CheckExt(e.version, ext);

      case Mux(sources, program, ext, dests, args) =>
        if !env.verify(tx, e, program, args) {
          return Err(VMFailure);
        }
        v := CheckSources(at, sources);
        if v.Err? {
          return;
        }
        v := CheckDests(at, dests);
        if v.Err? {
          return;
        }
        SourcesFollow(tx, at);
        V.CheckedSourcesHaveValues(env, tx, at, sources);
        V.CheckedDestsHaveValues(tx, at, dests);
        v := ComputeParity(V.SourceValues(sources), V.DestValues(dests));
        if v.Err? {
          return;
        }
        return V.CheckExt(version, ext);

      case Nonce(program, timeRangeId, ext, args, _) =>
        if !env.verify(tx, e, program, args) {
          return Err(VMFailure);
        }
        if timeRangeId !in tx.entries {
          return Err(MissingEntry);
        }
        var tr := tx.entries[timeRangeId];
        if !tr.TimeRange? {
          return Err(EntryType);
        }
        assert timeRangeId in Refs(e);
        v := CheckValid(Some(tr), timeRangeId);
        if v.Err? {
          return;
        }
        if tr.minTimeMs == 0 || tr.maxTimeMs == 0 {
          return Err(ZeroTime);
        }
        return V.CheckExt(version, ext);

      case Output(source, _, _, ext, _) =>
        assert forall r :: r in SourceRefs(source) ==> r in Refs(e) && V.Follows(tx, at, r);
        v := CheckSrc(at, 0, source);
        if v.Err? {
          return;
        }
        return V.CheckExt(version, ext);

      case Retirement(source, _, ext, _) =>
        assert forall r :: r in SourceRefs(source) ==> r in Refs(e) && V.Follows(tx, at, r);
        v := CheckSrc(at, 0, source);
        if v.Err? {
          return;
        }
        return V.CheckExt(version, ext);

      case TimeRange(minTime, maxTime, ext) =>
        if minTime > tx.entries[tx.id].minTimeMs {
          return Err(BadTimeRange);
        }
        if maxTime > 0 && maxTime < tx.entries[tx.id].maxTimeMs {
          return Err(BadTimeRange);
        }
        return V.CheckExt(version, ext);

      case Issuance(anchorId, _, _, ext, _, dest, _, _, _) =>
        v := V.CheckIssuance(env, tx, at, e);
        if v.Err? {
          return;
        }
        assert anchorId in Refs(e);
        v := CheckValid(Some(tx.entries[anchorId]), anchorId);
        if v.Err? {
          return;
        }
        v := V.CheckDest(tx, at, 0, dest);
        if v.Err? {
          return;
        }
        return V.CheckExt(version, ext);

      case Spend(_, _, ext, _, dest, _, _) =>
        v := V.CheckSpend(env, tx, e);
        if v.Err? {
          return;
        }
        v := V.CheckDest(tx, at, 0, dest);
        if v.Err? {
          return;
        }
        return V.CheckExt(version, ext);
    }

    /** The loop over the header's results. */
    method CheckResults(at: Hash, results: seq<Hash>) returns (v: Verdict)
      requires Graph(env, tx) && Sound() && Reachable(tx, at)
      requires tx.entries[at].TxHeader? && tx.entries[at].resultIds == results
      modifies this
      ensures Sound()
      ensures forall r :: r in results ==> V.Follows(tx, at, r)
      ensures v == V.CheckResults(env, tx, at, results)
      decreases Rank(tx)[at] + 1, 0
    {
      assert forall r :: r in results ==> r in Refs(tx.entries[at]) && V.Follows(tx, at, r);
      for i := 0 to |results|
        invariant Sound()
        invariant V.CheckResults(env, tx, at, results[..i]) == Ok
      {
        var r := results[i];
        assert results[..i + 1][..i] == results[..i];
        ResultsPrefix(env, tx, at, results, i + 1);
        assert V.Follows(tx, at, r);
        v := CheckValid(if r in tx.entries then Some(tx.entries[r]) else None, r);
        if v.Err? {
          return;
        }
      }
      assert results[..|results|] == results;
      return Ok;
    }

    /** The loop over a mux's sources. */
    method CheckSources(at: Hash, sources: seq<Option<ValueSource>>) returns (v: Verdict)
      requires Graph(env, tx) && Sound() && Reachable(tx, at)
      requires tx.entries[at].Mux? && tx.entries[at].sources == sources
      modifies this
      ensures Sound()
      ensures forall s, r :: s in sources && r in SourceRefs(s) ==> V.Follows(tx, at, r)
      ensures v == V.CheckSources(env, tx, at, sources)
      decreases Rank(tx)[at] + 1, 0
    {
      SourcesFollow(tx, at);
      for i := 0 to |sources|
        invariant Sound()
        invariant V.CheckSources(env, tx, at, sources[..i]) == Ok
      {
        assert sources[..i + 1][..i] == sources[..i];
        SourcesPrefix(env, tx, at, sources, i + 1);
        assert sources[i] in sources;
        v := CheckSrc(at, i, sources[i]);
        if v.Err? {
          return;
        }
      }
      assert sources[..|sources|] == sources;
      return Ok;
    }

    /** The loop over a mux's destinations; checkValidDest only reads the graph. */
    method CheckDests(at: Hash, dests: seq<Option<ValueDestination>>) returns (v: Verdict)
      ensures v == V.CheckDests(tx, at, dests)
    {
      for i := 0 to |dests|
        invariant V.CheckDests(tx, at, dests[..i]) == Ok
      {
        assert dests[..i + 1][..i] == dests[..i];
        DestsPrefix(tx, at, dests, i + 1);
        v := V.CheckDest(tx, at, i, dests[i]);
        if v.Err? {
          return;
        }
      }
      assert dests[..|dests|] == dests;
      return Ok;
    }

    /** checkValidSrc */
    method CheckSrc(at: Hash, sourcePos: nat, source: Option<ValueSource>) returns (v: Verdict)
      requires Graph(env, tx) && Sound() && Reachable(tx, at)
      requires forall r :: r in SourceRefs(source) ==> V.Follows(tx, at, r)
      modifies this
      ensures Sound()
      ensures v == V.CheckSrc(env, tx, at, sourcePos, source)
      decreases Rank(tx)[at], 3
    {
      if source.None? {
        return Err(MissingField);
      }
      var s := source.value;
      if s.ref.None? || s.value.None? {
        return Err(MissingField);
      }
      if s.ref.value !in tx.entries {
        return Err(MissingEntry);
      }
      assert s.ref.value in SourceRefs(source);
      v := CheckValid(Some(tx.entries[s.ref.value]), s.ref.value);
      if v.Err? {
        return;
      }
      return V.CheckSrcLink(tx, at, sourcePos, s);
    }

    /** ValidateTx: the memoised walk from the header decides exactly as the cache-free one. */
    method ValidateTx() returns (v: Verdict)
      requires Graph(env, tx) && cache == map[]
      modifies this
      ensures v == V.ValidateTx(env, tx)
    {
      v := CheckValid(Some(tx.entries[tx.id]), tx.id);
    }
  }

  lemma {:induction false} SourcesFollow(tx: Tx, at: Hash)
    requires Acyclic(tx) && Reachable(tx, at) && tx.entries[at].Mux?
    ensures forall s, r :: s in tx.entries[at].sources && r in SourceRefs(s) ==> V.Follows(tx, at, r)
  {
    var sources := tx.entries[at].sources;
    forall s, r | s in sources && r in SourceRefs(s)
      ensures V.Follows(tx, at, r)
    {
      var i :| 0 <= i < |sources| && sources[i] == s;
      assert r in Refs(tx.entries[at]);
    }
  }
}
