/** The parity map of a mux: exactly when the three loops accept, in terms of plain sums per asset. */
module Balance {
  import opened Basics
  import opened Entries
  import V = Validation

  /** The sum of the amounts of one asset, each read as an int64. */
  function Total(vs: seq<AssetAmount>, a: AssetId): int
  {
    if vs == [] then 0
    else Total(vs[..|vs| - 1], a) + (if vs[|vs| - 1].assetId == a then AsSigned(vs[|vs| - 1].amount) else 0)
  }

  predicate Mentions(vs: seq<AssetAmount>, a: AssetId)
  {
    exists i :: 0 <= i < |vs| && vs[i].assetId == a
  }

  /** No partial sum of the sources leaves the int64 range. */
  ghost predicate SumsInRange(vs: seq<AssetAmount>)
  {
    (forall a: AssetId :: InInt64(Total(vs, a))) && (vs != [] ==> SumsInRange(vs[..|vs| - 1]))
  }

  /** No partial difference leaves the int64 range. */
  ghost predicate DiffsInRange(sources: seq<AssetAmount>, dests: seq<AssetAmount>)
    decreases |dests|
  {
    && (forall a: AssetId :: InInt64(Total(sources, a) - Total(dests, a)))
    && (dests != [] ==> DiffsInRange(sources, dests[..|dests| - 1]))
  }

  ghost predicate Covered(sources: seq<AssetAmount>, dests: seq<AssetAmount>)
  {
    forall j :: 0 <= j < |dests| ==> Mentions(sources, dests[j].assetId)
  }

  /** For every asset the sources sum to the destinations. */
  ghost predicate Balanced(sources: seq<AssetAmount>, dests: seq<AssetAmount>)
  {
    forall a: AssetId :: Total(sources, a) == Total(dests, a)
  }

  ghost predicate AllZero(parity: map<AssetId, int>)
  {
    forall a: AssetId :: V.ParityAt(parity, a) == 0
  }

  ghost predicate Holds(parity: map<AssetId, int>, sources: seq<AssetAmount>, dests: seq<AssetAmount>)
  {
    && (forall a: AssetId :: a in parity <==> Mentions(sources, a))
    && (forall a: AssetId :: V.ParityAt(parity, a) == Total(sources, a) - Total(dests, a))
  }

  lemma {:induction false} AddExact(vs: seq<AssetAmount>)
    ensures V.AddSources(vs).Totals? <==> SumsInRange(vs)
    ensures V.AddSources(vs).Totals? ==> Holds(V.AddSources(vs).parity, vs, [])
    decreases |vs|
  {
    if vs != [] {
      var shorter, v := vs[..|vs| - 1], vs[|vs| - 1];
      AddExact(shorter);
      MentionsStep(vs);
      if V.AddSources(shorter).Totals? {
        var parity := V.AddSources(shorter).parity;
        var sum := V.ParityAt(parity, v.assetId) + AsSigned(v.amount);
        assert sum == Total(vs, v.assetId);
        assert forall a: AssetId :: a != v.assetId ==> Total(vs, a) == Total(shorter, a);
      }
    }
  }

  lemma {:induction false} MentionsStep(vs: seq<AssetAmount>)
    requires vs != []
    ensures forall a: AssetId :: Mentions(vs, a) <==> Mentions(vs[..|vs| - 1], a) || vs[|vs| - 1].assetId == a
  {
    var shorter := vs[..|vs| - 1];
    forall a: AssetId
      ensures Mentions(vs, a) <==> Mentions(shorter, a) || vs[|vs| - 1].assetId == a
    {
      if Mentions(shorter, a) {
        var i :| 0 <= i < |shorter| && shorter[i].assetId == a;
        assert vs[i].assetId == a;
      }
    }
  }

  lemma {:induction false} SubExact(start: map<AssetId, int>, sources: seq<AssetAmount>, dests: seq<AssetAmount>)
    requires Holds(start, sources, []) && forall a: AssetId :: InInt64(Total(sources, a))
    ensures V.SubDests(start, dests).Totals? <==> Covered(sources, dests) && DiffsInRange(sources, dests)
    ensures V.SubDests(start, dests).Totals? ==> Holds(V.SubDests(start, dests).parity, sources, dests)
    decreases |dests|
  {
    if dests != [] {
      var shorter, v := dests[..|dests| - 1], dests[|dests| - 1];
      SubExact(start, sources, shorter);
      CoveredStep(sources, dests);
      if V.SubDests(start, shorter).Totals? {
        var parity := V.SubDests(start, shorter).parity;
        assert V.ParityAt(parity, v.assetId) - AsSigned(v.amount) == Total(sources, v.assetId) - Total(dests, v.assetId);
        assert forall a: AssetId :: a != v.assetId ==> Total(dests, a) == Total(shorter, a);
      }
    }
  }

  lemma {:induction false} CoveredStep(sources: seq<AssetAmount>, dests: seq<AssetAmount>)
    requires dests != []
    ensures Covered(sources, dests) <==> Covered(sources, dests[..|dests| - 1]) && Mentions(sources, dests[|dests| - 1].assetId)
  {
    var shorter := dests[..|dests| - 1];
    assert forall j :: 0 <= j < |shorter| ==> shorter[j] == dests[j];
  }

  lemma {:induction false} ZeroParity(parity: map<AssetId, int>)
    ensures (forall a: AssetId :: a in parity ==> parity[a] == 0) <==> AllZero(parity)
  {
    if AllZero(parity) {
      forall a: AssetId | a in parity
        ensures parity[a] == 0
      {
        assert V.ParityAt(parity, a) == 0;
      }
    }
  }

  /**
    A mux passes the parity loops exactly when no partial sum overflows, every destination's asset has a
    source, and the two sides balance.
   */
  lemma {:induction false} ParityExact(sources: seq<AssetAmount>, dests: seq<AssetAmount>)
    ensures V.CheckParity(sources, dests).Ok? <==>
      && SumsInRange(sources) && DiffsInRange(sources, dests) && Covered(sources, dests)
      && Balanced(sources, dests)
  {
    AddExact(sources);
    if V.AddSources(sources).Totals? {
      var added := V.AddSources(sources).parity;
      SubExact(added, sources, dests);
      if V.SubDests(added, dests).Totals? {
        var parity := V.SubDests(added, dests).parity;
        ZeroParity(parity);
        BalancedParity(parity, sources, dests);
        assert V.CheckParity(sources, dests).Ok? <==> forall a: AssetId :: a in parity ==> parity[a] == 0;
      } else {
        assert V.CheckParity(sources, dests).Err?;
      }
    } else {
      assert V.CheckParity(sources, dests).Err?;
    }
  }

  lemma {:induction false} BalancedParity(parity: map<AssetId, int>, sources: seq<AssetAmount>, dests: seq<AssetAmount>)
    requires Holds(parity, sources, dests)
    ensures AllZero(parity) <==> Balanced(sources, dests)
  {
    if AllZero(parity) {
      forall a: AssetId
        ensures Total(sources, a) == Total(dests, a)
      {
        assert V.ParityAt(parity, a) == 0;
      }
    }
    if Balanced(sources, dests) {
      forall a: AssetId
        ensures V.ParityAt(parity, a) == 0
      {
        assert Total(sources, a) == Total(dests, a);
      }
    }
  }
}
