/**
  mapTx as the source runs it. Entries are allocated objects that the map points at, and the witness fields
  of a spend, issuance, nonce or mux are filled in after the entry was added. The arena plays the part of the
  Go heap: an entry pointer is an index into it, so that two inputs with the same identifier have two objects
  of which the map keeps the last.
 */
module TxMapper {
  import opened Basics
  import opened Entries
  import opened Opcodes
  import opened LegacyTx

  function WithDestination(e: Entry, d: Option<ValueDestination>): Entry
  {
    match e
    case Spend(o, data, x, ord, _, args, a) => Spend(o, data, x, ord, d, args, a)
    case Issuance(anchor, v, data, x, ord, _, def, args, a) => Issuance(anchor, v, data, x, ord, d, def, args, a)
    case _ => e
  }

  function WithAnchored(e: Entry, a: Option<Hash>): Entry
  {
    match e
    case Spend(o, data, x, ord, d, args, _) => Spend(o, data, x, ord, d, args, a)
    case Nonce(p, t, x, args, _) => Nonce(p, t, x, args, a)
    case _ => e
  }

  function WithDestinations(e: Entry, ds: seq<Option<ValueDestination>>): Entry
  {
    match e
    case Mux(s, p, x, _, args) => Mux(s, p, x, ds, args)
    case _ => e
  }

  /** The heap of entry objects and the map from identifiers to them. */
  datatype Store = Store(arena: seq<Entry>, ids: map<Hash, nat>)
  {
    function At(id: Hash): Entry
      requires id in ids && ids[id] < |arena|
    {
      arena[ids[id]]
    }
  }

  ghost predicate Keyed(env: Env, td: TxData, s: Store)
  {
    forall id :: id in s.ids ==>
      s.ids[id] < |s.arena| && env.EntryId(s.At(id)) == id && Body(s.At(id)) in Bodies(env, td)
  }

  /** Without collisions an identifier determines the body stored under it. */
  lemma {:induction false} BodyAt(env: Env, td: TxData, s: Store, id: Hash, b: Entry)
    requires Keyed(env, td, s) && Hashable(env, td) && id in s.ids && b in Bodies(env, td) && env.hashOf(b) == id
    ensures Body(s.At(id)) == b
  {
  }

  // ---------------------------------------------------------------- membership in the set of bodies

  lemma {:induction false} InputBodyIn(env: Env, td: TxData, i: nat)
    requires i < |td.inputs|
    ensures InputBodies(env, td, td.inputs[i]) <= Bodies(env, td)
  {
  }

  lemma {:induction false} OtherBodiesIn(env: Env, td: TxData)
    ensures Body(MuxEntry(env, td)) in Bodies(env, td) && HeaderEntry(env, td) in Bodies(env, td)
    ensures forall j :: 0 <= j < |td.outputs| ==> Body(ResultEntry(env, td, j)) in Bodies(env, td)
  {
  }

  // ---------------------------------------------------------------- phases

  /** What a spend object looks like: destination set or not yet, anchor mark after n inputs. */
  ghost predicate SpendCell(env: Env, td: TxData, e: Entry, dest: bool, n: nat)
  {
    && e.Spend? && e.ordinal < |td.inputs| && td.inputs[e.ordinal].SpendInput?
    && var inp := td.inputs[e.ordinal];
       e == SpendWith(env, inp, e.ordinal, if dest then ToMux(env, td, inp.value, e.ordinal) else None,
                      SpendAnchored(env, td, e.ordinal, n))
  }

  ghost predicate IssuanceCell(env: Env, td: TxData, e: Entry, dest: bool)
  {
    && e.Issuance? && e.ordinal < |td.inputs| && td.inputs[e.ordinal].IssuanceInput?
    && var inp := td.inputs[e.ordinal];
       e == IssuanceWith(env, td, inp, e.ordinal, if dest then ToMux(env, td, IssuedValue(env, inp), e.ordinal) else None)
  }

  /** The objects of the spends, in input order; the first is the first spend; `done` of them have their destination. */
  ghost predicate SpendList(env: Env, td: TxData, arena: seq<Entry>, spends: seq<nat>, n: nat, anchors: nat, done: nat)
    requires n <= |td.inputs|
  {
    && (forall k :: 0 <= k < |spends| ==>
          spends[k] < |arena| && SpendCell(env, td, arena[spends[k]], k < done, anchors) && arena[spends[k]].ordinal < n)
    && (forall k, l :: 0 <= k < l < |spends| ==>
          spends[k] < spends[l] && arena[spends[k]].ordinal < arena[spends[l]].ordinal)
    && (if spends == [] then NoSpendBefore(td, n) else FirstSpend(td) == Some(arena[spends[0]].ordinal))
  }

  /** Of the spends with one identifier the map keeps the last object. */
  ghost predicate SpendMap(env: Env, td: TxData, s: Store, spends: seq<nat>, n: nat)
    requires Keyed(env, td, s)
  {
    forall id :: id in s.ids && s.At(id).Spend? ==>
      s.ids[id] in spends && LastSpend(env, td, id, n) == Some(s.At(id).ordinal)
  }

  ghost predicate SpendsAdded(env: Env, td: TxData, s: Store, n: nat)
    requires n <= |td.inputs|
  {
    forall i :: 0 <= i < n && td.inputs[i].SpendInput? ==>
      PrevoutId(env, td.inputs[i]) in s.ids && SpendId(env, td.inputs[i]) in s.ids
  }

  ghost predicate SpendPhase(env: Env, td: TxData, s: Store, spends: seq<nat>, n: nat)
    requires n <= |td.inputs|
  {
    && Keyed(env, td, s) && SpendList(env, td, s.arena, spends, n, 0, 0)
    && SpendMap(env, td, s, spends, n) && SpendsAdded(env, td, s, n)
    && (forall id :: id in s.ids ==> s.At(id).Output? || s.At(id).Spend?)
  }

  /** addEntry */
  function Add(env: Env, s: Store, e: Entry): Store
  {
    Store(s.arena + [e], s.ids[env.EntryId(e) := |s.arena|])
  }

  lemma {:induction false} AddKeepsKeyed(env: Env, td: TxData, s: Store, e: Entry)
    requires Keyed(env, td, s) && Body(e) in Bodies(env, td)
    ensures Keyed(env, td, Add(env, s, e))
    ensures Add(env, s, e).At(env.EntryId(e)) == e
    ensures forall id :: id in s.ids && id != env.EntryId(e) ==>
      id in Add(env, s, e).ids && Add(env, s, e).At(id) == s.At(id)
  {
  }

  /** Adding an entry of another kind leaves the spends alone. */
  lemma {:induction false} AddKeepsSpends(env: Env, td: TxData, s: Store, spends: seq<nat>, n: nat, anchors: nat, done: nat, e: Entry)
    requires Keyed(env, td, s) && n <= |td.inputs| && Body(e) in Bodies(env, td) && !e.Spend?
    requires SpendList(env, td, s.arena, spends, n, anchors, done) && SpendMap(env, td, s, spends, n) && SpendsAdded(env, td, s, n)
    ensures
      var s' := Add(env, s, e);
      && Keyed(env, td, s') && SpendList(env, td, s'.arena, spends, n, anchors, done)
      && SpendMap(env, td, s', spends, n) && SpendsAdded(env, td, s', n)
  {
    hide SpendCell, Bodies, Env.EntryId, FirstSpend, SpendId, PrevoutId, LastSpend;
    AddKeepsKeyed(env, td, s, e);
    var s' := Add(env, s, e);
    forall id | id in s'.ids && s'.At(id).Spend?
      ensures s'.ids[id] in spends && LastSpend(env, td, id, n) == Some(s'.At(id).ordinal)
    {
      assert id in s.ids && s.At(id) == s'.At(id);
    }
    assert forall k :: 0 <= k < |spends| ==> s'.arena[spends[k]] == s.arena[spends[k]];
  }

  lemma {:induction false} SkipSpend(env: Env, td: TxData, s: Store, spends: seq<nat>, i: nat)
    requires i < |td.inputs| && !td.inputs[i].SpendInput? && SpendPhase(env, td, s, spends, i)
    ensures SpendPhase(env, td, s, spends, i + 1)
  {
    hide SpendCell, SpendWith, Bodies, Env.EntryId, FirstSpend;
  }

  /** One spend input: its prevout, its own entry, and a new object in the list. */
  lemma {:induction false} AddSpend(env: Env, td: TxData, s: Store, spends: seq<nat>, i: nat)
    requires Hashable(env, td)
    requires i < |td.inputs| && td.inputs[i].SpendInput? && SpendPhase(env, td, s, spends, i)
    ensures
      var s1 := Add(env, s, PrevoutEntry(td.inputs[i]));
      var s2 := Add(env, s1, SpendEntry(env, td.inputs[i], i));
      SpendPhase(env, td, s2, spends + [|s1.arena|], i + 1)
  {
    hide SpendList, SpendMap, SpendsAdded, Keyed, Bodies;
    var inp := td.inputs[i];
    var prevout, spend := PrevoutEntry(inp), SpendEntry(env, inp, i);
    var s1 := Add(env, s, prevout);
    SpendFacts(env, td, i);
    AddKeepsSpends(env, td, s, spends, i, 0, 0, prevout);
    AddKeepsKeyed(env, td, s, prevout);
    assert forall id :: id in s1.ids ==> s1.At(id).Output? || s1.At(id).Spend?;
    AppendSpend(env, td, s1, spends, i, spend);
  }

  lemma {:induction false} SpendFacts(env: Env, td: TxData, i: nat)
    requires i < |td.inputs| && td.inputs[i].SpendInput?
    ensures Body(PrevoutEntry(td.inputs[i])) in Bodies(env, td) && Body(SpendEntry(env, td.inputs[i], i)) in Bodies(env, td)
    ensures env.EntryId(SpendEntry(env, td.inputs[i], i)) == SpendId(env, td.inputs[i])
    ensures SpendCell(env, td, SpendEntry(env, td.inputs[i], i), false, 0)
  {
    hide Bodies;
    InputBodyIn(env, td, i);
    assert Body(SpendEntry(env, td.inputs[i], i)) == Body(SpendEntry(env, td.inputs[i], 0));
    assert SpendAnchored(env, td, i, 0) == None;
  }

  lemma {:induction false} AppendSpend(env: Env, td: TxData, s: Store, spends: seq<nat>, i: nat, spend: Entry)
    requires i < |td.inputs| && td.inputs[i].SpendInput? && SpendPhase(env, td, s, spends, i)
    requires SpendCell(env, td, spend, false, 0) && spend.Spend? && spend.ordinal == i
    requires Body(spend) in Bodies(env, td) && env.EntryId(spend) == SpendId(env, td.inputs[i])
    requires PrevoutId(env, td.inputs[i]) in s.ids
    ensures SpendPhase(env, td, Add(env, s, spend), spends + [|s.arena|], i + 1)
  {
    hide SpendCell, Bodies, Env.EntryId, FirstSpend, SpendId, PrevoutId, SpendList, SpendMap, Body, LastSpend;
    AddKeepsKeyed(env, td, s, spend);
    AppendToList(env, td, s.arena, spends, i, spend);
    AppendToMap(env, td, s, spends, i, spend);
  }

  lemma {:induction false} AppendToList(env: Env, td: TxData, arena: seq<Entry>, spends: seq<nat>, i: nat, spend: Entry)
    requires i < |td.inputs| && td.inputs[i].SpendInput? && SpendList(env, td, arena, spends, i, 0, 0)
    requires SpendCell(env, td, spend, false, 0) && spend.Spend? && spend.ordinal == i
    ensures SpendList(env, td, arena + [spend], spends + [|arena|], i + 1, 0, 0)
  {
    hide SpendCell, FirstSpend;
    if spends == [] {
      FirstSpendIs(td, i);
    }
  }

  lemma {:induction false} AppendToMap(env: Env, td: TxData, s: Store, spends: seq<nat>, i: nat, spend: Entry)
    requires i < |td.inputs| && td.inputs[i].SpendInput? && Keyed(env, td, s) && SpendMap(env, td, s, spends, i)
    requires spend.Spend? && spend.ordinal == i && Body(spend) in Bodies(env, td) && env.EntryId(spend) == SpendId(env, td.inputs[i])
    ensures Keyed(env, td, Add(env, s, spend)) && SpendMap(env, td, Add(env, s, spend), spends + [|s.arena|], i + 1)
  {
    hide Bodies, Env.EntryId, SpendId, Body;
    AddKeepsKeyed(env, td, s, spend);
    var s2, spends2 := Add(env, s, spend), spends + [|s.arena|];
    forall id | id in s2.ids && s2.At(id).Spend?
      ensures s2.ids[id] in spends2 && LastSpend(env, td, id, i + 1) == Some(s2.At(id).ordinal)
    {
      if id == env.EntryId(spend) {
        assert spends2[|spends|] == s2.ids[id];
        assert IsSpend(env, td, i, id);
      } else {
        assert id in s.ids && s.At(id) == s2.At(id);
        assert s.ids[id] in spends;
      }
    }
  }

  lemma {:induction false} FirstSpendIs(td: TxData, i: nat)
    requires i < |td.inputs| && td.inputs[i].SpendInput? && NoSpendBefore(td, i)
    ensures FirstSpend(td) == Some(i)
  {
    var f := FirstSpend(td);
    assert f.Some? ==> NoSpendBefore(td, f.value);
  }

  lemma {:induction false} EmptyStore(env: Env, td: TxData)
    ensures SpendPhase(env, td, Store([], map[]), [], 0)
  {
  }

  method MapSpends(env: Env, td: TxData) returns (s: Store, spends: seq<nat>, muxSources: seq<Option<ValueSource>>)
    requires Hashable(env, td)
    ensures SpendPhase(env, td, s, spends, |td.inputs|)
    ensures |muxSources| == |td.inputs|
    ensures forall i :: 0 <= i < |td.inputs| ==>
      muxSources[i] == if td.inputs[i].SpendInput? then MuxSource(env, td, td.inputs[i]) else None
  {
    hide Bodies, SpendCell, FirstSpend, LastSpend, SpendMap, SpendList, SpendsAdded, Keyed;
    EmptyStore(env, td);
    s, spends := Store([], map[]), [];
    muxSources := seq(|td.inputs|, _ => None);
    for i := 0 to |td.inputs|
      invariant SpendPhase(env, td, s, spends, i)
      invariant |muxSources| == |td.inputs|
      invariant forall k :: 0 <= k < |td.inputs| ==>
        muxSources[k] == if k < i && td.inputs[k].SpendInput? then MuxSource(env, td, td.inputs[k]) else None
    {
      var inp := td.inputs[i];
      if inp.SpendInput? {
        AddSpend(env, td, s, spends, i);
        var prevout := PrevoutEntry(inp);
        s := Add(env, s, prevout);
        var sp := Spend(Some(env.EntryId(prevout)), env.hashData(inp.referenceData), None, i, None, inp.arguments, None);
        spends := spends + [|s.arena|];
        s := Add(env, s, sp);
        muxSources := muxSources[i := Some(ValueSource(Some(env.EntryId(sp)), Some(inp.value), 0))];
      } else {
        SkipSpend(env, td, s, spends, i);
      }
    }
  }

  // ---------------------------------------------------------------- issuances

  ghost predicate IssuanceList(env: Env, td: TxData, arena: seq<Entry>, issuances: seq<nat>, n: nat, done: nat)
  {
    && (forall k :: 0 <= k < |issuances| ==>
          issuances[k] < |arena| && IssuanceCell(env, td, arena[issuances[k]], k < done) && arena[issuances[k]].ordinal < n)
    && (forall k, l :: 0 <= k < l < |issuances| ==> issuances[k] < issuances[l])
  }

  ghost predicate IssuanceMap(env: Env, td: TxData, s: Store, issuances: seq<nat>, n: nat)
    requires Keyed(env, td, s)
  {
    forall id :: id in s.ids && s.At(id).Issuance? ==>
      s.ids[id] in issuances && LastIssuance(env, td, id, n) == Some(s.At(id).ordinal)
  }

  ghost predicate IssuancesAdded(env: Env, td: TxData, s: Store, n: nat)
    requires n <= |td.inputs|
  {
    forall i :: 0 <= i < n && td.inputs[i].IssuanceInput? ==>
      && IssuanceId(env, td, td.inputs[i]) in s.ids
      && (|td.inputs[i].nonce| > 0 ==>
            NonceId(env, td, td.inputs[i]) in s.ids && env.EntryId(TimeRangeEntry(td)) in s.ids)
  }

  ghost predicate NonceMap(env: Env, td: TxData, s: Store, n: nat)
    requires Keyed(env, td, s)
  {
    forall id :: id in s.ids ==> NonceOf(env, td, s.At(id), id, n)
  }

  /** The entries of the inputs after the issuances among the first n inputs were mapped. */
  ghost predicate IssuancePhase(env: Env, td: TxData, s: Store, spends: seq<nat>, issuances: seq<nat>, n: nat)
    requires n <= |td.inputs|
  {
    && Keyed(env, td, s)
    && SpendList(env, td, s.arena, spends, |td.inputs|, n, 0)
    && SpendMap(env, td, s, spends, |td.inputs|) && SpendsAdded(env, td, s, |td.inputs|)
    && IssuanceList(env, td, s.arena, issuances, n, 0)
    && IssuanceMap(env, td, s, issuances, n) && IssuancesAdded(env, td, s, n)
    && NonceMap(env, td, s, n)
  }

  lemma {:induction false} StartIssuances(env: Env, td: TxData, s: Store, spends: seq<nat>)
    requires SpendPhase(env, td, s, spends, |td.inputs|)
    ensures IssuancePhase(env, td, s, spends, [], 0)
  {
    hide SpendList, SpendMap, SpendsAdded, Bodies, Env.EntryId;
  }

  lemma {:induction false} AddKeepsIssuances(env: Env, td: TxData, s: Store, issuances: seq<nat>, n: nat, done: nat, e: Entry)
    requires Keyed(env, td, s) && n <= |td.inputs| && Body(e) in Bodies(env, td) && !e.Issuance?
    requires IssuanceList(env, td, s.arena, issuances, n, done) && IssuanceMap(env, td, s, issuances, n) && IssuancesAdded(env, td, s, n)
    ensures
      var s' := Add(env, s, e);
      && Keyed(env, td, s') && IssuanceList(env, td, s'.arena, issuances, n, done)
      && IssuanceMap(env, td, s', issuances, n) && IssuancesAdded(env, td, s', n)
  {
    hide IssuanceCell, Bodies, Env.EntryId, IssuanceId, NonceId, LastIssuance;
    AddKeepsKeyed(env, td, s, e);
    var s' := Add(env, s, e);
    forall id | id in s'.ids && s'.At(id).Issuance?
      ensures s'.ids[id] in issuances && LastIssuance(env, td, id, n) == Some(s'.At(id).ordinal)
    {
      assert id in s.ids && s.At(id) == s'.At(id);
    }
    assert forall k :: 0 <= k < |issuances| ==> s'.arena[issuances[k]] == s.arena[issuances[k]];
  }

  lemma {:induction false} AddKeepsNonces(env: Env, td: TxData, s: Store, n: nat, e: Entry)
    requires Keyed(env, td, s) && Body(e) in Bodies(env, td) && !e.Nonce? && NonceMap(env, td, s, n)
    ensures Keyed(env, td, Add(env, s, e)) && NonceMap(env, td, Add(env, s, e), n)
  {
    hide Bodies, Env.EntryId, LastUser;
    AddKeepsKeyed(env, td, s, e);
  }

  /** A new issuance object. */
  lemma {:induction false} AddIssuance(env: Env, td: TxData, s: Store, issuances: seq<nat>, i: nat, e: Entry)
    requires Keyed(env, td, s) && i < |td.inputs| && td.inputs[i].IssuanceInput? && Body(e) in Bodies(env, td)
    requires IssuanceList(env, td, s.arena, issuances, i, 0) && IssuanceMap(env, td, s, issuances, i) && IssuancesAdded(env, td, s, i)
    requires e.Issuance? && e.ordinal == i && IssuanceCell(env, td, e, false) && env.EntryId(e) == IssuanceId(env, td, td.inputs[i])
    requires |td.inputs[i].nonce| > 0 ==> NonceId(env, td, td.inputs[i]) in s.ids && env.EntryId(TimeRangeEntry(td)) in s.ids
    ensures
      var s' := Add(env, s, e);
      && Keyed(env, td, s') && IssuanceList(env, td, s'.arena, issuances + [|s.arena|], i + 1, 0)
      && IssuanceMap(env, td, s', issuances + [|s.arena|], i + 1) && IssuancesAdded(env, td, s', i + 1)
  {
    hide IssuanceCell, Bodies, Env.EntryId, IssuanceId, NonceId;
    AddKeepsKeyed(env, td, s, e);
    var s', issuances' := Add(env, s, e), issuances + [|s.arena|];
    forall id | id in s'.ids && s'.At(id).Issuance?
      ensures s'.ids[id] in issuances' && LastIssuance(env, td, id, i + 1) == Some(s'.At(id).ordinal)
    {
      if id == env.EntryId(e) {
        assert IsIssuance(env, td, i, id);
        assert issuances'[|issuances|] == s'.ids[id];
      } else {
        assert id in s.ids && s.At(id) == s'.At(id);
        assert s.ids[id] in issuances;
      }
    }
    assert forall k :: 0 <= k < |issuances| ==> issuances'[k] == issuances[k] && s'.arena[issuances[k]] == s.arena[issuances[k]];
    assert s'.arena[|s.arena|] == e;
  }

  /** A new nonce object, already marked with its issuance. */
  lemma {:induction false} AddNonce(env: Env, td: TxData, s: Store, i: nat)
    requires Keyed(env, td, s) && i < |td.inputs| && td.inputs[i].IssuanceInput? && |td.inputs[i].nonce| > 0
    requires NonceMap(env, td, s, i)
    requires Body(NonceEntry(env, td, td.inputs[i])) in Bodies(env, td)
    ensures
      var e := NonceWith(env, td, td.inputs[i], Some(IssuanceId(env, td, td.inputs[i])));
      && Body(e) in Bodies(env, td) && env.EntryId(e) == NonceId(env, td, td.inputs[i])
      && Keyed(env, td, Add(env, s, e)) && NonceMap(env, td, Add(env, s, e), i + 1)
  {
    hide Bodies, IssuanceId, NonceProgram;
    var e := NonceWith(env, td, td.inputs[i], Some(IssuanceId(env, td, td.inputs[i])));
    assert Body(e) == Body(NonceEntry(env, td, td.inputs[i]));
    AddKeepsKeyed(env, td, s, e);
    var s' := Add(env, s, e);
    forall id | id in s'.ids
      ensures NonceOf(env, td, s'.At(id), id, i + 1)
    {
      if id == env.EntryId(e) {
        assert UsesNonce(env, td, i, id);
      } else {
        assert id in s.ids && s.At(id) == s'.At(id);
        assert !UsesNonce(env, td, i, id);
      }
    }
  }

  /** An input without a nonce leaves the nonces alone. */
  lemma {:induction false} SkipNonce(env: Env, td: TxData, s: Store, i: nat)
    requires Keyed(env, td, s) && i < |td.inputs| && NonceMap(env, td, s, i)
    requires !td.inputs[i].IssuanceInput? || |td.inputs[i].nonce| == 0
    ensures NonceMap(env, td, s, i + 1)
  {
    hide Bodies, Env.EntryId, NonceWith, IssuanceId;
    assert forall id :: !UsesNonce(env, td, i, id);
  }

  /** An input that is not a plain issuance does not move the anchor mark of the first spend. */
  lemma {:induction false} AnchorsUnmoved(env: Env, td: TxData, arena: seq<Entry>, spends: seq<nat>, i: nat)
    requires i < |td.inputs| && !UsesSpend(td, i) && SpendList(env, td, arena, spends, |td.inputs|, i, 0)
    ensures SpendList(env, td, arena, spends, |td.inputs|, i + 1, 0)
  {
    hide SpendWith, ToMux, IssuanceId, FirstSpend;
    assert LastPlain(td, i + 1) == LastPlain(td, i);
    assert forall o :: SpendAnchored(env, td, o, i + 1) == SpendAnchored(env, td, o, i);
  }

  lemma {:induction false} SkipIssuance(env: Env, td: TxData, s: Store, spends: seq<nat>, issuances: seq<nat>, i: nat)
    requires i < |td.inputs| && !td.inputs[i].IssuanceInput? && IssuancePhase(env, td, s, spends, issuances, i)
    ensures IssuancePhase(env, td, s, spends, issuances, i + 1)
  {
    hide SpendList, SpendMap, SpendsAdded, NonceMap, Bodies, Env.EntryId, IssuanceCell, IssuanceId, NonceId;
    AnchorsUnmoved(env, td, s.arena, spends, i);
    SkipNonce(env, td, s, i);
    assert forall id :: !IsIssuance(env, td, i, id);
  }

  // ---------------------------------------------------------------- writing to an object

  function Set(s: Store, at: nat, e: Entry): Store
    requires at < |s.arena|
  {
    Store(s.arena[at := e], s.ids)
  }

  /** The same entry with other witness fields: identifier, kind and ordinal stay. */
  ghost predicate SameEntry(a: Entry, b: Entry)
  {
    && Body(a) == Body(b) && !a.Nonce?
    && (a.Spend? ==> a.ordinal == b.ordinal) && (a.Issuance? ==> a.ordinal == b.ordinal)
  }

  lemma {:induction false} SetKeepsMaps(env: Env, td: TxData, s: Store, at: nat, e: Entry, spends: seq<nat>, issuances: seq<nat>, n: nat, m: nat)
    requires Keyed(env, td, s) && at < |s.arena| && SameEntry(s.arena[at], e) && n <= |td.inputs|
    requires SpendMap(env, td, s, spends, |td.inputs|) && IssuanceMap(env, td, s, issuances, n) && NonceMap(env, td, s, m)
    ensures
      var s' := Set(s, at, e);
      && Keyed(env, td, s') && SpendMap(env, td, s', spends, |td.inputs|)
      && IssuanceMap(env, td, s', issuances, n) && NonceMap(env, td, s', m)
  {
    hide Bodies, LastSpend, LastIssuance, LastUser, NonceWith, IssuanceId;
    var s' := Set(s, at, e);
    forall id | id in s.ids
      ensures s'.ids[id] == s.ids[id] && (s'.At(id) == s.At(id) || SameEntry(s.At(id), s'.At(id)))
    {
    }
  }

  /** Marking the first spend after a plain issuance. */
  lemma {:induction false} MarkFirst(env: Env, td: TxData, arena: seq<Entry>, spends: seq<nat>, i: nat)
    requires i < |td.inputs| && UsesSpend(td, i) && spends != []
    requires SpendList(env, td, arena, spends, |td.inputs|, i, 0)
    ensures SpendList(env, td,
      arena[spends[0] := WithAnchored(arena[spends[0]], Some(IssuanceId(env, td, td.inputs[i])))], spends, |td.inputs|, i + 1, 0)
  {
    hide IssuanceId, FirstSpend, PrevoutId, Env.EntryId;
    var e := WithAnchored(arena[spends[0]], Some(IssuanceId(env, td, td.inputs[i])));
    assert LastPlain(td, i + 1) == Some(i);
    var arena' := arena[spends[0] := e];
    forall k | 0 <= k < |spends|
      ensures arena'[spends[k]].Spend? && arena'[spends[k]].ordinal == arena[spends[k]].ordinal
      ensures SpendCell(env, td, arena'[spends[k]], false, i + 1)
    {
      if k > 0 {
        assert spends[0] < spends[k];
        assert SpendAnchored(env, td, arena[spends[k]].ordinal, i + 1) == SpendAnchored(env, td, arena[spends[k]].ordinal, i);
      }
    }
  }

  lemma {:induction false} IssuanceFacts(env: Env, td: TxData, i: nat)
    requires i < |td.inputs| && td.inputs[i].IssuanceInput?
    ensures Body(IssuanceEntry(env, td, td.inputs[i], i)) in Bodies(env, td)
    ensures env.EntryId(IssuanceEntry(env, td, td.inputs[i], i)) == IssuanceId(env, td, td.inputs[i])
    ensures IssuanceCell(env, td, IssuanceEntry(env, td, td.inputs[i], i), false)
    ensures |td.inputs[i].nonce| > 0 ==>
      Body(TimeRangeEntry(td)) in Bodies(env, td) && Body(NonceEntry(env, td, td.inputs[i])) in Bodies(env, td)
  {
    hide Bodies;
    InputBodyIn(env, td, i);
    assert Body(IssuanceEntry(env, td, td.inputs[i], i)) == Body(IssuanceEntry(env, td, td.inputs[i], 0));
  }

  /** One issuance input with a nonce: time range, nonce, issuance. */
  lemma {:induction false} NonceStep(env: Env, td: TxData, s: Store, spends: seq<nat>, issuances: seq<nat>, i: nat)
    requires i < |td.inputs| && td.inputs[i].IssuanceInput? && |td.inputs[i].nonce| > 0
    requires IssuancePhase(env, td, s, spends, issuances, i)
    ensures
      var s1 := Add(env, s, TimeRangeEntry(td));
      var s2 := Add(env, s1, NonceWith(env, td, td.inputs[i], Some(IssuanceId(env, td, td.inputs[i]))));
      var s3 := Add(env, s2, IssuanceEntry(env, td, td.inputs[i], i));
      IssuancePhase(env, td, s3, spends, issuances + [|s2.arena|], i + 1)
  {
    hide SpendList, SpendMap, SpendsAdded, IssuanceList, IssuanceMap, IssuancesAdded, NonceMap, Keyed, Bodies, IssuanceCell, IssuanceId;
    hide NonceId, Env.EntryId, SpendCell, Body, IssuanceEntry;
    IssuanceFacts(env, td, i);
    var tr := TimeRangeEntry(td);
    var nonce := NonceWith(env, td, td.inputs[i], Some(IssuanceId(env, td, td.inputs[i])));
    var iss := IssuanceEntry(env, td, td.inputs[i], i);
    IssuanceKind(env, td, i);
    AddKeepsSpends(env, td, s, spends, |td.inputs|, i, 0, tr);
    AddKeepsIssuances(env, td, s, issuances, i, 0, tr);
    AddKeepsNonces(env, td, s, i, tr);
    var s1 := Add(env, s, tr);
    AddNonce(env, td, s1, i);
    AddKeepsSpends(env, td, s1, spends, |td.inputs|, i, 0, nonce);
    AddKeepsIssuances(env, td, s1, issuances, i, 0, nonce);
    var s2 := Add(env, s1, nonce);
    AddIssuance(env, td, s2, issuances, i, iss);
    AddKeepsSpends(env, td, s2, spends, |td.inputs|, i, 0, iss);
    AddKeepsNonces(env, td, s2, i + 1, iss);
    AnchorsUnmoved(env, td, Add(env, s2, iss).arena, spends, i);
  }

  lemma {:induction false} IssuanceKind(env: Env, td: TxData, i: nat)
    requires i < |td.inputs| && td.inputs[i].IssuanceInput?
    ensures IssuanceEntry(env, td, td.inputs[i], i).Issuance? && IssuanceEntry(env, td, td.inputs[i], i).ordinal == i
  {
  }

  function MarkedStore(env: Env, td: TxData, s: Store, spends: seq<nat>, i: nat): Store
    requires i < |td.inputs| && td.inputs[i].IssuanceInput? && (spends != [] ==> spends[0] < |s.arena|)
  {
    if spends == [] then s
    else Set(s, spends[0], WithAnchored(s.arena[spends[0]], Some(IssuanceId(env, td, td.inputs[i]))))
  }

  /** One issuance input without a nonce: the issuance, and the mark on the first spend if there is one. */
  lemma {:induction false} PlainStep(env: Env, td: TxData, s: Store, spends: seq<nat>, issuances: seq<nat>, i: nat)
    requires UsesSpend(td, i) && IssuancePhase(env, td, s, spends, issuances, i)
    ensures
      var s1 := Add(env, s, IssuanceEntry(env, td, td.inputs[i], i));
      && (spends != [] ==> spends[0] < |s.arena|)
      && IssuancePhase(env, td, MarkedStore(env, td, s1, spends, i), spends, issuances + [|s.arena|], i + 1)
  {
    hide SpendMap, SpendsAdded, IssuanceMap, IssuancesAdded, NonceMap, Keyed, Bodies, IssuanceId;
    hide NonceId, Env.EntryId, SpendCell, Body, IssuanceEntry, FirstSpend;
    IssuanceFacts(env, td, i);
    IssuanceKind(env, td, i);
    var iss := IssuanceEntry(env, td, td.inputs[i], i);
    AddIssuance(env, td, s, issuances, i, iss);
    AddKeepsSpends(env, td, s, spends, |td.inputs|, i, 0, iss);
    AddKeepsNonces(env, td, s, i, iss);
    var s1, issuances' := Add(env, s, iss), issuances + [|s.arena|];
    SkipNonce(env, td, s1, i);
    if spends != [] {
      assert SpendCell(env, td, s1.arena[spends[0]], false, i);
      SpendIsSpend(env, td, s1.arena[spends[0]], i);
      var e := WithAnchored(s1.arena[spends[0]], Some(IssuanceId(env, td, td.inputs[i])));
      AnchoredSame(s1.arena[spends[0]], Some(IssuanceId(env, td, td.inputs[i])));
      MarkFirst(env, td, s1.arena, spends, i);
      SetKeepsMaps(env, td, s1, spends[0], e, spends, issuances', i + 1, i + 1);
      IssuanceListKept(env, td, s1.arena, issuances', i + 1, spends[0], e);
      AddedKept(env, td, s1, Set(s1, spends[0], e), i + 1);
    } else {
      assert SpendList(env, td, s1.arena, spends, |td.inputs|, i + 1, 0);
    }
  }

  lemma {:induction false} SpendIsSpend(env: Env, td: TxData, e: Entry, i: nat)
    requires SpendCell(env, td, e, false, i)
    ensures e.Spend?
  {
  }

  lemma {:induction false} AnchoredSame(e: Entry, a: Option<Hash>)
    requires e.Spend?
    ensures SameEntry(e, WithAnchored(e, a)) && WithAnchored(e, a).Spend?
  {
  }

  lemma {:induction false} IssuanceListKept(env: Env, td: TxData, arena: seq<Entry>, issuances: seq<nat>, n: nat, at: nat, e: Entry)
    requires IssuanceList(env, td, arena, issuances, n, 0) && at < |arena| && arena[at].Spend?
    ensures IssuanceList(env, td, arena[at := e], issuances, n, 0)
  {
  }

  lemma {:induction false} AddedKept(env: Env, td: TxData, s: Store, s': Store, n: nat)
    requires n <= |td.inputs| && s'.ids.Keys == s.ids.Keys
    requires SpendsAdded(env, td, s, |td.inputs|) && IssuancesAdded(env, td, s, n)
    ensures SpendsAdded(env, td, s', |td.inputs|) && IssuancesAdded(env, td, s', n)
  {
  }

  method MapIssuances(env: Env, td: TxData, s0: Store, spends: seq<nat>, sources0: seq<Option<ValueSource>>)
    returns (s: Store, issuances: seq<nat>, muxSources: seq<Option<ValueSource>>)
    requires SpendPhase(env, td, s0, spends, |td.inputs|) && |sources0| == |td.inputs|
    requires forall i :: 0 <= i < |td.inputs| ==>
      sources0[i] == if td.inputs[i].SpendInput? then MuxSource(env, td, td.inputs[i]) else None
    ensures IssuancePhase(env, td, s, spends, issuances, |td.inputs|)
    ensures muxSources == MuxSources(env, td)
  {
    hide SpendList, SpendMap, SpendsAdded, IssuanceList, IssuanceMap, IssuancesAdded, NonceMap, Keyed, Bodies, NonceProgram, Body;
    StartIssuances(env, td, s0, spends);
    s, issuances, muxSources := s0, [], sources0;
    for i := 0 to |td.inputs|
      invariant IssuancePhase(env, td, s, spends, issuances, i)
      invariant |muxSources| == |td.inputs|
      invariant forall k :: 0 <= k < |td.inputs| ==>
        muxSources[k] == if td.inputs[k].SpendInput? || k < i then MuxSource(env, td, td.inputs[k]) else None
    {
      var inp := td.inputs[i];
      if inp.IssuanceInput? {
        s, issuances := MapIssuance(env, td, s, spends, issuances, i);
        muxSources := muxSources[i := Some(ValueSource(Some(IssuanceId(env, td, inp)), Some(IssuedValue(env, inp)), 0))];
      } else {
        SkipIssuance(env, td, s, spends, issuances, i);
      }
    }
  }

  method MapIssuance(env: Env, td: TxData, s0: Store, spends: seq<nat>, issuances0: seq<nat>, i: nat)
    returns (s: Store, issuances: seq<nat>)
    requires i < |td.inputs| && td.inputs[i].IssuanceInput? && IssuancePhase(env, td, s0, spends, issuances0, i)
    ensures IssuancePhase(env, td, s, spends, issuances, i + 1)
  {
    hide SpendList, SpendMap, SpendsAdded, IssuanceList, IssuanceMap, IssuancesAdded, NonceMap, Keyed, Bodies, NonceProgram;
    var inp := td.inputs[i];
    s := s0;
    var anchorId := ZERO_HASH;
    var anchor: Option<nat> := None;  // the object that setAnchored writes to
    if |inp.nonce| > 0 {
      NonceStep(env, td, s, spends, issuances0, i);
      var tr := TimeRange(td.minTime, td.maxTime, None);
      s := Add(env, s, tr);
      var nonce := Nonce(Program(1, NonceProgram(env, inp)), env.EntryId(tr), None, [], None);
      anchor := Some(|s.arena|);
      anchorId := env.EntryId(nonce);
      s := Add(env, s, nonce);
    } else {
      PlainStep(env, td, s, spends, issuances0, i);
      if spends != [] {
        anchor := Some(spends[0]);
        anchorId := env.EntryId(s.arena[spends[0]]);
        FirstSpendId(env, td, s, spends, i);
      } else {
        NoFirstSpend(env, td, s, spends, i);
      }
    }
    var iss := Issuance(anchorId, IssuedValue(env, inp), env.hashData(inp.referenceData), None, i,
                        None, Definition(env, inp), inp.arguments, None);
    assert iss == IssuanceEntry(env, td, inp, i);
    IssuanceFacts(env, td, i);
    ghost var s1 := s;
    issuances := issuances0 + [|s.arena|];
    s := Add(env, s, iss);
    if anchor.Some? {
      s := Set(s, anchor.value, WithAnchored(s.arena[anchor.value], Some(env.EntryId(iss))));
      if |inp.nonce| > 0 {
        MarkNonce(env, td, Add(env, s0, TimeRangeEntry(td)), inp, iss, IssuanceId(env, td, inp));
      }
    }
  }

  /** Writing the mark after the issuance was added is the same as adding the nonce with the mark. */
  lemma {:induction false} MarkNonce(env: Env, td: TxData, s: Store, inp: TxInput, iss: Entry, id: Hash)
    requires inp.IssuanceInput?
    ensures
      var unmarked := Add(env, Add(env, s, NonceEntry(env, td, inp)), iss);
      var marked := NonceWith(env, td, inp, Some(id));
      && unmarked.arena[|s.arena|] == NonceEntry(env, td, inp)
      && WithAnchored(NonceEntry(env, td, inp), Some(id)) == marked
      && Set(unmarked, |s.arena|, marked) == Add(env, Add(env, s, marked), iss)
  {
    hide NonceProgram;
    var marked := NonceWith(env, td, inp, Some(id));
    assert Body(marked) == Body(NonceEntry(env, td, inp));
    assert (s.arena + [NonceEntry(env, td, inp)] + [iss])[|s.arena| := marked] == s.arena + [marked] + [iss];
  }

  lemma {:induction false} FirstSpendId(env: Env, td: TxData, s: Store, spends: seq<nat>, i: nat)
    requires i <= |td.inputs| && spends != [] && SpendList(env, td, s.arena, spends, |td.inputs|, i, 0)
    ensures FirstSpend(td).Some? && spends[0] < |s.arena|
    ensures env.EntryId(s.arena[spends[0]]) == SpendId(env, td.inputs[FirstSpend(td).value])
  {
  }

  lemma {:induction false} NoFirstSpend(env: Env, td: TxData, s: Store, spends: seq<nat>, i: nat)
    requires i <= |td.inputs| && spends == [] && SpendList(env, td, s.arena, spends, |td.inputs|, i, 0)
    ensures FirstSpend(td).None?
  {
  }

  // ---------------------------------------------------------------- mux and destinations

  /** All inputs are mapped; the first ds spends and di issuances have their destination. */
  ghost predicate InputsMapped(env: Env, td: TxData, s: Store, spends: seq<nat>, issuances: seq<nat>, ds: nat, di: nat)
  {
    var n := |td.inputs|;
    && Keyed(env, td, s)
    && SpendList(env, td, s.arena, spends, n, n, ds)
    && SpendMap(env, td, s, spends, n) && SpendsAdded(env, td, s, n)
    && IssuanceList(env, td, s.arena, issuances, n, di)
    && IssuanceMap(env, td, s, issuances, n) && IssuancesAdded(env, td, s, n)
    && NonceMap(env, td, s, n)
  }

  /** Adding a mux, a result or the header leaves the inputs' entries alone. */
  lemma {:induction false} AddKeepsInputs(env: Env, td: TxData, s: Store, spends: seq<nat>, issuances: seq<nat>, ds: nat, di: nat, e: Entry)
    requires InputsMapped(env, td, s, spends, issuances, ds, di) && Body(e) in Bodies(env, td)
    requires !e.Spend? && !e.Issuance? && !e.Nonce?
    ensures InputsMapped(env, td, Add(env, s, e), spends, issuances, ds, di)
  {
    hide SpendList, SpendMap, SpendsAdded, IssuanceList, IssuanceMap, IssuancesAdded, NonceMap, Keyed, Bodies, Body, Env.EntryId;
    AddKeepsSpends(env, td, s, spends, |td.inputs|, |td.inputs|, ds, e);
    AddKeepsIssuances(env, td, s, issuances, |td.inputs|, di, e);
    AddKeepsNonces(env, td, s, |td.inputs|, e);
  }

  /** Writing to a mux object leaves the inputs' entries alone. */
  lemma {:induction false} SetKeepsInputs(env: Env, td: TxData, s: Store, spends: seq<nat>, issuances: seq<nat>, ds: nat, di: nat, at: nat, e: Entry)
    requires InputsMapped(env, td, s, spends, issuances, ds, di)
    requires at < |s.arena| && SameEntry(s.arena[at], e) && !e.Spend? && !e.Issuance?
    ensures InputsMapped(env, td, Set(s, at, e), spends, issuances, ds, di)
  {
    hide SpendMap, SpendsAdded, IssuanceMap, IssuancesAdded, NonceMap, Keyed, Bodies, Env.EntryId, FirstSpend, SpendWith, IssuanceWith;
    SetKeepsMaps(env, td, s, at, e, spends, issuances, |td.inputs|, |td.inputs|);
    AddedKept(env, td, s, Set(s, at, e), |td.inputs|);
    assert forall k :: 0 <= k < |spends| ==> spends[k] != at;
    assert forall k :: 0 <= k < |issuances| ==> issuances[k] != at;
  }

  lemma {:induction false} PrevoutValue(env: Env, td: TxData, s: Store, i: nat)
    requires Hashable(env, td) && Keyed(env, td, s) && SpendsAdded(env, td, s, |td.inputs|)
    requires i < |td.inputs| && td.inputs[i].SpendInput?
    ensures PrevoutId(env, td.inputs[i]) in s.ids
    ensures
      var out := s.At(PrevoutId(env, td.inputs[i]));
      out.Output? && out.source.Some? && out.source.value.value == Some(td.inputs[i].value)
  {
    hide Keyed, Bodies, Hashable, SpendCell, SpendEntry, SpendId;
    SpendFacts(env, td, i);
    KeyedAt(env, td, s, PrevoutId(env, td.inputs[i]));
    BodyAt(env, td, s, PrevoutId(env, td.inputs[i]), Body(PrevoutEntry(td.inputs[i])));
  }

  /** SetDestination on the next spend. */
  lemma {:induction false} SetSpend(env: Env, td: TxData, s: Store, spends: seq<nat>, issuances: seq<nat>, m: nat)
    requires InputsMapped(env, td, s, spends, issuances, m, 0) && m < |spends|
    ensures spends[m] < |s.arena| && SpendCell(env, td, s.arena[spends[m]], false, |td.inputs|)
    ensures
      var sp := s.arena[spends[m]];
      var e := WithDestination(sp, ToMux(env, td, td.inputs[sp.ordinal].value, sp.ordinal));
      InputsMapped(env, td, Set(s, spends[m], e), spends, issuances, m + 1, 0)
  {
    hide SpendMap, SpendsAdded, IssuanceMap, IssuancesAdded, NonceMap, Keyed, Bodies, Env.EntryId, FirstSpend, PrevoutId, SpendAnchored, MuxId, IssuanceWith;
    var sp := s.arena[spends[m]];
    assert SpendCell(env, td, sp, m < m, |td.inputs|);
    var e := WithDestination(sp, ToMux(env, td, td.inputs[sp.ordinal].value, sp.ordinal));
    assert SpendCell(env, td, e, true, |td.inputs|);
    SetKeepsMaps(env, td, s, spends[m], e, spends, issuances, |td.inputs|, |td.inputs|);
    AddedKept(env, td, s, Set(s, spends[m], e), |td.inputs|);
    assert forall k :: 0 <= k < |issuances| ==> issuances[k] != spends[m];
    SpendListSet(env, td, s.arena, spends, m, e);
  }

  lemma {:induction false} SpendListSet(env: Env, td: TxData, arena: seq<Entry>, spends: seq<nat>, m: nat, e: Entry)
    requires SpendList(env, td, arena, spends, |td.inputs|, |td.inputs|, m) && m < |spends|
    requires SpendCell(env, td, e, true, |td.inputs|) && arena[spends[m]].Spend? && e.ordinal == arena[spends[m]].ordinal
    ensures SpendList(env, td, arena[spends[m] := e], spends, |td.inputs|, |td.inputs|, m + 1)
  {
    hide SpendWith, FirstSpend, SpendAnchored, ToMux;
    var arena' := arena[spends[m] := e];
    forall k | 0 <= k < |spends|
      ensures SpendCell(env, td, arena'[spends[k]], k < m + 1, |td.inputs|)
      ensures arena'[spends[k]].ordinal == arena[spends[k]].ordinal
    {
      assert k < m ==> spends[k] < spends[m];
      assert m < k ==> spends[m] < spends[k];
    }
  }

  /** SetDestination on the next issuance. */
  lemma {:induction false} SetIssuance(env: Env, td: TxData, s: Store, spends: seq<nat>, issuances: seq<nat>, m: nat)
    requires InputsMapped(env, td, s, spends, issuances, |spends|, m) && m < |issuances|
    ensures issuances[m] < |s.arena| && IssuanceCell(env, td, s.arena[issuances[m]], false)
    ensures
      var iss := s.arena[issuances[m]];
      var e := WithDestination(iss, ToMux(env, td, iss.value, iss.ordinal));
      InputsMapped(env, td, Set(s, issuances[m], e), spends, issuances, |spends|, m + 1)
  {
    hide SpendMap, SpendsAdded, IssuanceMap, IssuancesAdded, NonceMap, Keyed, Bodies, Env.EntryId, FirstSpend, MuxId, SpendWith, IssuedValue, Definition, AnchorId;
    var iss := s.arena[issuances[m]];
    assert IssuanceCell(env, td, iss, m < m);
    var e := WithDestination(iss, ToMux(env, td, iss.value, iss.ordinal));
    assert IssuanceCell(env, td, e, true);
    SetKeepsMaps(env, td, s, issuances[m], e, spends, issuances, |td.inputs|, |td.inputs|);
    AddedKept(env, td, s, Set(s, issuances[m], e), |td.inputs|);
    assert forall k :: 0 <= k < |spends| ==> spends[k] != issuances[m];
    IssuanceListSet(env, td, s.arena, issuances, m, e);
  }

  lemma {:induction false} IssuanceListSet(env: Env, td: TxData, arena: seq<Entry>, issuances: seq<nat>, m: nat, e: Entry)
    requires IssuanceList(env, td, arena, issuances, |td.inputs|, m) && m < |issuances| && IssuanceCell(env, td, e, true)
    ensures IssuanceList(env, td, arena[issuances[m] := e], issuances, |td.inputs|, m + 1)
  {
    hide IssuanceWith, ToMux;
    var arena' := arena[issuances[m] := e];
    forall k | 0 <= k < |issuances|
      ensures IssuanceCell(env, td, arena'[issuances[k]], k < m + 1) && arena'[issuances[k]].ordinal < |td.inputs|
    {
      assert k < m ==> issuances[k] < issuances[m];
      assert m < k ==> issuances[m] < issuances[k];
    }
  }

  method SetDestinations(env: Env, td: TxData, s0: Store, spends: seq<nat>, issuances: seq<nat>, muxId: Hash) returns (s: Store)
    requires Hashable(env, td) && InputsMapped(env, td, s0, spends, issuances, 0, 0) && muxId == MuxId(env, td)
    ensures InputsMapped(env, td, s, spends, issuances, |spends|, |issuances|)
    ensures s.ids == s0.ids && |s.arena| == |s0.arena|
    ensures forall k :: 0 <= k < |s.arena| && !s0.arena[k].Spend? && !s0.arena[k].Issuance? ==> s.arena[k] == s0.arena[k]
  {
    hide SpendMap, IssuanceMap, IssuancesAdded, NonceMap, Bodies, Env.EntryId, FirstSpend, MuxId, SpendAnchored, IssuedValue, Definition, AnchorId;
    hide SpendList, IssuanceList, Hashable, Keyed, SpendsAdded;
    s := s0;
    for m := 0 to |spends|
      invariant InputsMapped(env, td, s, spends, issuances, m, 0)
      invariant s.ids == s0.ids && |s.arena| == |s0.arena|
      invariant forall k :: 0 <= k < |s.arena| ==>
        if s0.arena[k].Spend? || s0.arena[k].Issuance? then s.arena[k].Spend? || s.arena[k].Issuance? else s.arena[k] == s0.arena[k]
    {
      SetSpend(env, td, s, spends, issuances, m);
      var sp := s.arena[spends[m]];
      PrevoutValue(env, td, s, sp.ordinal);
      KeyedAt(env, td, s, sp.spentOutputId.value);
      var spentOutput := s.At(sp.spentOutputId.value);
      s := Set(s, spends[m], WithDestination(sp, Some(ValueDestination(Some(muxId), spentOutput.source.value.value, sp.ordinal))));
    }
    for m := 0 to |issuances|
      invariant InputsMapped(env, td, s, spends, issuances, |spends|, m)
      invariant s.ids == s0.ids && |s.arena| == |s0.arena|
      invariant forall k :: 0 <= k < |s.arena| ==>
        if s0.arena[k].Spend? || s0.arena[k].Issuance? then s.arena[k].Spend? || s.arena[k].Issuance? else s.arena[k] == s0.arena[k]
    {
      SetIssuance(env, td, s, spends, issuances, m);
      var iss := s.arena[issuances[m]];
      s := Set(s, issuances[m], WithDestination(iss, Some(ValueDestination(Some(muxId), Some(iss.value), iss.ordinal))));
    }
  }

  lemma {:induction false} KeyedAt(env: Env, td: TxData, s: Store, id: Hash)
    requires Keyed(env, td, s) && id in s.ids
    ensures s.ids[id] < |s.arena|
  {
  }

  // ---------------------------------------------------------------- results and header

  /** The first j results are mapped and the mux object lists their destinations. */
  ghost predicate ResultsMapped(env: Env, td: TxData, s: Store, mux: nat, j: nat)
    requires j <= |td.outputs|
  {
    && MuxId(env, td) in s.ids && s.ids[MuxId(env, td)] == mux && mux < |s.arena|
    && s.arena[mux] == MuxWith(env, td, Destinations(env, td)[..j])
    && forall k :: 0 <= k < j ==>
         && ResultId(env, td, k) in s.ids && s.ids[ResultId(env, td, k)] < |s.arena|
         && s.At(ResultId(env, td, k)) == ResultEntry(env, td, k)
  }

  /** Results have identifiers of their own: different from the mux and from each other. */
  lemma {:induction false} ResultDistinct(env: Env, td: TxData, j: nat, k: nat)
    requires Hashable(env, td) && j < |td.outputs| && k < |td.outputs| && j != k
    ensures ResultId(env, td, j) != MuxId(env, td) && ResultId(env, td, j) != ResultId(env, td, k)
  {
    hide Bodies;
    OtherBodiesIn(env, td);
    assert Body(ResultEntry(env, td, j)) != Body(MuxEntry(env, td));
    assert Body(ResultEntry(env, td, j)) != Body(ResultEntry(env, td, k));
  }

  lemma {:induction false} ResultNotMux(env: Env, td: TxData, j: nat)
    requires Hashable(env, td) && j < |td.outputs|
    ensures ResultId(env, td, j) != MuxId(env, td)
    ensures Body(ResultEntry(env, td, j)) in Bodies(env, td)
  {
    hide Bodies;
    OtherBodiesIn(env, td);
    assert Body(ResultEntry(env, td, j)) != Body(MuxEntry(env, td));
  }

  lemma {:induction false} AddResult(env: Env, td: TxData, s: Store, mux: nat, j: nat)
    requires Hashable(env, td) && j < |td.outputs| && ResultsMapped(env, td, s, mux, j)
    ensures
      var s1 := Add(env, s, ResultEntry(env, td, j));
      var e := WithDestinations(s1.arena[mux], Destinations(env, td)[..j] + [Destination(env, td, j)]);
      && SameEntry(s1.arena[mux], e) && e.Mux?
      && ResultsMapped(env, td, Set(s1, mux, e), mux, j + 1)
  {
    hide Hashable, Env.EntryId, MuxSources, ResultEntry;
    ResultNotMux(env, td, j);
    var s1 := Add(env, s, ResultEntry(env, td, j));
    assert s1.arena[mux] == s.arena[mux];
    var dests := Destinations(env, td);
    assert dests[..j] + [Destination(env, td, j)] == dests[..j + 1];
    var e := WithDestinations(s1.arena[mux], dests[..j] + [Destination(env, td, j)]);
    var s2 := Set(s1, mux, e);
    forall k | 0 <= k < j + 1
      ensures ResultId(env, td, k) in s2.ids && s2.ids[ResultId(env, td, k)] < |s2.arena| && s2.At(ResultId(env, td, k)) == ResultEntry(env, td, k)
    {
      ResultStays(env, td, s, mux, j, k, e, s2);
    }
  }

  lemma {:induction false} ResultStays(env: Env, td: TxData, s: Store, mux: nat, j: nat, k: nat, e: Entry, s2: Store)
    requires Hashable(env, td) && k <= j < |td.outputs| && ResultsMapped(env, td, s, mux, j)
    requires s2 == Set(Add(env, s, ResultEntry(env, td, j)), mux, e)
    ensures ResultId(env, td, k) in s2.ids && s2.ids[ResultId(env, td, k)] < |s2.arena| && s2.At(ResultId(env, td, k)) == ResultEntry(env, td, k)
  {
    hide Hashable, Env.EntryId, MuxSources, MuxWith, ResultEntry;
    if k < j {
      ResultDistinct(env, td, j, k);
      Kinds(env, td, k, Destinations(env, td)[..j]);
    }
  }

  lemma {:induction false} Kinds(env: Env, td: TxData, k: nat, dests: seq<Option<ValueDestination>>)
    requires k < |td.outputs|
    ensures !ResultEntry(env, td, k).Mux? && MuxWith(env, td, dests).Mux?
  {
  }

  method MapResults(env: Env, td: TxData, s0: Store, ghost spends: seq<nat>, ghost issuances: seq<nat>, mux: nat, muxId: Hash)
    returns (s: Store, resultIds: seq<Hash>)
    requires Hashable(env, td) && InputsMapped(env, td, s0, spends, issuances, |spends|, |issuances|)
    requires muxId == MuxId(env, td) && ResultsMapped(env, td, s0, mux, 0)
    ensures InputsMapped(env, td, s, spends, issuances, |spends|, |issuances|)
    ensures ResultsMapped(env, td, s, mux, |td.outputs|) && resultIds == ResultIds(env, td)
  {
    hide InputsMapped, Bodies, Hashable, MuxSources, Body;
    s, resultIds := s0, [];
    for j := 0 to |td.outputs|
      invariant InputsMapped(env, td, s, spends, issuances, |spends|, |issuances|)
      invariant ResultsMapped(env, td, s, mux, j)
      invariant resultIds == ResultIds(env, td)[..j]
    {
      var out := td.outputs[j];
      var src := Some(ValueSource(Some(muxId), Some(out.value), j));
      AddResult(env, td, s, mux, j);
      ResultNotMux(env, td, j);
      var r: Entry;
      if IsUnspendable(out.controlProgram) {
        r := Retirement(src, env.hashData(out.referenceData), None, j);
      } else {
        r := Output(src, Program(out.vmVersion, out.controlProgram), env.hashData(out.referenceData), None, j);
      }
      assert r == ResultEntry(env, td, j);
      AddKeepsInputs(env, td, s, spends, issuances, |spends|, |issuances|, r);
      s := Add(env, s, r);
      resultIds := resultIds + [env.EntryId(r)];
      var dest := Some(ValueDestination(Some(env.EntryId(r)), Some(out.value), 0));
      var m := s.arena[mux];
      assert m == MuxWith(env, td, Destinations(env, td)[..j]);
      var e := WithDestinations(m, m.witnessDestinations + [dest]);
      SetKeepsInputs(env, td, s, spends, issuances, |spends|, |issuances|, mux, e);
      s := Set(s, mux, e);
    }
    assert ResultIds(env, td)[..|td.outputs|] == ResultIds(env, td);
  }

  lemma {:induction false} HeaderKeeps(env: Env, td: TxData, s: Store, mux: nat)
    requires Hashable(env, td) && ResultsMapped(env, td, s, mux, |td.outputs|)
    ensures HeaderEntry(env, td) in Bodies(env, td)
    ensures ResultsMapped(env, td, Add(env, s, HeaderEntry(env, td)), mux, |td.outputs|)
  {
    hide Bodies, MuxSources, ResultIds, Destinations;
    OtherBodiesIn(env, td);
    var h := HeaderEntry(env, td);
    assert Body(h) == h && h != Body(MuxEntry(env, td));
    forall k | 0 <= k < |td.outputs|
      ensures ResultId(env, td, k) != env.EntryId(h)
    {
      assert Body(ResultEntry(env, td, k)) != h;
    }
  }

  /** The finished map. */
  function EntriesOf(s: Store): map<Hash, Entry>
    requires forall id :: id in s.ids ==> s.ids[id] < |s.arena|
  {
    map id | id in s.ids :: s.At(id)
  }

  lemma {:induction false} AllBodiesAdded(env: Env, td: TxData, s: Store, spends: seq<nat>, issuances: seq<nat>, mux: nat)
    requires InputsMapped(env, td, s, spends, issuances, |spends|, |issuances|)
    requires ResultsMapped(env, td, s, mux, |td.outputs|) && env.EntryId(HeaderEntry(env, td)) in s.ids
    ensures forall b :: b in Bodies(env, td) ==> env.hashOf(b) in s.ids
  {
    hide SpendList, SpendMap, IssuanceList, IssuanceMap, NonceMap, Keyed, MuxWith, ResultIds, Destinations;
    forall i, b | 0 <= i < |td.inputs| && b in InputBodies(env, td, td.inputs[i])
      ensures env.hashOf(b) in s.ids
    {
      InputBodyAdded(env, td, s, i, b);
    }
  }

  lemma {:induction false} InputBodyAdded(env: Env, td: TxData, s: Store, i: nat, b: Entry)
    requires i < |td.inputs| && b in InputBodies(env, td, td.inputs[i])
    requires SpendsAdded(env, td, s, |td.inputs|) && IssuancesAdded(env, td, s, |td.inputs|)
    ensures env.hashOf(b) in s.ids
  {
    hide NonceProgram;
  }

  lemma {:induction false} Finished(env: Env, td: TxData, s: Store, spends: seq<nat>, issuances: seq<nat>, mux: nat)
    requires InputsMapped(env, td, s, spends, issuances, |spends|, |issuances|)
    requires ResultsMapped(env, td, s, mux, |td.outputs|) && env.EntryId(HeaderEntry(env, td)) in s.ids
    ensures forall id :: id in s.ids ==> s.ids[id] < |s.arena|
    ensures MappedEntries(env, td, EntriesOf(s))
  {
    hide Bodies, SpendsAdded, IssuancesAdded, MuxSources, FirstSpend, SpendAnchored, LastSpend, LastIssuance, LastUser, NonceWith, IssuedValue, MuxId, ResultId, ResultEntry;
    AllBodiesAdded(env, td, s, spends, issuances, mux);
    var entries := EntriesOf(s);
    forall id | id in entries
      ensures SpendOf(env, td, entries[id], id, |td.inputs|) && IssuanceOf(env, td, entries[id], id, |td.inputs|)
    {
      if entries[id].Spend? {
        var k :| 0 <= k < |spends| && spends[k] == s.ids[id];
        assert SpendCell(env, td, s.arena[spends[k]], k < |spends|, |td.inputs|);
      }
      if entries[id].Issuance? {
        var k :| 0 <= k < |issuances| && issuances[k] == s.ids[id];
        assert IssuanceCell(env, td, s.arena[issuances[k]], k < |issuances|);
      }
    }
    var dests := Destinations(env, td);
    assert dests[..|td.outputs|] == dests;
  }

  /** mapTx */
  method MapEntries(env: Env, td: TxData) returns (headerId: Hash, entries: map<Hash, Entry>)
    requires Hashable(env, td)
    ensures headerId == env.EntryId(HeaderEntry(env, td)) && MappedEntries(env, td, entries)
  {
    hide InputsMapped, Bodies, Hashable, MuxSources, Body, SpendPhase, IssuancePhase, ResultIds, MappedEntries, Keyed;
    var s, spends, sources := MapSpends(env, td);
    var issuances: seq<nat>;
    s, issuances, sources := MapIssuances(env, td, s, spends, sources);
    var mux := Mux(sources, Program(1, [OP_TRUE]), None, [], []);
    var at := |s.arena|;
    var muxId := env.EntryId(mux);
    assert mux == MuxEntry(env, td);
    AddMux(env, td, s, spends, issuances);
    s := Add(env, s, mux);
    s := SetDestinations(env, td, s, spends, issuances, muxId);
    var resultIds: seq<Hash>;
    s, resultIds := MapResults(env, td, s, spends, issuances, at, muxId);
    var header := TxHeader(td.version, resultIds, env.hashData(td.referenceData), td.minTime, td.maxTime, None);
    HeaderKeeps(env, td, s, at);
    HeaderBody(env, td);
    AddKeepsInputs(env, td, s, spends, issuances, |spends|, |issuances|, header);
    s := Add(env, s, header);
    headerId := env.EntryId(header);
    Finished(env, td, s, spends, issuances, at);
    entries := EntriesOf(s);
  }

  lemma {:induction false} HeaderBody(env: Env, td: TxData)
    ensures Body(HeaderEntry(env, td)) == HeaderEntry(env, td)
  {
  }

  lemma {:induction false} AddMux(env: Env, td: TxData, s: Store, spends: seq<nat>, issuances: seq<nat>)
    requires Hashable(env, td) && IssuancePhase(env, td, s, spends, issuances, |td.inputs|)
    ensures InputsMapped(env, td, Add(env, s, MuxEntry(env, td)), spends, issuances, 0, 0)
    ensures ResultsMapped(env, td, Add(env, s, MuxEntry(env, td)), |s.arena|, 0)
  {
    hide SpendList, SpendMap, SpendsAdded, IssuanceList, IssuanceMap, IssuancesAdded, NonceMap, Keyed, Bodies, MuxSources;
    OtherBodiesIn(env, td);
    AddKeepsInputs(env, td, s, spends, issuances, 0, 0, MuxEntry(env, td));
    assert Destinations(env, td)[..0] == [];
  }
}
