/**
 * core/account/reserve.go: the UTXO reserver. Its locks are never held together, so a run is any interleaving
 * of the critical sections of all the reserve, record, cancel and expire calls in flight.
 */
module Reservations {
  import opened Basics

  type uint64 = n: int | 0 <= n < TWO_64

  datatype Source = Source(asset: Hash, account: string)

  datatype Utxo = Utxo(outputID: Hash, source: Source, amount: uint64)

  datatype Reservation = Reservation(id: nat, source: Source, utxos: seq<Utxo>, amount: uint64, change: uint64, expiry: int)

  /** What a sourceReserver holds. */
  datatype SourceState = SourceState(cached: map<Hash, Utxo>, reserved: map<Hash, nat>, lastHeight: nat)

  /**
   * The reserver between two critical sections. `recorded` is its reservations map. The rest is what the
   * calls in flight hold: ids they drew, reservations whose marks are set and that are about to be
   * recorded, and reservations taken out of the map whose marks are about to be cleared.
   */
  datatype State = State(
    nextID: nat,
    recorded: map<nat, Reservation>,
    drawn: set<nat>,
    recording: map<nat, Reservation>,
    cancelling: map<nat, Reservation>,
    sources: map<Source, SourceState>)

  /** The table of outputs: what an output is, and whose, never changes. */
  type Rows = f: Hash -> Utxo | forall o: Hash :: f(o).outputID == o witness EmptyRow

  function EmptyRow(o: Hash): Utxo
  {
    Utxo(o, Source(ZERO_HASH, ""), 0)
  }

  ghost predicate Distinct(us: seq<Utxo>)
  {
    forall i, j :: 0 <= i < j < |us| ==> us[i].outputID != us[j].outputID
  }

  ghost predicate Holds(r: Reservation, o: Hash)
  {
    exists i :: 0 <= i < |r.utxos| && r.utxos[i].outputID == o
  }

  /** A reservation that is being recorded, recorded or being cancelled. */
  ghost predicate Live(s: State, id: nat)
  {
    id in s.recorded || id in s.recording || id in s.cancelling
  }

  function Get(s: State, id: nat): Reservation
    requires Live(s, id)
  {
    if id in s.recorded then s.recorded[id] else if id in s.recording then s.recording[id] else s.cancelling[id]
  }

  function Marks(s: State, src: Source): map<Hash, nat>
  {
    if src in s.sources then s.sources[src].reserved else map[]
  }

  // ---------------------------------------------------------------- the invariant

  /** No id is in two places, and every id has been drawn from the counter. */
  ghost predicate IdsApart(s: State)
  {
    && s.recorded.Keys !! s.recording.Keys && s.recorded.Keys !! s.cancelling.Keys && s.recording.Keys !! s.cancelling.Keys
    && s.drawn !! s.recorded.Keys && s.drawn !! s.recording.Keys && s.drawn !! s.cancelling.Keys
    && (forall id: nat :: id in s.drawn || Live(s, id) ==> id <= s.nextID)
  }

  ghost predicate GoodReservation(rows: Rows, id: nat, r: Reservation)
  {
    && r.id == id
    && Distinct(r.utxos)
    && forall i :: 0 <= i < |r.utxos| ==> r.utxos[i] == rows(r.utxos[i].outputID) && r.utxos[i].source == r.source
  }

  ghost predicate GoodSource(rows: Rows, src: Source, ss: SourceState)
  {
    forall o :: o in ss.cached ==> ss.cached[o] == rows(o) && ss.cached[o].source == src
  }

  /** Every mark belongs to a live reservation of that source that holds the output. */
  ghost predicate MarksOwned(s: State)
  {
    forall src: Source, o :: o in Marks(s, src) ==>
      var id := Marks(s, src)[o];
      Live(s, id) && Get(s, id).source == src && Holds(Get(s, id), o)
  }

  /** Every output of a live reservation carries its mark. */
  ghost predicate AllMarked(s: State)
  {
    forall id: nat, o :: Live(s, id) && Holds(Get(s, id), o) ==>
      o in Marks(s, Get(s, id).source) && Marks(s, Get(s, id).source)[o] == id
  }

  ghost predicate Inv(rows: Rows, s: State)
  {
    && IdsApart(s)
    && (forall id: nat :: Live(s, id) ==> GoodReservation(rows, id, Get(s, id)))
    && (forall src :: src in s.sources ==> GoodSource(rows, src, s.sources[src]))
    && MarksOwned(s)
    && AllMarked(s)
  }

  /** No output is in two live reservations. */
  lemma {:induction false} NoDoubleReservation(rows: Rows, s: State, a: nat, b: nat, o: Hash)
    requires Inv(rows, s) && Live(s, a) && Live(s, b)
    requires Holds(Get(s, a), o) && Holds(Get(s, b), o)
    ensures a == b
  {
    OwnSource(rows, a, Get(s, a), o);
    OwnSource(rows, b, Get(s, b), o);
    assert Marks(s, Get(s, a).source)[o] == a;
    assert Marks(s, Get(s, b).source)[o] == b;
  }

  lemma {:induction false} OwnSource(rows: Rows, id: nat, r: Reservation, o: Hash)
    requires GoodReservation(rows, id, r) && Holds(r, o)
    ensures r.source == rows(o).source
  {
    var i :| 0 <= i < |r.utxos| && r.utxos[i].outputID == o;
    assert r.utxos[i] == rows(o);
  }

  /** Each mark belongs to exactly one reservation, in exactly one of the three conditions. */
  lemma {:induction false} MarkHasOneOwner(rows: Rows, s: State, src: Source, o: Hash)
    requires Inv(rows, s) && o in Marks(s, src)
    ensures var id := Marks(s, src)[o];
            && Live(s, id) && Holds(Get(s, id), o)
            && (forall other: nat :: Live(s, other) && Holds(Get(s, other), o) ==> other == id)
            && (id in s.recorded ==> id !in s.recording && id !in s.cancelling)
            && (id in s.recording ==> id !in s.cancelling)
  {
    var id := Marks(s, src)[o];
    forall other: nat | Live(s, other) && Holds(Get(s, other), o) ensures other == id {
      NoDoubleReservation(rows, s, other, id, o);
    }
  }

  // ---------------------------------------------------------------- the critical sections, as steps

  function Marked(reserved: map<Hash, nat>, us: seq<Utxo>, id: nat): map<Hash, nat>
  {
    if us == [] then reserved else Marked(reserved, us[..|us| - 1], id)[us[|us| - 1].outputID := id]
  }

  function Unmarked(reserved: map<Hash, nat>, us: seq<Utxo>): map<Hash, nat>
  {
    if us == [] then reserved else Unmarked(reserved, us[..|us| - 1]) - {us[|us| - 1].outputID}
  }

  ghost predicate In(us: seq<Utxo>, o: Hash)
  {
    exists i :: 0 <= i < |us| && us[i].outputID == o
  }

  lemma {:induction false} MarkedMeaning(reserved: map<Hash, nat>, us: seq<Utxo>, id: nat)
    ensures forall o :: o in Marked(reserved, us, id) <==> o in reserved || In(us, o)
    ensures forall o :: o in Marked(reserved, us, id) ==> Marked(reserved, us, id)[o] == if In(us, o) then id else reserved[o]
  {
    if us != [] {
      var front, last := us[..|us| - 1], us[|us| - 1];
      MarkedMeaning(reserved, front, id);
      InSnoc(us);
    }
  }

  lemma {:induction false} UnmarkedMeaning(reserved: map<Hash, nat>, us: seq<Utxo>)
    ensures forall o :: o in Unmarked(reserved, us) <==> o in reserved && !In(us, o)
    ensures forall o :: o in Unmarked(reserved, us) ==> Unmarked(reserved, us)[o] == reserved[o]
  {
    if us != [] {
      UnmarkedMeaning(reserved, us[..|us| - 1]);
      InSnoc(us);
    }
  }

  lemma {:induction false} InSnoc(us: seq<Utxo>)
    requires us != []
    ensures forall o :: In(us, o) <==> In(us[..|us| - 1], o) || o == us[|us| - 1].outputID
  {
    var front, last := us[..|us| - 1], us[|us| - 1];
    forall o ensures In(us, o) <==> In(front, o) || o == last.outputID {
      if In(us, o) {
        var i :| 0 <= i < |us| && us[i].outputID == o;
        if i < |us| - 1 { assert front[i].outputID == o; }
      }
      if In(front, o) {
        var i :| 0 <= i < |front| && front[i].outputID == o;
        assert us[i].outputID == o;
      }
      if o == last.outputID { assert us[|us| - 1].outputID == o; }
    }
  }

  datatype Step =
    /** atomic.AddUint64(&re.nextReservationID, 1) */
    | Draw
    /** re.source(src) */
    | Open(src: Source)
    /** reserveFromCache or reserveUTXO succeeding, cache being what the section leaves in the cache */
    | Mark(res: Reservation, cache: map<Hash, Utxo>)
    /** reserveFromCache or reserveUTXO failing */
    | Refuse(src: Source, cache: map<Hash, Utxo>)
    /** the last section of refillCache */
    | Refill(src: Source, found: seq<Utxo>, height: nat)
    /** re.reservations[rid] = res */
    | Record(id: nat)
    /** the first section of Cancel and ExpireReservations */
    | Take(ids: set<nat>)
    /** sourceReserver.cancel */
    | Clear(id: nat)

  ghost predicate SubCache(small: map<Hash, Utxo>, big: map<Hash, Utxo>)
  {
    forall o :: o in small ==> o in big && small[o] == big[o]
  }

  /** When a section can run, and on what. */
  ghost predicate Enabled(rows: Rows, s: State, step: Step)
  {
    match step
    case Draw => true
    case Open(src) => true
    case Mark(res, cache) =>
      && res.id in s.drawn && res.source in s.sources && GoodReservation(rows, res.id, res)
      && SubCache(cache, s.sources[res.source].cached)
      && forall i :: 0 <= i < |res.utxos| ==> res.utxos[i].outputID !in s.sources[res.source].reserved
    case Refuse(src, cache) => src in s.sources && SubCache(cache, s.sources[src].cached)
    case Refill(src, found, height) =>
      src in s.sources && forall i :: 0 <= i < |found| ==> found[i] == rows(found[i].outputID) && found[i].source == src
    case Record(id) => id in s.recording
    case Take(ids) => ids <= s.recorded.Keys
    case Clear(id) => id in s.cancelling && s.cancelling[id].source in s.sources
  }

  function Cached(cache: map<Hash, Utxo>, found: seq<Utxo>): map<Hash, Utxo>
  {
    if found == [] then cache else Cached(cache, found[..|found| - 1])[found[|found| - 1].outputID := found[|found| - 1]]
  }

  function Max(a: nat, b: nat): nat
  {
    if a < b then b else a
  }

  ghost function After(rows: Rows, s: State, step: Step): State
    requires Enabled(rows, s, step)
  {
    match step
    case Draw => s.(nextID := s.nextID + 1, drawn := s.drawn + {s.nextID + 1})
    case Open(src) => if src in s.sources then s else s.(sources := s.sources[src := SourceState(map[], map[], 0)])
    case Mark(res, cache) =>
      var ss := s.sources[res.source];
      s.(drawn := s.drawn - {res.id}, recording := s.recording[res.id := res],
         sources := s.sources[res.source := ss.(cached := cache, reserved := Marked(ss.reserved, res.utxos, res.id))])
    case Refuse(src, cache) => s.(sources := s.sources[src := s.sources[src].(cached := cache)])
    case Refill(src, found, height) =>
      var ss := s.sources[src];
      s.(sources := s.sources[src := ss.(cached := Cached(ss.cached, found), lastHeight := Max(ss.lastHeight, height))])
    case Record(id) => s.(recording := s.recording - {id}, recorded := s.recorded[id := s.recording[id]])
    case Take(ids) =>
      s.(recorded := s.recorded - ids, cancelling := s.cancelling + (map id | id in ids && id in s.recorded :: s.recorded[id]))
    case Clear(id) =>
      var res := s.cancelling[id];
      var ss := s.sources[res.source];
      s.(cancelling := s.cancelling - {id}, sources := s.sources[res.source := ss.(reserved := Unmarked(ss.reserved, res.utxos))])
  }

  const INITIAL := State(0, map[], {}, map[], map[], map[])

  // ---------------------------------------------------------------- every step keeps the invariant

  /** The same reservations are live and the same marks are set. */
  ghost predicate SameAccount(s: State, t: State)
  {
    && (forall id: nat :: Live(s, id) == Live(t, id))
    && (forall id: nat :: Live(s, id) ==> Get(s, id) == Get(t, id))
    && (forall src: Source :: Marks(s, src) == Marks(t, src))
  }

  lemma {:induction false} SameAccountKeeps(rows: Rows, s: State, t: State)
    requires Inv(rows, s) && SameAccount(s, t) && IdsApart(t)
    requires forall src :: src in t.sources ==> GoodSource(rows, src, t.sources[src])
    ensures Inv(rows, t)
  {
    hide Holds, Distinct;
    assert MarksOwned(t) by {
      forall src: Source, o | o in Marks(t, src)
        ensures var id := Marks(t, src)[o]; Live(t, id) && Get(t, id).source == src && Holds(Get(t, id), o)
      {
        assert o in Marks(s, src);
        assert Live(s, Marks(s, src)[o]);
      }
    }
    assert AllMarked(t) by {
      forall id: nat, o | Live(t, id) && Holds(Get(t, id), o)
        ensures o in Marks(t, Get(t, id).source) && Marks(t, Get(t, id).source)[o] == id
      {
        assert Live(s, id) && Get(s, id) == Get(t, id);
        assert o in Marks(s, Get(s, id).source);
      }
    }
  }

  lemma {:induction false} CachedKeeps(rows: Rows, src: Source, cache: map<Hash, Utxo>, found: seq<Utxo>)
    requires forall o :: o in cache ==> cache[o] == rows(o) && cache[o].source == src
    requires forall i :: 0 <= i < |found| ==> found[i] == rows(found[i].outputID) && found[i].source == src
    ensures forall o :: o in Cached(cache, found) ==> Cached(cache, found)[o] == rows(o) && Cached(cache, found)[o].source == src
  {
    if found != [] { CachedKeeps(rows, src, cache, found[..|found| - 1]); }
  }

  lemma {:induction false} RefillKeeps(rows: Rows, s: State, step: Step)
    requires Inv(rows, s) && Enabled(rows, s, step) && step.Refill?
    ensures Inv(rows, After(rows, s, step))
  {
    hide Holds, Distinct, GoodReservation, MarksOwned, AllMarked, Cached;
    CachedKeeps(rows, step.src, s.sources[step.src].cached, step.found);
    SameAccountKeeps(rows, s, After(rows, s, step));
  }

  lemma {:induction false} DrawKeeps(rows: Rows, s: State)
    requires Inv(rows, s)
    ensures Inv(rows, After(rows, s, Draw))
  {
    hide Holds, Distinct, GoodReservation, MarksOwned, AllMarked;
    SameAccountKeeps(rows, s, After(rows, s, Draw));
  }

  lemma {:induction false} OpenKeeps(rows: Rows, s: State, src: Source)
    requires Inv(rows, s)
    ensures Inv(rows, After(rows, s, Open(src)))
  {
    hide Holds, Distinct, GoodReservation, MarksOwned, AllMarked;
    SameAccountKeeps(rows, s, After(rows, s, Open(src)));
  }

  lemma {:induction false} RefuseKeeps(rows: Rows, s: State, src: Source, cache: map<Hash, Utxo>)
    requires Inv(rows, s) && Enabled(rows, s, Refuse(src, cache))
    ensures Inv(rows, After(rows, s, Refuse(src, cache)))
  {
    hide Holds, Distinct, GoodReservation, MarksOwned, AllMarked;
    SameAccountKeeps(rows, s, After(rows, s, Refuse(src, cache)));
  }

  lemma {:induction false} RecordKeeps(rows: Rows, s: State, id: nat)
    requires Inv(rows, s) && Enabled(rows, s, Record(id))
    ensures Inv(rows, After(rows, s, Record(id)))
  {
    hide Holds, Distinct, GoodReservation, MarksOwned, AllMarked;
    SameAccountKeeps(rows, s, After(rows, s, Record(id)));
  }

  lemma {:induction false} TakeKeeps(rows: Rows, s: State, ids: set<nat>)
    requires Inv(rows, s) && Enabled(rows, s, Take(ids))
    ensures Inv(rows, After(rows, s, Take(ids)))
  {
    hide Holds, Distinct, GoodReservation, MarksOwned, AllMarked;
    SameAccountKeeps(rows, s, After(rows, s, Take(ids)));
  }

  lemma {:induction false} HoldsIsIn(r: Reservation, o: Hash)
    ensures Holds(r, o) == In(r.utxos, o)
  {
  }

  lemma {:induction false} MarkKeeps(rows: Rows, s: State, res: Reservation, cache: map<Hash, Utxo>)
    requires Inv(rows, s) && Enabled(rows, s, Mark(res, cache))
    ensures Inv(rows, After(rows, s, Mark(res, cache)))
  {
    hide After, Holds, In, Distinct, Marks, MarksOwned, AllMarked, SubCache;
    var t := After(rows, s, Mark(res, cache));
    MarkAdds(rows, s, res, cache);
    MarkIds(rows, s, res, cache);
    MarkSources(rows, s, res, cache);
    MarkOwns(s, t, res);
    MarkCovers(s, t, res);
  }

  lemma {:induction false} MarkIds(rows: Rows, s: State, res: Reservation, cache: map<Hash, Utxo>)
    requires IdsApart(s) && Enabled(rows, s, Mark(res, cache))
    ensures IdsApart(After(rows, s, Mark(res, cache)))
  {
    hide GoodReservation, SubCache, Marked;
  }

  lemma {:induction false} MarkSources(rows: Rows, s: State, res: Reservation, cache: map<Hash, Utxo>)
    requires Enabled(rows, s, Mark(res, cache)) && forall src :: src in s.sources ==> GoodSource(rows, src, s.sources[src])
    ensures var t := After(rows, s, Mark(res, cache)); forall src :: src in t.sources ==> GoodSource(rows, src, t.sources[src])
  {
    hide GoodReservation, Marked;
  }

  lemma {:induction false} MarkAdds(rows: Rows, s: State, res: Reservation, cache: map<Hash, Utxo>)
    requires IdsApart(s) && Enabled(rows, s, Mark(res, cache))
    ensures Added(s, After(rows, s, Mark(res, cache)), res)
  {
    hide GoodReservation, SubCache, Marked, In;
    MarkedMeaning(s.sources[res.source].reserved, res.utxos, res.id);
    FreeOutputs(s, res);
  }

  /** t is s with one more live reservation and its marks. */
  ghost predicate Added(s: State, t: State, res: Reservation)
  {
    && (forall id: nat :: Live(t, id) <==> Live(s, id) || id == res.id)
    && (forall id: nat :: Live(s, id) ==> id != res.id && Get(t, id) == Get(s, id))
    && Live(t, res.id) && Get(t, res.id) == res
    && (forall src: Source :: src != res.source ==> Marks(t, src) == Marks(s, src))
    && (forall o :: o in Marks(t, res.source) <==> o in Marks(s, res.source) || In(res.utxos, o))
    && (forall o :: o in Marks(t, res.source) ==> Marks(t, res.source)[o] == if In(res.utxos, o) then res.id else Marks(s, res.source)[o])
    && (forall o :: In(res.utxos, o) ==> o !in Marks(s, res.source))
  }

  lemma {:induction false} MarkOwns(s: State, t: State, res: Reservation)
    requires Added(s, t, res) && MarksOwned(s)
    ensures MarksOwned(t)
  {
    hide Holds, In;
    forall src: Source, o | o in Marks(t, src)
      ensures var id := Marks(t, src)[o]; Live(t, id) && Get(t, id).source == src && Holds(Get(t, id), o)
    {
      HoldsIsIn(res, o);
      if !(src == res.source && In(res.utxos, o)) {
        assert o in Marks(s, src) && Marks(s, src)[o] == Marks(t, src)[o];
        assert Live(s, Marks(s, src)[o]);
      }
    }
  }

  lemma {:induction false} MarkCovers(s: State, t: State, res: Reservation)
    requires Added(s, t, res) && AllMarked(s)
    ensures AllMarked(t)
  {
    hide Holds, In;
    forall id: nat, o | Live(t, id) && Holds(Get(t, id), o)
      ensures o in Marks(t, Get(t, id).source) && Marks(t, Get(t, id).source)[o] == id
    {
      HoldsIsIn(res, o);
      if id != res.id {
        assert Live(s, id) && o in Marks(s, Get(s, id).source);
      }
    }
  }

  lemma {:induction false} FreeOutputs(s: State, res: Reservation)
    requires res.source in s.sources
    requires forall i :: 0 <= i < |res.utxos| ==> res.utxos[i].outputID !in s.sources[res.source].reserved
    ensures forall o :: In(res.utxos, o) ==> o !in s.sources[res.source].reserved
  {
  }

  lemma {:induction false} ClearKeeps(rows: Rows, s: State, id0: nat)
    requires Inv(rows, s) && Enabled(rows, s, Clear(id0))
    ensures Inv(rows, After(rows, s, Clear(id0)))
  {
    hide Holds, In, Distinct, Unmarked;
    var t := After(rows, s, Clear(id0));
    var res := s.cancelling[id0];
    assert Get(s, id0) == res;
    UnmarkedMeaning(s.sources[res.source].reserved, res.utxos);
    assert forall id: nat :: Live(t, id) <==> Live(s, id) && id != id0;
    assert forall id: nat :: Live(t, id) ==> Get(t, id) == Get(s, id);
    forall src: Source, o | o in Marks(t, src)
      ensures var id := Marks(t, src)[o]; Live(t, id) && Get(t, id).source == src && Holds(Get(t, id), o)
    {
      HoldsIsIn(res, o);
      assert o in Marks(s, src) && Marks(s, src)[o] == Marks(t, src)[o];
      assert Live(s, Marks(s, src)[o]);
    }
    forall id: nat, o | Live(t, id) && Holds(Get(t, id), o)
      ensures o in Marks(t, Get(t, id).source) && Marks(t, Get(t, id).source)[o] == id
    {
      HoldsIsIn(res, o);
      assert Live(s, id) && o in Marks(s, Get(s, id).source) && Marks(s, Get(s, id).source)[o] == id;
      if Holds(res, o) { NoDoubleReservation(rows, s, id, id0, o); }
    }
  }

  lemma {:induction false} StepKeeps(rows: Rows, s: State, step: Step)
    requires Inv(rows, s) && Enabled(rows, s, step)
    ensures Inv(rows, After(rows, s, step))
  {
    hide Inv, After, Enabled;
    match step
    case Mark(res, cache) => MarkKeeps(rows, s, res, cache);
    case Clear(id) => ClearKeeps(rows, s, id);
    case Record(id) => RecordKeeps(rows, s, id);
    case Take(ids) => TakeKeeps(rows, s, ids);
    case Refill(_, _, _) => RefillKeeps(rows, s, step);
    case Draw => DrawKeeps(rows, s);
    case Open(src) => OpenKeeps(rows, s, src);
    case Refuse(src, cache) => RefuseKeeps(rows, s, src, cache);
  }

  // ---------------------------------------------------------------- every interleaving

  /** The states of a run: each follows from the one before by a section that could run. */
  ghost predicate IsRun(rows: Rows, states: seq<State>, steps: seq<Step>)
  {
    && |states| == |steps| + 1 && states[0] == INITIAL
    && forall i :: 0 <= i < |steps| ==> Enabled(rows, states[i], steps[i]) && states[i + 1] == After(rows, states[i], steps[i])
  }

  /** Safety under every interleaving. */
  lemma {:induction false} EveryInterleavingIsSafe(rows: Rows, states: seq<State>, steps: seq<Step>, k: nat)
    requires IsRun(rows, states, steps) && k < |states|
    ensures Inv(rows, states[k])
    ensures forall a: nat, b: nat, o :: Live(states[k], a) && Live(states[k], b) && Holds(Get(states[k], a), o) && Holds(Get(states[k], b), o) ==> a == b
    decreases k
  {
    hide After, Enabled, Holds;
    if k > 0 {
      EveryInterleavingIsSafe(rows, states, steps, k - 1);
      StepKeeps(rows, states[k - 1], steps[k - 1]);
      assert states[(k - 1) + 1] == After(rows, states[k - 1], steps[k - 1]);
    }
    forall a: nat, b: nat, o | Live(states[k], a) && Live(states[k], b) && Holds(Get(states[k], a), o) && Holds(Get(states[k], b), o)
      ensures a == b
    {
      NoDoubleReservation(rows, states[k], a, b, o);
    }
  }
}
