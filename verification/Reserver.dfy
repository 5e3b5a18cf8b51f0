/** core/account/reserve.go: the sections themselves, as methods on the reserver's maps. */
module Reservers {
  import opened Basics
  import opened Reservations

  datatype ReserveError = Insufficient | AlreadyReserved | NotFound

  // ---------------------------------------------------------------- choosing outputs

  function Sum(us: seq<Utxo>): nat
  {
    if us == [] then 0 else Sum(us[..|us| - 1]) + us[|us| - 1].amount
  }

  /** The value of the cached outputs in `order` that are free, and of those that are reserved. */
  function FreeValue(cached: map<Hash, Utxo>, reserved: map<Hash, nat>, valid: Hash -> bool, order: seq<Hash>): nat
    requires forall i :: 0 <= i < |order| ==> order[i] in cached
  {
    if order == [] then 0
    else
      var o := order[|order| - 1];
      FreeValue(cached, reserved, valid, order[..|order| - 1])
      + if o !in reserved && valid(o) then cached[o].amount else 0
  }

  function TiedValue(cached: map<Hash, Utxo>, reserved: map<Hash, nat>, order: seq<Hash>): nat
    requires forall i :: 0 <= i < |order| ==> order[i] in cached
  {
    if order == [] then 0
    else
      var o := order[|order| - 1];
      TiedValue(cached, reserved, order[..|order| - 1]) + if o in reserved then cached[o].amount else 0
  }

  /** Each key of the cache once, in the order the runtime happens to visit them. */
  ghost predicate Visits(order: seq<Hash>, cached: map<Hash, Utxo>)
  {
    && (forall i, j :: 0 <= i < j < |order| ==> order[i] != order[j])
    && (forall i :: 0 <= i < |order| ==> order[i] in cached)
    && (forall o :: o in cached ==> o in order)
  }

  /** The chosen outputs are cached, free, valid and different from each other. */
  ghost predicate GoodChoice(cached: map<Hash, Utxo>, reserved: map<Hash, nat>, valid: Hash -> bool, chosen: seq<Utxo>)
  {
    && Distinct(chosen)
    && forall i :: 0 <= i < |chosen| ==>
         var o := chosen[i].outputID;
         o in cached && chosen[i] == cached[o] && o !in reserved && valid(o)
  }

  ghost predicate KeyedById(cached: map<Hash, Utxo>)
  {
    forall o :: o in cached ==> cached[o].outputID == o
  }

  /** Chosen so far, from the outputs before position i. */
  ghost predicate ChosenBefore(chosen: seq<Utxo>, order: seq<Hash>, i: nat)
    requires i <= |order|
  {
    forall k :: 0 <= k < |chosen| ==> chosen[k].outputID in order[..i]
  }

  lemma {:induction false} ChooseOne(cached: map<Hash, Utxo>, reserved: map<Hash, nat>, valid: Hash -> bool, order: seq<Hash>, i: nat, chosen: seq<Utxo>)
    requires KeyedById(cached) && Visits(order, cached) && i < |order| && order[i] !in reserved && valid(order[i])
    requires GoodChoice(cached, reserved, valid, chosen) && ChosenBefore(chosen, order, i)
    ensures var more := chosen + [cached[order[i]]];
            GoodChoice(cached, reserved, valid, more) && ChosenBefore(more, order, i + 1) && Sum(more) == Sum(chosen) + cached[order[i]].amount
  {
    var o := order[i];
    var more := chosen + [cached[o]];
    assert more[..|chosen|] == chosen;
    assert order[..i + 1] == order[..i] + [o];
    forall k | 0 <= k < |chosen| ensures chosen[k].outputID != o {
      assert chosen[k].outputID in order[..i];
    }
  }

  /** The variables of the loop. */
  datatype Picked = Picked(got: uint64, unavailable: uint64, chosen: seq<Utxo>, cache: map<Hash, Utxo>, enough: bool)

  ghost predicate Small(cached: map<Hash, Utxo>, amount: uint64)
  {
    amount <= MAX_INT64 + 1 && forall o :: o in cached ==> cached[o].amount <= MAX_INT64
  }

  ghost predicate PickInv(cached: map<Hash, Utxo>, reserved: map<Hash, nat>, valid: Hash -> bool, amount: uint64, order: seq<Hash>, i: nat, p: Picked)
    requires Visits(order, cached) && i <= |order|
  {
    && SubCache(p.cache, cached)
    && GoodChoice(cached, reserved, valid, p.chosen) && ChosenBefore(p.chosen, order, i)
    && p.got == Sum(p.chosen) % TWO_64
    && Sum(p.chosen) == FreeValue(cached, reserved, valid, order[..i])
    && p.unavailable == TiedValue(cached, reserved, order[..i]) % TWO_64
    && (Small(cached, amount) ==> p.got == Sum(p.chosen))
    && (p.enough ==> p.got >= amount)
    && (!p.enough ==> p.got < amount || p.chosen == [])
  }

  /** One turn of the loop. */
  function Turn(cached: map<Hash, Utxo>, reserved: map<Hash, nat>, valid: Hash -> bool, amount: uint64, p: Picked, o: Hash): Picked
    requires o in cached
  {
    var u := cached[o];
    if o in reserved then p.(unavailable := (p.unavailable + u.amount) % TWO_64)
    else if !valid(o) then p.(cache := p.cache - {o})
    else
      var got := (p.got + u.amount) % TWO_64;
      p.(got := got, chosen := p.chosen + [u], enough := got >= amount)
  }

  lemma {:induction false} TurnKeeps(cached: map<Hash, Utxo>, reserved: map<Hash, nat>, valid: Hash -> bool, amount: uint64, order: seq<Hash>, i: nat, p: Picked)
    requires KeyedById(cached) && Visits(order, cached) && i < |order| && !p.enough
    requires PickInv(cached, reserved, valid, amount, order, i, p)
    ensures PickInv(cached, reserved, valid, amount, order, i + 1, Turn(cached, reserved, valid, amount, p, order[i]))
  {
    hide GoodChoice, Sum, KeyedById, ChosenBefore, Small, SubCache;
    var o := order[i];
    assert order[..i + 1][..i] == order[..i];
    assert order[..i + 1][i] == o;
    if o in reserved {
      ModAdd(TiedValue(cached, reserved, order[..i]), cached[o].amount);
      BeforeLater(p.chosen, order, i);
    } else if !valid(o) {
      BeforeLater(p.chosen, order, i);
      SmallerCache(p.cache, cached, o);
    } else {
      ChooseOne(cached, reserved, valid, order, i, p.chosen);
      ModAdd(Sum(p.chosen), cached[o].amount);
      NoWrap(cached, amount, p, o);
    }
  }

  lemma {:induction false} SmallerCache(cache: map<Hash, Utxo>, cached: map<Hash, Utxo>, o: Hash)
    requires SubCache(cache, cached)
    ensures SubCache(cache - {o}, cached)
  {
  }

  lemma {:induction false} NoWrap(cached: map<Hash, Utxo>, amount: uint64, p: Picked, o: Hash)
    requires o in cached && (p.got < amount || p.chosen == []) && p.got == Sum(p.chosen) % TWO_64
    ensures Small(cached, amount) && p.got == Sum(p.chosen) ==> p.got + cached[o].amount < TWO_64
  {
  }

  lemma {:induction false} BeforeLater(chosen: seq<Utxo>, order: seq<Hash>, i: nat)
    requires i < |order| && ChosenBefore(chosen, order, i)
    ensures ChosenBefore(chosen, order, i + 1)
  {
    assert order[..i + 1] == order[..i] + [order[i]];
  }

  lemma {:induction false} ModAdd(n: nat, m: nat)
    ensures (n % TWO_64 + m) % TWO_64 == (n + m) % TWO_64
  {
  }

  /** Outside the small amounts the 64-bit total can be short of the value chosen: three outputs worth 2^65 - 1 count as 2^64 - 1. */
  lemma {:induction false} LargeTotalsWrap(cached: map<Hash, Utxo>, valid: Hash -> bool, a: Hash, b: Hash, c: Hash)
    requires a in cached && b in cached && c in cached && valid(a) && valid(b) && valid(c)
    requires cached[a].amount == TWO_64 - 2 && cached[b].amount == TWO_64 - 1 && cached[c].amount == 2
    ensures var amount := TWO_64 - 1;
            var p := Turn(cached, map[], valid, amount, Picked(0, 0, [], cached, false), a);
            var q := Turn(cached, map[], valid, amount, p, b);
            var r := Turn(cached, map[], valid, amount, q, c);
            !p.enough && !q.enough && r.enough && r.got == amount && Sum(r.chosen) == amount + TWO_64
  {
    var one := [] + [cached[a]];
    var two := one + [cached[b]];
    var three := two + [cached[c]];
    assert one[..0] == [] && two[..1] == one && three[..2] == two;
    assert Sum(one) == cached[a].amount by { assert Sum([]) == 0; }
    assert Sum(two) == Sum(one) + cached[b].amount;
    assert Sum(three) == Sum(two) + cached[c].amount;
  }

  /**
   * The loop of reserveFromCache. All sums are taken in 64 bits. Where the cached outputs together are worth
   * less than 2^64, the choice succeeds exactly when the free ones cover the amount, and the error says
   * whether the reserved ones would have helped.
   */
  method Choose(cached: map<Hash, Utxo>, reserved: map<Hash, nat>, order: seq<Hash>, valid: Hash -> bool, amount: uint64)
    returns (err: Option<ReserveError>, chosen: seq<Utxo>, total: uint64, cache: map<Hash, Utxo>)
    requires KeyedById(cached) && Visits(order, cached)
    ensures SubCache(cache, cached)
    ensures err.None? ==> GoodChoice(cached, reserved, valid, chosen)
    ensures err.None? ==> total == Sum(chosen) % TWO_64 && total >= amount
    ensures err.None? && Small(cached, amount) ==> total == Sum(chosen)
    ensures FreeValue(cached, reserved, valid, order) + TiedValue(cached, reserved, order) < TWO_64 ==>
              && (err.None? <==> FreeValue(cached, reserved, valid, order) >= amount)
              && (err == Some(Insufficient) <==>
                    FreeValue(cached, reserved, valid, order) + TiedValue(cached, reserved, order) < amount)
  {
    hide PickInv, GoodChoice, KeyedById;
    var got: uint64, unavailable: uint64 := 0, 0;
    chosen, cache := [], cached;
    var i := 0;
    var enough := false;
    PickStart(cached, reserved, valid, amount, order);
    while i < |order| && !enough
      invariant 0 <= i <= |order|
      invariant PickInv(cached, reserved, valid, amount, order, i, Picked(got, unavailable, chosen, cache, enough))
    {
      var o := order[i];
      var u := cached[o];
      TurnKeeps(cached, reserved, valid, amount, order, i, Picked(got, unavailable, chosen, cache, enough));
      if o in reserved {
        unavailable := (unavailable + u.amount) % TWO_64;
      } else if !valid(o) {
        cache := cache - {o};
      } else {
        got := (got + u.amount) % TWO_64;
        chosen := chosen + [u];
        enough := got >= amount;
      }
      i := i + 1;
    }
    PickEnd(cached, reserved, valid, amount, order, i, Picked(got, unavailable, chosen, cache, enough));
    if (got + unavailable) % TWO_64 < amount {
      return Some(Insufficient), [], 0, cache;
    }
    if got < amount {
      return Some(AlreadyReserved), [], 0, cache;
    }
    return None, chosen, got, cache;
  }

  lemma {:induction false} PickStart(cached: map<Hash, Utxo>, reserved: map<Hash, nat>, valid: Hash -> bool, amount: uint64, order: seq<Hash>)
    requires Visits(order, cached)
    ensures PickInv(cached, reserved, valid, amount, order, 0, Picked(0, 0, [], cached, false))
  {
  }

  /** What the loop's end means for the two tests after it. */
  lemma {:induction false} PickEnd(cached: map<Hash, Utxo>, reserved: map<Hash, nat>, valid: Hash -> bool, amount: uint64, order: seq<Hash>, i: nat, p: Picked)
    requires Visits(order, cached) && i <= |order| && PickInv(cached, reserved, valid, amount, order, i, p) && (i == |order| || p.enough)
    ensures SubCache(p.cache, cached) && GoodChoice(cached, reserved, valid, p.chosen)
    ensures p.got == Sum(p.chosen) % TWO_64 && (Small(cached, amount) ==> p.got == Sum(p.chosen))
    ensures var free, tied := FreeValue(cached, reserved, valid, order), TiedValue(cached, reserved, order);
            free + tied < TWO_64 ==>
              && (p.got >= amount <==> free >= amount)
              && ((p.got + p.unavailable) % TWO_64 < amount <==> free + tied < amount)
  {
    hide GoodChoice, FreeValue, TiedValue, Sum;
    ValuesGrow(cached, reserved, valid, order, i);
    assert order[..|order|] == order;
  }

  lemma {:induction false} ValuesGrow(cached: map<Hash, Utxo>, reserved: map<Hash, nat>, valid: Hash -> bool, order: seq<Hash>, i: nat)
    requires i <= |order| && forall k :: 0 <= k < |order| ==> order[k] in cached
    ensures FreeValue(cached, reserved, valid, order[..i]) <= FreeValue(cached, reserved, valid, order)
    ensures TiedValue(cached, reserved, order[..i]) <= TiedValue(cached, reserved, order)
    decreases |order| - i
  {
    if i < |order| {
      ValuesGrow(cached, reserved, valid, order, i + 1);
      assert order[..i + 1][..i] == order[..i];
    } else {
      assert order[..i] == order;
    }
  }

  // ---------------------------------------------------------------- the reserver

  class Reserver {
    var nextReservationID: nat
    var reservations: map<nat, Reservation>
    var sources: map<Source, SourceState>
    // what the calls in flight hold
    ghost var drawn: set<nat>
    ghost var recording: map<nat, Reservation>
    ghost var cancelling: map<nat, Reservation>

    ghost function View(): State
      reads this
    {
      State(nextReservationID, reservations, drawn, recording, cancelling, sources)
    }

    constructor ()
      ensures View() == INITIAL
    {
      nextReservationID, reservations, sources := 0, map[], map[];
      drawn, recording, cancelling := {}, map[], map[];
    }

    /** The step can run, and the machine has taken it. */
    twostate predicate Took(rows: Rows, step: Step)
      reads this
    {
      Enabled(rows, old(View()), step) && View() == Reservations.After(rows, old(View()), step)
    }

    method DrawID(ghost rows: Rows) returns (rid: nat)
      modifies this
      ensures Took(rows, Draw) && rid in drawn && rid == old(nextReservationID) + 1
    {
      nextReservationID := nextReservationID + 1;
      rid := nextReservationID;
      drawn := drawn + {rid};
    }

    method OpenSource(ghost rows: Rows, src: Source)
      modifies this
      ensures Took(rows, Open(src)) && src in sources
    {
      if src !in sources {
        sources := sources[src := SourceState(map[], map[], 0)];
      }
    }

    /** reserveFromCache. Success is a Mark step, failure a Refuse step. */
    method ReserveFromCache(ghost rows: Rows, rid: nat, src: Source, amount: uint64, expiry: int, order: seq<Hash>, valid: Hash -> bool)
      returns (err: Option<ReserveError>, res: Reservation)
      requires Inv(rows, View()) && rid in drawn && src in sources && Visits(order, sources[src].cached)
      modifies this
      ensures src in sources
      ensures err.None? ==> Took(rows, Mark(res, sources[src].cached)) && res.id == rid && res.source == src
      ensures err.None? ==> res.amount == amount && (amount + res.change) == Sum(res.utxos) % TWO_64
      ensures err.None? && Small(old(sources[src].cached), amount) ==> Sum(res.utxos) == amount + res.change
      ensures err.Some? ==> Took(rows, Refuse(src, sources[src].cached))
    {
      hide Inv, Sum, FreeValue, TiedValue, GoodChoice;
      var ss := sources[src];
      CacheIsKeyed(rows, View(), src);
      var chosen, total, cache;
      err, chosen, total, cache := Choose(ss.cached, ss.reserved, order, valid, amount);
      res := Reservation(rid, src, chosen, amount, if total > amount then total - amount else 0, expiry);
      if err.Some? {
        sources := sources[src := ss.(cached := cache)];
        return;
      }
      ChoiceIsEnabled(rows, View(), res, cache, valid);
      var reserved := MarkAll(ss.reserved, chosen, rid);
      sources := sources[src := ss.(cached := cache, reserved := reserved)];
      drawn := drawn - {rid};
      recording := recording[rid := res];
    }

    /** sourceReserver.reserveUTXO: a given output, found by its id. */
    method ReserveUTXO(ghost rows: Rows, rid: nat, u: Utxo, expiry: int) returns (err: Option<ReserveError>, res: Reservation)
      requires Inv(rows, View()) && rid in drawn && u.source in sources && u == rows(u.outputID)
      modifies this
      ensures err.None? <==> u.outputID !in old(sources[u.source].reserved)
      ensures err.None? ==> Took(rows, Mark(res, old(sources[u.source].cached))) && res.id == rid && res.utxos == [u]
      ensures err.Some? ==> View() == old(View())
    {
      hide Inv;
      var ss := sources[u.source];
      res := Reservation(rid, u.source, [u], u.amount, 0, expiry);
      if u.outputID in ss.reserved {
        return Some(AlreadyReserved), res;
      }
      assert Marked(ss.reserved, [u], rid) == ss.reserved[u.outputID := rid] by {
        assert [u][..0] == [];
        assert Marked(ss.reserved, [], rid) == ss.reserved;
      }
      sources := sources[u.source := ss.(reserved := ss.reserved[u.outputID := rid])];
      drawn := drawn - {rid};
      recording := recording[rid := res];
      return None, res;
    }

    method RecordReservation(ghost rows: Rows, res: Reservation)
      requires res.id in recording && recording[res.id] == res
      modifies this
      ensures Took(rows, Record(res.id)) && res.id in reservations
    {
      reservations := reservations[res.id := res];
      recording := recording - {res.id};
    }

    /** The first section of Cancel. */
    method TakeReservation(ghost rows: Rows, rid: nat) returns (r: Option<Reservation>)
      requires Inv(rows, View())
      modifies this
      ensures r.Some? <==> rid in old(reservations)
      ensures r.Some? ==> Took(rows, Take({rid})) && r.value == old(reservations[rid]) && rid in cancelling && cancelling[rid] == r.value
      ensures r.None? ==> View() == old(View())
    {
      hide Inv;
      if rid !in reservations {
        return None;
      }
      var res := reservations[rid];
      assert (map id | id in {rid} && id in reservations :: reservations[id]) == map[rid := res];
      reservations := reservations - {rid};
      cancelling := cancelling + map[rid := res];
      return Some(res);
    }

    /** The first section of ExpireReservations, visiting the reservations in any order. */
    method TakeExpired(ghost rows: Rows, now: int, order: seq<nat>) returns (canceled: seq<Reservation>)
      requires Inv(rows, View()) && forall rid :: rid in reservations <==> rid in order
      modifies this
      ensures Took(rows, Take(set rid | rid in old(reservations) && old(reservations)[rid].expiry < now))
      ensures forall rid :: rid in reservations ==> reservations[rid].expiry >= now
      ensures forall r :: r in canceled <==> r.id in old(reservations) && old(reservations)[r.id] == r && r.expiry < now
    {
      hide Inv;
      RecordedById(rows, View());
      ghost var was := reservations;
      var kept;
      kept, canceled := SplitExpired(reservations, now, order);
      ghost var ids := set rid | rid in was && was[rid].expiry < now;
      reservations := kept;
      cancelling := cancelling + (map id | id in ids && id in was :: was[id]);
    }

    /** sourceReserver.cancel. */
    method ClearMarks(ghost rows: Rows, res: Reservation)
      requires res.id in cancelling && cancelling[res.id] == res && res.source in sources
      modifies this
      ensures Took(rows, Clear(res.id))
    {
      var ss := sources[res.source];
      var reserved := ss.reserved;
      for i := 0 to |res.utxos|
        invariant reserved == Unmarked(ss.reserved, res.utxos[..i])
      {
        assert res.utxos[..i + 1][..i] == res.utxos[..i];
        reserved := reserved - {res.utxos[i].outputID};
      }
      assert res.utxos[..|res.utxos|] == res.utxos;
      sources := sources[res.source := ss.(reserved := reserved)];
      cancelling := cancelling - {res.id};
    }

    /** The last section of refillCache. */
    method RefillCache(ghost rows: Rows, src: Source, found: seq<Utxo>, height: nat)
      requires src in sources
      requires forall i :: 0 <= i < |found| ==> found[i] == rows(found[i].outputID) && found[i].source == src
      modifies this
      ensures Took(rows, Refill(src, found, height))
    {
      var ss := sources[src];
      var cached := ss.cached;
      for i := 0 to |found|
        invariant cached == Cached(ss.cached, found[..i])
      {
        assert found[..i + 1][..i] == found[..i];
        cached := cached[found[i].outputID := found[i]];
      }
      assert found[..|found|] == found;
      sources := sources[src := ss.(cached := cached, lastHeight := if height > ss.lastHeight then height else ss.lastHeight)];
    }
  }

  /** The loop of ExpireReservations. */
  method SplitExpired(was: map<nat, Reservation>, now: int, order: seq<nat>)
    returns (kept: map<nat, Reservation>, canceled: seq<Reservation>)
    requires (forall rid :: rid in was <==> rid in order) && forall rid :: rid in was ==> was[rid].id == rid
    ensures kept == was - (set rid | rid in was && was[rid].expiry < now)
    ensures forall r :: r in canceled <==> r.id in was && was[r.id] == r && r.expiry < now
  {
    kept, canceled := was, [];
    for i := 0 to |order|
      invariant kept == was - Expired(was, now, order[..i])
      invariant forall r :: r in canceled <==> r.id in Expired(was, now, order[..i]) && was[r.id] == r
    {
      var rid := order[i];
      assert order[..i + 1] == order[..i] + [rid];
      if rid in kept && kept[rid].expiry < now {
        canceled := canceled + [kept[rid]];
        kept := kept - {rid};
      }
    }
    assert order[..|order|] == order;
    assert Expired(was, now, order) == set rid | rid in was && was[rid].expiry < now;
  }

  lemma {:induction false} RecordedById(rows: Rows, s: State)
    requires Inv(rows, s)
    ensures forall id :: id in s.recorded ==> s.recorded[id].id == id
  {
    hide MarksOwned, AllMarked, GoodSource, Distinct;
    forall id | id in s.recorded ensures s.recorded[id].id == id {
      assert Live(s, id) && GoodReservation(rows, id, Get(s, id));
    }
  }

  ghost function Expired(was: map<nat, Reservation>, now: int, ids: seq<nat>): set<nat>
  {
    set rid | rid in was && rid in ids && was[rid].expiry < now
  }

  method MarkAll(reserved0: map<Hash, nat>, us: seq<Utxo>, rid: nat) returns (reserved: map<Hash, nat>)
    ensures reserved == Marked(reserved0, us, rid)
  {
    reserved := reserved0;
    for i := 0 to |us|
      invariant reserved == Marked(reserved0, us[..i], rid)
    {
      assert us[..i + 1][..i] == us[..i];
      reserved := reserved[us[i].outputID := rid];
    }
    assert us[..|us|] == us;
  }

  lemma {:induction false} CacheIsKeyed(rows: Rows, s: State, src: Source)
    requires Inv(rows, s) && src in s.sources
    ensures KeyedById(s.sources[src].cached)
  {
    hide MarksOwned, AllMarked, IdsApart, GoodReservation;
    assert GoodSource(rows, src, s.sources[src]);
  }

  lemma {:induction false} ChoiceIsEnabled(rows: Rows, s: State, res: Reservation, cache: map<Hash, Utxo>, valid: Hash -> bool)
    requires Inv(rows, s) && res.id in s.drawn && res.source in s.sources && SubCache(cache, s.sources[res.source].cached)
    requires GoodChoice(s.sources[res.source].cached, s.sources[res.source].reserved, valid, res.utxos)
    ensures Enabled(rows, s, Mark(res, cache))
  {
    hide MarksOwned, AllMarked, IdsApart, Distinct;
    var ss := s.sources[res.source];
    assert GoodSource(rows, res.source, ss);
    forall i | 0 <= i < |res.utxos|
      ensures res.utxos[i] == rows(res.utxos[i].outputID) && res.utxos[i].source == res.source && res.utxos[i].outputID !in ss.reserved
    {
      assert res.utxos[i] == ss.cached[res.utxos[i].outputID];
    }
  }
}
