/** What acceptance of a mux says about the entries it reads, on any entry graph. */
module Links {
  import opened Basics
  import opened Entries
  import V = Validation
  import Checker

  /** Source i of the mux reads an entry whose destination points back at the mux, at i, with the same value. */
  ghost predicate PointsBack(tx: Tx, mux: Hash, i: nat)
    requires mux in tx.entries && tx.entries[mux].Mux? && i < |tx.entries[mux].sources|
  {
    var src := tx.entries[mux].sources[i];
    && src.Some? && src.value.ref.Some? && src.value.value.Some? && src.value.ref.value in tx.entries
    && V.DestinationOf(tx.entries[src.value.ref.value], src.value.position) ==
         V.Found(Some(ValueDestination(Some(mux), src.value.value, i)))
  }

  lemma {:induction false} MuxSourcesPass(env: Env, tx: Tx, mux: Hash)
    requires Graph(env, tx) && Reachable(tx, mux) && tx.entries[mux].Mux? && V.CheckValid(env, tx, mux).Ok?
    ensures Acyclic(tx) && forall s, r :: s in tx.entries[mux].sources && r in SourceRefs(s) ==> V.Follows(tx, mux, r)
    ensures V.CheckSources(env, tx, mux, tx.entries[mux].sources).Ok?
  {
    hide V.CheckParity, V.CheckSources, V.CheckDests;
    Checker.SourcesFollow(tx, mux);
  }

  lemma {:induction false} SourcePasses(env: Env, tx: Tx, at: Hash, i: nat, src: Option<ValueSource>)
    requires Graph(env, tx) && Reachable(tx, at) && forall r :: r in SourceRefs(src) ==> V.Follows(tx, at, r)
    requires V.CheckSrc(env, tx, at, i, src).Ok?
    ensures src.Some? && src.value.ref.Some? && src.value.value.Some? && src.value.ref.value in tx.entries
    ensures Reachable(tx, src.value.ref.value) && V.CheckValid(env, tx, src.value.ref.value).Ok?
    ensures V.DestinationOf(tx.entries[src.value.ref.value], src.value.position) ==
      V.Found(Some(ValueDestination(Some(at), src.value.value, i)))
  {
    hide V.CheckValid, WellKeyed, Acyclic;
    assert src.Some? && src.value.ref.Some? ==> src.value.ref.value in SourceRefs(src);
  }

  /** In an accepted mux every source and the destination it reads point at each other, and the entry read is valid. */
  lemma {:induction false} SourcesPointBack(env: Env, tx: Tx, mux: Hash)
    requires Graph(env, tx) && Reachable(tx, mux) && tx.entries[mux].Mux? && V.CheckValid(env, tx, mux).Ok?
    ensures forall i :: 0 <= i < |tx.entries[mux].sources| ==>
      && PointsBack(tx, mux, i) && Reachable(tx, tx.entries[mux].sources[i].value.ref.value)
      && V.CheckValid(env, tx, tx.entries[mux].sources[i].value.ref.value).Ok?
  {
    hide V.CheckValid, Graph, V.CheckSources, V.CheckSrc, V.Follows, V.DestinationOf;
    MuxSourcesPass(env, tx, mux);
    var sources := tx.entries[mux].sources;
    V.CheckedSourcesHaveValues(env, tx, mux, sources);
    forall i | 0 <= i < |sources|
      ensures PointsBack(tx, mux, i) && Reachable(tx, sources[i].value.ref.value)
      ensures V.CheckValid(env, tx, sources[i].value.ref.value).Ok?
    {
      assert sources[i] in sources;
      SourcePasses(env, tx, mux, i, sources[i]);
    }
  }

  /** No entry is counted twice: two sources of an accepted mux never read the same entry at the same position. */
  lemma {:induction false} NoSourceTwice(env: Env, tx: Tx, mux: Hash, i: nat, j: nat)
    requires Graph(env, tx) && Reachable(tx, mux) && tx.entries[mux].Mux? && V.CheckValid(env, tx, mux).Ok?
    requires i < |tx.entries[mux].sources| && j < |tx.entries[mux].sources| && i != j
    ensures
      var a, b := tx.entries[mux].sources[i], tx.entries[mux].sources[j];
      a.Some? && b.Some? && (a.value.ref, a.value.position) != (b.value.ref, b.value.position)
  {
    hide V.CheckValid, Graph;
    SourcesPointBack(env, tx, mux);
    assert PointsBack(tx, mux, i) && PointsBack(tx, mux, j);
  }
}
