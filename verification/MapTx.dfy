/** MapTx: the entry graph of a legacy transaction with the lists of its inputs, nonces and spent outputs. */
module MapTx {
  import opened Basics
  import opened Entries
  import opened LegacyTx
  import TxMapper

  // ---------------------------------------------------------------- reading a mapped graph

  /** Without collisions an identifier determines the body stored under it. */
  lemma {:induction false} BodyAt(env: Env, td: TxData, entries: map<Hash, Entry>, b: Entry)
    requires Hashable(env, td) && HoldsBodies(env, td, entries) && b in Bodies(env, td)
    ensures env.hashOf(b) in entries && Body(entries[env.hashOf(b)]) == b
  {
    hide Bodies;
  }

  lemma {:induction false} SpendAt(env: Env, td: TxData, entries: map<Hash, Entry>, i: nat)
    requires Hashable(env, td) && HoldsBodies(env, td, entries) && i < |td.inputs| && td.inputs[i].SpendInput?
    ensures
      && var id := SpendId(env, td.inputs[i]);
      && id in entries && entries[id].Spend?
      && entries[id].spentOutputId == Some(PrevoutId(env, td.inputs[i])) && entries[id].extHash == None
  {
    hide HoldsBodies, Hashable, Bodies, PrevoutId;
    TxMapper.SpendFacts(env, td, i);
    TxMapper.InputBodyIn(env, td, i);
    BodyAt(env, td, entries, Body(SpendEntry(env, td.inputs[i], 0)));
  }

  lemma {:induction false} PrevoutAt(env: Env, td: TxData, entries: map<Hash, Entry>, i: nat)
    requires Hashable(env, td) && HoldsBodies(env, td, entries) && i < |td.inputs| && td.inputs[i].SpendInput?
    ensures
      && var id := PrevoutId(env, td.inputs[i]);
      && id in entries && entries[id].Output? && Body(entries[id]) == PrevoutEntry(td.inputs[i])
  {
    hide HoldsBodies, Hashable, Bodies;
    TxMapper.SpendFacts(env, td, i);
    BodyAt(env, td, entries, Body(PrevoutEntry(td.inputs[i])));
  }

  lemma {:induction false} IssuanceAt(env: Env, td: TxData, entries: map<Hash, Entry>, i: nat)
    requires Hashable(env, td) && HoldsBodies(env, td, entries) && i < |td.inputs| && td.inputs[i].IssuanceInput?
    ensures
      && var id := IssuanceId(env, td, td.inputs[i]);
      && id in entries && entries[id].Issuance? && entries[id].anchorId == AnchorId(env, td, td.inputs[i])
  {
    hide HoldsBodies, Hashable, Bodies, AnchorId;
    TxMapper.InputBodyIn(env, td, i);
    BodyAt(env, td, entries, Body(IssuanceEntry(env, td, td.inputs[i], 0)));
  }

  lemma {:induction false} NonceAt(env: Env, td: TxData, entries: map<Hash, Entry>, i: nat)
    requires Hashable(env, td) && HoldsBodies(env, td, entries)
    requires i < |td.inputs| && td.inputs[i].IssuanceInput? && |td.inputs[i].nonce| > 0
    ensures NonceId(env, td, td.inputs[i]) in entries && entries[NonceId(env, td, td.inputs[i])].Nonce?
    ensures env.EntryId(TimeRangeEntry(td)) in entries && entries[env.EntryId(TimeRangeEntry(td))] == TimeRangeEntry(td)
  {
    hide HoldsBodies, Hashable, Bodies, NonceProgram;
    TxMapper.IssuanceFacts(env, td, i);
    BodyAt(env, td, entries, Body(NonceEntry(env, td, td.inputs[i])));
    BodyAt(env, td, entries, Body(TimeRangeEntry(td)));
  }

  /** Only a nonce anchors an issuance that has one. */
  lemma {:induction false} AnchorKind(env: Env, td: TxData, entries: map<Hash, Entry>, i: nat)
    requires Hashable(env, td) && HoldsBodies(env, td, entries) && i < |td.inputs| && td.inputs[i].IssuanceInput?
    ensures ZERO_HASH !in entries
    ensures
      var a := AnchorId(env, td, td.inputs[i]);
      if |td.inputs[i].nonce| > 0 then a == NonceId(env, td, td.inputs[i]) && a in entries && entries[a].Nonce?
      else if FirstSpend(td).Some? then a in entries && entries[a].Spend?
      else a !in entries
  {
    NoZero(env, td, entries);
    hide HoldsBodies, Hashable, Bodies, NonceProgram, SpendId, IssuedValue;
    if |td.inputs[i].nonce| > 0 {
      NonceAt(env, td, entries, i);
    } else if FirstSpend(td).Some? {
      SpendAt(env, td, entries, FirstSpend(td).value);
    }
  }

  lemma {:induction false} NoZero(env: Env, td: TxData, entries: map<Hash, Entry>)
    requires Hashable(env, td) && HoldsBodies(env, td, entries)
    ensures ZERO_HASH !in entries
  {
    hide Bodies;
  }

  // ---------------------------------------------------------------- the loop over the entries

  ghost function SpentOf(entries: map<Hash, Entry>, seen: set<Hash>): set<Option<Hash>>
  {
    set id | id in seen && id in entries && entries[id].Spend? :: entries[id].spentOutputId
  }

  /** The nonces that the issuances seen so far are anchored to. */
  ghost function NoncesOf(entries: map<Hash, Entry>, seen: set<Hash>): set<Hash>
  {
    set id | id in seen && id in entries && entries[id].Issuance? && entries[id].anchorId in entries
             && entries[entries[id].anchorId].Nonce? :: entries[id].anchorId
  }

  lemma {:induction false} SpentOfAll(env: Env, td: TxData, entries: map<Hash, Entry>, spent: set<Hash>)
    requires Hashable(env, td) && MappedEntries(env, td, entries)
    requires forall h :: h in spent <==> Some(h) in SpentOf(entries, entries.Keys)
    ensures spent == SpentIds(env, td)
  {
    hide Hashable, HoldsBodies, PrevoutId, SpendId, IssuanceOf, NonceOf, SpendAnchored;
    forall h | h in spent
      ensures h in SpentIds(env, td)
    {
      var id :| id in entries && entries[id].Spend? && entries[id].spentOutputId == Some(h);
      assert SpendOf(env, td, entries[id], id, |td.inputs|);
    }
    forall i | 0 <= i < |td.inputs| && td.inputs[i].SpendInput?
      ensures PrevoutId(env, td.inputs[i]) in spent
    {
      SpendAt(env, td, entries, i);
    }
  }

  lemma {:induction false} NoncesOfAll(env: Env, td: TxData, entries: map<Hash, Entry>)
    requires Hashable(env, td) && MappedEntries(env, td, entries)
    ensures NoncesOf(entries, entries.Keys) == NonceIds(env, td)
  {
    hide Hashable, HoldsBodies, SpendId, NonceId, SpendOf, NonceOf, IssuanceId, AnchorId, IssuedValue;
    var nonces := NoncesOf(entries, entries.Keys);
    forall h | h in nonces
      ensures h in NonceIds(env, td)
    {
      var id :| id in entries && entries[id].Issuance? && entries[id].anchorId == h && h in entries && entries[h].Nonce?;
      assert IssuanceOf(env, td, entries[id], id, |td.inputs|);
      AnchorKind(env, td, entries, entries[id].ordinal);
    }
    forall i | 0 <= i < |td.inputs| && td.inputs[i].IssuanceInput? && |td.inputs[i].nonce| > 0
      ensures NonceId(env, td, td.inputs[i]) in nonces
    {
      IssuanceAt(env, td, entries, i);
      AnchorKind(env, td, entries, i);
    }
  }

  /** A spend or issuance that the loop records as an input. */
  ghost predicate Recorded(entries: map<Hash, Entry>, id: Hash)
  {
    id in entries && (entries[id].Spend? || (entries[id].Issuance? && entries[id].anchorId in entries))
  }

  function Ordinal(e: Entry): nat
    requires e.Spend? || e.Issuance?
  {
    e.ordinal
  }

  lemma {:induction false} OrdinalUnique(env: Env, td: TxData, entries: map<Hash, Entry>, a: Hash, b: Hash)
    requires MappedEntries(env, td, entries) && Recorded(entries, a) && Recorded(entries, b)
    ensures Ordinal(entries[a]) < |td.inputs|
    ensures Ordinal(entries[a]) == Ordinal(entries[b]) ==> a == b
  {
    hide HoldsBodies, SpendId, IssuanceId, NonceOf, SpendAnchored, AnchorId, IssuedValue;
    assert SpendOf(env, td, entries[a], a, |td.inputs|) && SpendOf(env, td, entries[b], b, |td.inputs|);
    assert IssuanceOf(env, td, entries[a], a, |td.inputs|) && IssuanceOf(env, td, entries[b], b, |td.inputs|);
  }

  /** Map iteration order is arbitrary: the elements of a set in some order. */
  method ListOf(ids: set<Hash>) returns (list: seq<Hash>)
    ensures Lists(list, ids)
  {
    list := [];
    var rest := ids;
    while rest != {}
      invariant rest <= ids
      invariant Lists(list, ids - rest)
      decreases |rest|
    {
      var h :| h in rest;
      list := list + [h];
      rest := rest - {h};
    }
    assert ids - rest == ids;
  }

  lemma {:induction false} SeenStep(entries: map<Hash, Entry>, rest: set<Hash>, id: Hash)
    requires rest <= entries.Keys && id in rest
    ensures
      var seen, seen' := entries.Keys - rest, entries.Keys - (rest - {id});
      && seen' == seen + {id}
      && SpentOf(entries, seen') == SpentOf(entries, seen) + (if entries[id].Spend? then {entries[id].spentOutputId} else {})
      && NoncesOf(entries, seen') == NoncesOf(entries, seen) +
           (if entries[id].Issuance? && entries[id].anchorId in entries && entries[entries[id].anchorId].Nonce?
            then {entries[id].anchorId} else {})
  {
  }

  method Collect(env: Env, td: TxData, entries: map<Hash, Entry>)
    returns (inputIds: seq<Hash>, nonceIds: set<Hash>, spentOutputIds: set<Hash>)
    requires MappedEntries(env, td, entries)
    ensures forall h :: h in spentOutputIds <==> Some(h) in SpentOf(entries, entries.Keys)
    ensures nonceIds == NoncesOf(entries, entries.Keys)
    ensures |inputIds| == |td.inputs|
    ensures forall id :: Recorded(entries, id) ==>
      Ordinal(entries[id]) < |td.inputs| && inputIds[Ordinal(entries[id])] == id
  {
    hide MappedEntries, SpentOf, NoncesOf;
    nonceIds, spentOutputIds := {}, {};
    inputIds := seq(|td.inputs|, _ => ZERO_HASH);
    var rest := entries.Keys;
    NothingSeen(entries);
    while rest != {}
      invariant rest <= entries.Keys && |inputIds| == |td.inputs|
      invariant forall h :: h in spentOutputIds <==> Some(h) in SpentOf(entries, entries.Keys - rest)
      invariant nonceIds == NoncesOf(entries, entries.Keys - rest)
      invariant forall id :: Recorded(entries, id) && id !in rest ==>
        Ordinal(entries[id]) < |td.inputs| && inputIds[Ordinal(entries[id])] == id
      decreases |rest|
    {
      var id :| id in rest;
      SeenStep(entries, rest, id);
      RecordedInRange(env, td, entries, id);
      ghost var seen := entries.Keys - rest;
      rest := rest - {id};
      var e := entries[id];
      if e.Issuance? {
        if e.anchorId in entries {
          if entries[e.anchorId].Nonce? {
            nonceIds := nonceIds + {e.anchorId};
          }
          if e.ordinal < |td.inputs| {
            inputIds := RecordInput(env, td, entries, inputIds, seen, id);
          }
        }
      } else if e.Spend? {
        SpendHasPrevout(env, td, entries, id);
        spentOutputIds := spentOutputIds + {e.spentOutputId.value};
        if e.ordinal < |td.inputs| {
          inputIds := RecordInput(env, td, entries, inputIds, seen, id);
        }
      }
    }
    assert entries.Keys - rest == entries.Keys;
  }

  lemma {:induction false} NothingSeen(entries: map<Hash, Entry>)
    ensures SpentOf(entries, entries.Keys - entries.Keys) == {} && NoncesOf(entries, entries.Keys - entries.Keys) == {}
  {
  }

  method MapTx(env: Env, td: TxData) returns (tx: Tx)
    requires Hashable(env, td)
    ensures Mapped(env, td, tx)
  {
    hide Hashable, MappedEntries, HeaderEntry, Env.EntryId, SpentIds, NonceIds, SpentOf, NoncesOf;
    var txId, entries := TxMapper.MapEntries(env, td);
    var inputIds, nonceIds, spentOutputIds := Collect(env, td, entries);
    SpentOfAll(env, td, entries, spentOutputIds);
    NoncesOfAll(env, td, entries);
    var nonceList := ListOf(nonceIds);
    var spentList := ListOf(spentOutputIds);
    tx := Tx(txId, entries, inputIds, nonceList, spentList);
    assert forall id :: id in entries && entries[id].Spend? ==> Recorded(entries, id);
    assert forall id :: id in entries && entries[id].Issuance? && entries[id].anchorId in entries ==> Recorded(entries, id);
  }

  lemma {:induction false} SpendHasPrevout(env: Env, td: TxData, entries: map<Hash, Entry>, id: Hash)
    requires MappedEntries(env, td, entries) && id in entries && entries[id].Spend?
    ensures entries[id].spentOutputId.Some?
  {
    hide HoldsBodies, IssuanceOf, NonceOf;
    assert SpendOf(env, td, entries[id], id, |td.inputs|);
  }

  lemma {:induction false} RecordedInRange(env: Env, td: TxData, entries: map<Hash, Entry>, id: Hash)
    requires MappedEntries(env, td, entries)
    ensures Recorded(entries, id) ==> Ordinal(entries[id]) < |td.inputs|
  {
    if Recorded(entries, id) { OrdinalUnique(env, td, entries, id, id); }
  }

  method RecordInput(env: Env, td: TxData, entries: map<Hash, Entry>, inputIds: seq<Hash>, ghost seen: set<Hash>, id: Hash)
    returns (r: seq<Hash>)
    requires MappedEntries(env, td, entries) && Recorded(entries, id) && |inputIds| == |td.inputs|
    requires Ordinal(entries[id]) < |td.inputs|
    requires forall s :: Recorded(entries, s) && s in seen ==>
      Ordinal(entries[s]) < |td.inputs| && inputIds[Ordinal(entries[s])] == s
    ensures |r| == |inputIds|
    ensures forall s :: Recorded(entries, s) && (s in seen || s == id) ==> r[Ordinal(entries[s])] == s
  {
    hide MappedEntries;
    r := inputIds[Ordinal(entries[id]) := id];
    forall s | Recorded(entries, s) && s in seen
      ensures r[Ordinal(entries[s])] == s
    {
      OrdinalUnique(env, td, entries, s, id);
    }
  }
}
