/** The condition on a legacy transaction under which ValidateTx accepts its entry graph. */
module MappedAccept {
  import opened Basics
  import opened Entries
  import opened Opcodes
  import opened LegacyTx
  import M = MapTx
  import G = MappedValid
  import V = Validation

  // ---------------------------------------------------------------- the condition

  /** The anchor of an issuance: a nonce that runs, with both time bounds, or the first spend; marked for this issuance. */
  ghost predicate AnchorAccepted(env: Env, td: TxData, tx: Tx, i: nat)
    requires i < |td.inputs| && td.inputs[i].IssuanceInput?
  {
    var inp := td.inputs[i];
    if |inp.nonce| > 0 then
      && LastUser(env, td, NonceId(env, td, inp), |td.inputs|) == Some(i)
      && td.minTime != 0 && td.maxTime != 0
      && NonceId(env, td, inp) in tx.entries
      && env.verify(tx, tx.entries[NonceId(env, td, inp)], Program(1, NonceProgram(env, inp)), [])
    else
      FirstSpend(td).Some? && LastPlain(td, |td.inputs|) == Some(i)
  }

  /** One input: known, not repeated by a later input with the same identifier, and its program succeeds. */
  ghost predicate InputAccepted(env: Env, td: TxData, tx: Tx, i: nat)
    requires i < |td.inputs|
  {
    var inp := td.inputs[i];
    match inp
    case SpendInput(_, _, _, vmVersion, code, _, args, _) =>
      var id := SpendId(env, inp);
      && LastSpend(env, td, id, |td.inputs|) == Some(i)
      && id in tx.entries && env.verify(tx, tx.entries[id], Program(vmVersion, code), args)
    case IssuanceInput(_, _, initialBlock, _, vmVersion, code, args, _) =>
      var id := IssuanceId(env, td, inp);
      && LastIssuance(env, td, id, |td.inputs|) == Some(i)
      && initialBlock == env.blockchainId
      && id in tx.entries && env.verify(tx, tx.entries[id], Program(vmVersion, code), args)
      && AnchorAccepted(env, td, tx, i)
    case UnknownInput => false
  }

  function InputValue(env: Env, inp: TxInput): AssetAmount
    requires !inp.UnknownInput?
  {
    if inp.SpendInput? then inp.value else IssuedValue(env, inp)
  }

  predicate AllKnown(td: TxData)
  {
    forall i :: 0 <= i < |td.inputs| ==> !td.inputs[i].UnknownInput?
  }

  function InputValues(env: Env, td: TxData): seq<AssetAmount>
    requires AllKnown(td)
  {
    seq(|td.inputs|, i requires 0 <= i < |td.inputs| && !td.inputs[i].UnknownInput? => InputValue(env, td.inputs[i]))
  }

  function OutputValues(td: TxData): seq<AssetAmount>
  {
    seq(|td.outputs|, j requires 0 <= j < |td.outputs| => td.outputs[j].value)
  }

  ghost predicate InputsAccepted(env: Env, td: TxData, tx: Tx)
  {
    forall i :: 0 <= i < |td.inputs| ==> InputAccepted(env, td, tx, i)
  }

  ghost predicate MuxAccepted(env: Env, td: TxData, tx: Tx)
  {
    && env.verify(tx, MuxWith(env, td, Destinations(env, td)), Program(1, [OP_TRUE]), [])
    && InputsAccepted(env, td, tx) && AllKnown(td)
    && V.CheckParity(InputValues(env, td), OutputValues(td)).Ok?
  }

  ghost predicate Accepted(env: Env, td: TxData, tx: Tx)
  {
    && (td.maxTime > 0 ==> td.minTime <= td.maxTime)
    && (td.version == 1 ==> td.outputs != [])
    && (td.outputs != [] ==> MuxAccepted(env, td, tx))
  }

  // ---------------------------------------------------------------- reachability

  lemma {:induction false} Reaches(tx: Tx, id: Hash, r: Hash)
    requires Acyclic(tx) && Reachable(tx, id) && r in Refs(tx.entries[id]) && r in tx.entries
    ensures Reachable(tx, r)
  {
    hide Refs;
  }

  lemma {:induction false} Holds(env: Env, td: TxData, tx: Tx)
    requires Mapped(env, td, tx)
    ensures HoldsBodies(env, td, tx.entries)
  {
  }

  // ---------------------------------------------------------------- links that MapTx always sets right

  /** The destination of an input points at the mux, whose source of that position points back at the input. */
  lemma {:induction false} ToMuxAgrees(env: Env, td: TxData, tx: Tx, o: nat, id: Hash, value: AssetAmount)
    requires Mapped(env, td, tx) && o < |td.inputs|
    requires MuxSource(env, td, td.inputs[o]) == Some(ValueSource(Some(id), Some(value), 0))
    ensures V.CheckDest(tx, id, 0, ToMux(env, td, value, o)).Ok?
  {
    hide Mapped, MuxSource, MuxId;
    G.MuxAt(env, td, tx);
    assert MuxSources(env, td)[o] == MuxSource(env, td, td.inputs[o]);
  }

  lemma {:induction false} ResultAgrees(env: Env, td: TxData, tx: Tx, j: nat)
    requires Mapped(env, td, tx) && j < |td.outputs|
    ensures V.CheckDest(tx, MuxId(env, td), j, Destination(env, td, j)).Ok?
  {
    hide Mapped, MuxId, ResultId;
    G.ResultAt(env, td, tx, j);
  }

  lemma {:induction false} DestsAgree(env: Env, td: TxData, tx: Tx, n: nat)
    requires Mapped(env, td, tx) && n <= |td.outputs|
    ensures V.CheckDests(tx, MuxId(env, td), Destinations(env, td)[..n]).Ok?
  {
    hide Mapped, MuxId, Destination, V.CheckDest;
    if n > 0 {
      DestsAgree(env, td, tx, n - 1);
      ResultAgrees(env, td, tx, n - 1);
      assert Destinations(env, td)[..n][..n - 1] == Destinations(env, td)[..n - 1];
    }
  }

  // ---------------------------------------------------------------- spends

  lemma {:induction false} SpendEntryAt(env: Env, td: TxData, tx: Tx, i: nat) returns (o: nat)
    requires Hashable(env, td) && Mapped(env, td, tx) && i < |td.inputs| && td.inputs[i].SpendInput?
    ensures
      && var id := SpendId(env, td.inputs[i]);
      && id in tx.entries && tx.entries[id].Spend? && tx.entries[id].ordinal == o
      && LastSpend(env, td, id, |td.inputs|) == Some(o) && IsSpend(env, td, o, id)
      && tx.entries[id] == SpendWith(env, td.inputs[o], o, ToMux(env, td, td.inputs[o].value, o), SpendAnchored(env, td, o, |td.inputs|))
  {
    hide Hashable, HoldsBodies, IssuanceOf, NonceOf, SpendId, SpendAnchored, MuxId;
    M.SpendAt(env, td, tx.entries, i);
    var id := SpendId(env, td.inputs[i]);
    assert SpendOf(env, td, tx.entries[id], id, |td.inputs|);
    o := tx.entries[id].ordinal;
  }

  /** A spend whose links are in order is valid exactly when the control program succeeds. */
  lemma {:induction false} SpendValidIff(env: Env, tx: Tx, id: Hash, e: Entry, prevout: Entry)
    requires Graph(env, tx) && Reachable(tx, id) && tx.entries[id] == e && e.Spend? && e.extHash.None?
    requires e.spentOutputId.Some? && e.spentOutputId.value in tx.entries && tx.entries[e.spentOutputId.value] == prevout
    requires prevout.Output? && prevout.source.Some? && prevout.source.value.value.Some?
    requires e.witnessDestination.Some? && e.witnessDestination.value.value == prevout.source.value.value
    requires V.CheckDest(tx, id, 0, e.witnessDestination).Ok?
    ensures V.CheckValid(env, tx, id).Ok? <==> env.verify(tx, e, prevout.controlProgram, e.witnessArguments)
  {
    hide V.CheckDest, WellKeyed, Acyclic;
    assert V.CheckSpend(env, tx, e).Ok? <==> env.verify(tx, e, prevout.controlProgram, e.witnessArguments);
  }

  /** A source with all its parts passes exactly when its entry is valid and the link agrees. */
  lemma {:induction false} SrcIff(env: Env, tx: Tx, at: Hash, pos: nat, src: ValueSource)
    requires Graph(env, tx) && Reachable(tx, at) && forall r :: r in SourceRefs(Some(src)) ==> V.Follows(tx, at, r)
    requires src.ref.Some? && src.value.Some? && src.ref.value in tx.entries && Reachable(tx, src.ref.value)
    ensures V.CheckSrc(env, tx, at, pos, Some(src)).Ok? <==>
      V.CheckValid(env, tx, src.ref.value).Ok? && V.CheckSrcLink(tx, at, pos, src).Ok?
  {
    hide V.CheckValid, V.CheckSrcLink, WellKeyed, Acyclic;
  }

  lemma {:induction false} SpendVerdict(env: Env, td: TxData, tx: Tx, i: nat, id: Hash, o: nat)
    requires Hashable(env, td) && Mapped(env, td, tx) && Graph(env, tx) && IsSpend(env, td, i, id)
    requires Reachable(tx, id) && LastSpend(env, td, id, |td.inputs|) == Some(o)
    ensures V.CheckValid(env, tx, id).Ok? <==>
      env.verify(tx, tx.entries[id], Program(td.inputs[o].vmVersion, td.inputs[o].controlProgram), td.inputs[o].arguments)
  {
    hide Hashable, Mapped, Graph, SpendAnchored, MuxId, V.CheckDest, V.CheckValid, LastSpend, PrevoutId, Reachable, ToMux;
    var o' := SpendEntryAt(env, td, tx, i);
    var inp := td.inputs[o];
    Holds(env, td, tx);
    M.PrevoutAt(env, td, tx.entries, o);
    ToMuxAgrees(env, td, tx, o, id, inp.value);
    ToMuxParts(env, td, inp.value, o);
    SpendValidIff(env, tx, id, tx.entries[id], tx.entries[PrevoutId(env, inp)]);
  }

  lemma {:induction false} ToMuxParts(env: Env, td: TxData, value: AssetAmount, o: nat)
    ensures ToMux(env, td, value, o) == Some(ValueDestination(Some(MuxId(env, td)), Some(value), o))
  {
  }

  /** As a mux source, a spend passes exactly when it is valid and no later input has its identifier. */
  lemma {:induction false} SpendSource(env: Env, td: TxData, tx: Tx, i: nat, at: Hash, id: Hash, src: Option<ValueSource>)
    requires Hashable(env, td) && Mapped(env, td, tx) && Graph(env, tx) && IsSpend(env, td, i, id)
    requires at == MuxId(env, td) && src == MuxSource(env, td, td.inputs[i])
    requires Reachable(tx, at) && Reachable(tx, id) && forall r :: r in SourceRefs(src) ==> V.Follows(tx, at, r)
    ensures V.CheckSrc(env, tx, at, i, src).Ok? <==> InputAccepted(env, td, tx, i)
  {
    hide Hashable, Mapped, Graph, SpendAnchored, MuxId, V.CheckDest, V.CheckValid, LastSpend, PrevoutId, SpendId, Reachable, V.CheckSrc;
    var o := SpendEntryAt(env, td, tx, i);
    SpendVerdict(env, td, tx, i, id, o);
    SrcIff(env, tx, at, i, src.value);
  }

  // ---------------------------------------------------------------- issuances

  lemma {:induction false} IssuanceEntryAt(env: Env, td: TxData, tx: Tx, i: nat) returns (o: nat)
    requires Hashable(env, td) && Mapped(env, td, tx) && i < |td.inputs| && td.inputs[i].IssuanceInput?
    ensures
      && var id := IssuanceId(env, td, td.inputs[i]);
      && id in tx.entries && tx.entries[id].Issuance? && tx.entries[id].ordinal == o
      && LastIssuance(env, td, id, |td.inputs|) == Some(o) && IsIssuance(env, td, o, id)
      && tx.entries[id] == IssuanceWith(env, td, td.inputs[o], o, ToMux(env, td, IssuedValue(env, td.inputs[o]), o))
  {
    hide Hashable, HoldsBodies, SpendOf, NonceOf, IssuanceId, MuxId, AnchorId, IssuedValue, Definition;
    M.IssuanceAt(env, td, tx.entries, i);
    var id := IssuanceId(env, td, td.inputs[i]);
    assert IssuanceOf(env, td, tx.entries[id], id, |td.inputs|);
    o := tx.entries[id].ordinal;
  }

  lemma {:induction false} NonceEntryAt(env: Env, td: TxData, tx: Tx, i: nat) returns (u: nat)
    requires Hashable(env, td) && Mapped(env, td, tx) && i < |td.inputs| && td.inputs[i].IssuanceInput? && |td.inputs[i].nonce| > 0
    ensures
      && var id := NonceId(env, td, td.inputs[i]);
      && id in tx.entries && LastUser(env, td, id, |td.inputs|) == Some(u) && UsesNonce(env, td, u, id)
      && tx.entries[id] == NonceWith(env, td, td.inputs[u], Some(IssuanceId(env, td, td.inputs[u])))
  {
    hide Hashable, HoldsBodies, SpendOf, IssuanceOf, NonceId, IssuanceId, NonceProgram;
    M.NonceAt(env, td, tx.entries, i);
    var id := NonceId(env, td, td.inputs[i]);
    assert NonceOf(env, td, tx.entries[id], id, |td.inputs|);
    u := LastUser(env, td, id, |td.inputs|).value;
  }

  /** A nonce is valid exactly when its program succeeds and its time range is good. */
  lemma {:induction false} NonceValidIff(env: Env, tx: Tx, id: Hash, e: Entry, tr: Entry)
    requires Graph(env, tx) && Reachable(tx, id) && tx.entries[id] == e && e.Nonce? && e.extHash.None?
    requires e.timeRangeId in tx.entries && tx.entries[e.timeRangeId] == tr && tr.TimeRange? && tr.extHash.None?
    requires tx.entries[tx.id].minTimeMs == tr.minTimeMs && tx.entries[tx.id].maxTimeMs == tr.maxTimeMs
    ensures V.CheckValid(env, tx, id).Ok? <==>
      env.verify(tx, e, e.program, e.witnessArguments) && tr.minTimeMs != 0 && tr.maxTimeMs != 0
  {
    assert e.timeRangeId in Refs(e);
    Reaches(tx, id, e.timeRangeId);
    assert V.CheckValid(env, tx, e.timeRangeId).Ok?;
  }

  /** An issuance whose links are in order is valid exactly when it is on this blockchain, runs, and its anchor is valid and marked. */
  lemma {:induction false} IssuanceValidIff(env: Env, tx: Tx, id: Hash, e: Entry)
    requires Graph(env, tx) && Reachable(tx, id) && tx.entries[id] == e && e.Issuance? && e.extHash.None?
    requires env.assetIdOf(e.witnessAssetDefinition) == e.value.assetId
    requires V.CheckDest(tx, id, 0, e.witnessDestination).Ok?
    requires e.anchorId in tx.entries ==> Reachable(tx, e.anchorId)
    ensures V.CheckValid(env, tx, id).Ok? <==>
      && e.witnessAssetDefinition.initialBlockId == env.blockchainId
      && e.anchorId in tx.entries
      && env.verify(tx, e, e.witnessAssetDefinition.issuanceProgram, e.witnessArguments)
      && V.AnchoredId(tx.entries[e.anchorId]) == V.Found(Some(id))
      && V.CheckValid(env, tx, e.anchorId).Ok?
  {
    hide V.CheckDest, WellKeyed;
    assert V.CheckIssuance(env, tx, id, e).Ok? <==>
      && e.witnessAssetDefinition.initialBlockId == env.blockchainId
      && e.anchorId in tx.entries
      && env.verify(tx, e, e.witnessAssetDefinition.issuanceProgram, e.witnessArguments)
      && V.AnchoredId(tx.entries[e.anchorId]) == V.Found(Some(id));
  }

  /** The anchor of an issuance with a nonce. */
  lemma {:induction false} NonceAnchor(env: Env, td: TxData, tx: Tx, i: nat, id: Hash, anchor: Hash)
    requires Hashable(env, td) && Mapped(env, td, tx) && Graph(env, tx) && IsIssuance(env, td, i, id) && |td.inputs[i].nonce| > 0
    requires anchor == NonceId(env, td, td.inputs[i]) && Reachable(tx, anchor)
    requires LastIssuance(env, td, id, |td.inputs|) == Some(i)
    ensures anchor in tx.entries
    ensures V.AnchoredId(tx.entries[anchor]) == V.Found(Some(id)) && V.CheckValid(env, tx, anchor).Ok? <==>
      AnchorAccepted(env, td, tx, i)
  {
    hide Hashable, Graph, Reachable, V.CheckValid, NonceProgram, Mapped, NonceId, IssuanceId, LastUser, LastIssuance;
    var u := NonceEntryAt(env, td, tx, i);
    var e := tx.entries[anchor];
    Holds(env, td, tx);
    M.NonceAt(env, td, tx.entries, i);
    G.HeaderAt(env, td, tx);
    NonceValidIff(env, tx, anchor, e, tx.entries[e.timeRangeId]);
    NonceProgramOf(env, td, u);
    LastUserIs(env, td, i, u, id, anchor);
  }

  /** The last user of the nonce is the issuance in question exactly when it has its identifier. */
  lemma {:induction false} LastUserIs(env: Env, td: TxData, i: nat, u: nat, id: Hash, anchor: Hash)
    requires IsIssuance(env, td, i, id) && UsesNonce(env, td, i, anchor) && UsesNonce(env, td, u, anchor)
    requires LastUser(env, td, anchor, |td.inputs|) == Some(u) && LastIssuance(env, td, id, |td.inputs|) == Some(i)
    ensures i <= u && (IssuanceId(env, td, td.inputs[u]) == id <==> u == i)
  {
    hide NonceId, IssuanceId, LastUser, LastIssuance;
    assert i < u ==> !IsIssuance(env, td, u, id);
  }

  lemma {:induction false} NonceProgramOf(env: Env, td: TxData, u: nat)
    requires u < |td.inputs| && td.inputs[u].IssuanceInput?
    ensures NonceWith(env, td, td.inputs[u], Some(IssuanceId(env, td, td.inputs[u]))).program == Program(1, NonceProgram(env, td.inputs[u]))
  {
    hide NonceProgram, IssuanceId;
  }

  /** The anchor of an issuance without one: the first spend, if the map kept it and marked it for this issuance. */
  lemma {:induction false} PlainAnchor(env: Env, td: TxData, tx: Tx, i: nat, id: Hash, anchor: Hash, f: nat)
    requires Hashable(env, td) && Mapped(env, td, tx) && Graph(env, tx) && IsIssuance(env, td, i, id) && |td.inputs[i].nonce| == 0
    requires FirstSpend(td) == Some(f) && anchor == SpendId(env, td.inputs[f]) && Reachable(tx, anchor)
    requires LastIssuance(env, td, id, |td.inputs|) == Some(i)
    ensures anchor in tx.entries
    ensures V.AnchoredId(tx.entries[anchor]) == V.Found(Some(id)) && V.CheckValid(env, tx, anchor).Ok? <==>
      AnchorAccepted(env, td, tx, i) && InputAccepted(env, td, tx, f)
  {
    hide Hashable, Graph, Reachable, V.CheckValid, NonceProgram, Mapped, MuxId, PrevoutId;
    var o := SpendEntryAt(env, td, tx, f);
    SpendVerdict(env, td, tx, f, anchor, o);
    hide SpendId, IssuanceId, LastSpend, LastIssuance, LastPlain;
    assert UsesSpend(td, i);
    var p := LastPlain(td, |td.inputs|).value;
    assert i <= p;
    assert i < p ==> !IsIssuance(env, td, p, id);
  }

  /** As a mux source, an issuance passes exactly when it is valid, anchored, and no later input has its identifier. */
  lemma {:induction false} IssuanceSource(env: Env, td: TxData, tx: Tx, i: nat, at: Hash, id: Hash, src: Option<ValueSource>)
    requires Hashable(env, td) && Mapped(env, td, tx) && Graph(env, tx) && IsIssuance(env, td, i, id)
    requires at == MuxId(env, td) && src == MuxSource(env, td, td.inputs[i])
    requires Reachable(tx, at) && Reachable(tx, id) && forall r :: r in SourceRefs(src) ==> V.Follows(tx, at, r)
    ensures V.CheckSrc(env, tx, at, i, src).Ok? ==> InputAccepted(env, td, tx, i)
    ensures InputsAccepted(env, td, tx) ==> V.CheckSrc(env, tx, at, i, src).Ok?
  {
    hide Hashable, Mapped, Graph, MuxId, V.CheckDest, V.CheckValid, IssuanceId, Reachable, V.CheckSrc, AnchorId, IssuedValue, Definition, AnchorAccepted;
    var o := IssuanceEntryAt(env, td, tx, i);
    SrcIff(env, tx, at, i, src.value);
    LinkIff(env, td, tx, i, at, id, src.value, o);
    if o == i {
      IssuanceVerdict(env, td, tx, i, id);
    } else {
      assert !InputAccepted(env, td, tx, i);
    }
  }

  lemma {:induction false} LinkIff(env: Env, td: TxData, tx: Tx, i: nat, at: Hash, id: Hash, src: ValueSource, o: nat)
    requires id in tx.entries && o < |td.inputs| && td.inputs[o].IssuanceInput? && i < |td.inputs| && td.inputs[i].IssuanceInput?
    requires tx.entries[id] == IssuanceWith(env, td, td.inputs[o], o, ToMux(env, td, IssuedValue(env, td.inputs[o]), o))
    requires at == MuxId(env, td) && src == ValueSource(Some(id), Some(IssuedValue(env, td.inputs[i])), 0)
    ensures V.CheckSrcLink(tx, at, i, src).Ok? <==> o == i
  {
    hide MuxId, AnchorId, IssuedValue, Definition;
  }

  /** The local checks of an issuance that is the last with its identifier, its anchor left open. */
  lemma {:induction false} IssuanceLocal(env: Env, td: TxData, tx: Tx, i: nat, id: Hash)
    requires Hashable(env, td) && Mapped(env, td, tx) && Graph(env, tx) && IsIssuance(env, td, i, id)
    requires Reachable(tx, id) && LastIssuance(env, td, id, |td.inputs|) == Some(i)
    ensures tx.entries[id].Issuance? && tx.entries[id].anchorId == AnchorId(env, td, td.inputs[i])
    ensures AnchorId(env, td, td.inputs[i]) in tx.entries ==> Reachable(tx, AnchorId(env, td, td.inputs[i]))
    ensures V.CheckValid(env, tx, id).Ok? <==>
      && var inp, anchor := td.inputs[i], AnchorId(env, td, td.inputs[i]);
      && inp.initialBlock == env.blockchainId && anchor in tx.entries
      && env.verify(tx, tx.entries[id], Program(inp.vmVersion, inp.issuanceProgram), inp.arguments)
      && V.AnchoredId(tx.entries[anchor]) == V.Found(Some(id)) && V.CheckValid(env, tx, anchor).Ok?
  {
    hide Hashable, Mapped, Graph, MuxId, V.CheckDest, V.CheckValid, IssuanceId, Reachable, IssuedValue, ToMux, AnchorId;
    var o := IssuanceEntryAt(env, td, tx, i);
    ToMuxAgrees(env, td, tx, i, id, IssuedValue(env, td.inputs[i]));
    AnchorReached(env, td, tx, id);
    AssetOfDefinition(env, td.inputs[i]);
    IssuanceValidIff(env, tx, id, tx.entries[id]);
  }

  lemma {:induction false} IssuanceVerdict(env: Env, td: TxData, tx: Tx, i: nat, id: Hash)
    requires Hashable(env, td) && Mapped(env, td, tx) && Graph(env, tx) && IsIssuance(env, td, i, id)
    requires Reachable(tx, id) && LastIssuance(env, td, id, |td.inputs|) == Some(i)
    ensures V.CheckValid(env, tx, id).Ok? ==> InputAccepted(env, td, tx, i)
    ensures InputsAccepted(env, td, tx) ==> V.CheckValid(env, tx, id).Ok?
  {
    IssuanceLocal(env, td, tx, i, id);
    Holds(env, td, tx);
    M.AnchorKind(env, td, tx.entries, i);
    var inp := td.inputs[i];
    var anchor := AnchorId(env, td, inp);
    if |inp.nonce| > 0 {
      NonceAnchor(env, td, tx, i, id, anchor);
    } else if FirstSpend(td).Some? {
      PlainAnchor(env, td, tx, i, id, anchor, FirstSpend(td).value);
      assert InputsAccepted(env, td, tx) ==> InputAccepted(env, td, tx, FirstSpend(td).value);
    } else {
      NoAnchor(env, td, tx, i);
    }
    hide Hashable, Mapped, Graph, V.CheckValid, IssuanceId, Reachable, AnchorAccepted, NonceId, SpendId, IssuedValue, AnchorId, FirstSpend, HoldsBodies, LastIssuance, LastSpend;
    assert InputsAccepted(env, td, tx) ==> InputAccepted(env, td, tx, i);
  }

  lemma {:induction false} AnchorReached(env: Env, td: TxData, tx: Tx, id: Hash)
    requires Graph(env, tx) && Reachable(tx, id) && tx.entries[id].Issuance?
    ensures tx.entries[id].anchorId in tx.entries ==> Reachable(tx, tx.entries[id].anchorId)
  {
    assert tx.entries[id].anchorId in Refs(tx.entries[id]);
    if tx.entries[id].anchorId in tx.entries { Reaches(tx, id, tx.entries[id].anchorId); }
  }

  lemma {:induction false} AssetOfDefinition(env: Env, inp: TxInput)
    requires inp.IssuanceInput?
    ensures env.assetIdOf(Definition(env, inp)) == IssuedValue(env, inp).assetId
  {
  }

  lemma {:induction false} NoAnchor(env: Env, td: TxData, tx: Tx, i: nat)
    requires i < |td.inputs| && td.inputs[i].IssuanceInput? && |td.inputs[i].nonce| == 0 && FirstSpend(td).None?
    ensures !AnchorAccepted(env, td, tx, i)
  {
  }

  // ---------------------------------------------------------------- mux

  lemma {:induction false} AllSources(env: Env, tx: Tx, at: Hash, sources: seq<Option<ValueSource>>)
    requires Graph(env, tx) && Reachable(tx, at)
    requires forall s, r :: s in sources && r in SourceRefs(s) ==> V.Follows(tx, at, r)
    ensures V.CheckSources(env, tx, at, sources).Ok? <==>
      forall i :: 0 <= i < |sources| ==> V.CheckSrc(env, tx, at, i, sources[i]).Ok?
    decreases |sources|
  {
    hide V.CheckSrc, V.Follows, WellKeyed, Acyclic;
    if sources != [] {
      var shorter := sources[..|sources| - 1];
      AllSources(env, tx, at, shorter);
      if V.CheckSources(env, tx, at, sources).Ok? {
        forall i | 0 <= i < |sources|
          ensures V.CheckSrc(env, tx, at, i, sources[i]).Ok?
        {
          assert i < |shorter| ==> shorter[i] == sources[i];
        }
      }
      if forall i :: 0 <= i < |sources| ==> V.CheckSrc(env, tx, at, i, sources[i]).Ok? {
        forall i | 0 <= i < |shorter|
          ensures V.CheckSrc(env, tx, at, i, shorter[i]).Ok?
        {
          assert shorter[i] == sources[i];
        }
      }
    }
  }

  lemma {:induction false} SourceOf(env: Env, td: TxData, tx: Tx, i: nat, at: Hash, src: Option<ValueSource>)
    requires Hashable(env, td) && Mapped(env, td, tx) && Graph(env, tx) && i < |td.inputs|
    requires at == MuxId(env, td) && src == MuxSource(env, td, td.inputs[i])
    requires Reachable(tx, at) && forall r :: r in SourceRefs(src) ==> V.Follows(tx, at, r)
    ensures V.CheckSrc(env, tx, at, i, src).Ok? ==> InputAccepted(env, td, tx, i)
    ensures InputsAccepted(env, td, tx) ==> V.CheckSrc(env, tx, at, i, src).Ok?
  {
    hide Hashable, Mapped, Graph, MuxId, Reachable, MuxSource, SpendId, IssuanceId, InputAccepted, V.CheckSrc, V.Follows, HoldsBodies, AnchorId, PrevoutId;
    var inp := td.inputs[i];
    Holds(env, td, tx);
    SourceParts(env, td, tx, i);
    assert InputsAccepted(env, td, tx) ==> InputAccepted(env, td, tx, i);
    if inp.SpendInput? {
      var id := SpendId(env, inp);
      M.SpendAt(env, td, tx.entries, i);
      FollowReached(env, tx, at, id, src);
      SpendSource(env, td, tx, i, at, id, src);
    } else if inp.IssuanceInput? {
      var id := IssuanceId(env, td, inp);
      M.IssuanceAt(env, td, tx.entries, i);
      FollowReached(env, tx, at, id, src);
      IssuanceSource(env, td, tx, i, at, id, src);
    } else {
      NoSource(env, tx, at, i);
    }
  }

  lemma {:induction false} NoSource(env: Env, tx: Tx, at: Hash, i: nat)
    requires Graph(env, tx) && Reachable(tx, at)
    ensures V.CheckSrc(env, tx, at, i, None).Err?
  {
  }

  lemma {:induction false} SourceParts(env: Env, td: TxData, tx: Tx, i: nat)
    requires i < |td.inputs|
    ensures td.inputs[i].SpendInput? ==> SourceRefs(MuxSource(env, td, td.inputs[i])) == {SpendId(env, td.inputs[i])}
    ensures td.inputs[i].IssuanceInput? ==> SourceRefs(MuxSource(env, td, td.inputs[i])) == {IssuanceId(env, td, td.inputs[i])}
    ensures td.inputs[i].UnknownInput? ==> MuxSource(env, td, td.inputs[i]).None? && !InputAccepted(env, td, tx, i)
  {
    hide SpendId, IssuanceId;
  }

  lemma {:induction false} FollowReached(env: Env, tx: Tx, at: Hash, id: Hash, src: Option<ValueSource>)
    requires Graph(env, tx) && Reachable(tx, at) && forall r :: r in SourceRefs(src) ==> V.Follows(tx, at, r)
    requires id in SourceRefs(src) && id in tx.entries
    ensures Reachable(tx, id)
  {
    assert V.Follows(tx, at, id);
  }

  lemma {:induction false} MuxFollows(env: Env, td: TxData, tx: Tx, at: Hash)
    requires Mapped(env, td, tx) && Graph(env, tx) && at == MuxId(env, td) && Reachable(tx, at)
    ensures forall s, r :: s in MuxSources(env, td) && r in SourceRefs(s) ==> V.Follows(tx, at, r)
  {
    hide MuxSources, Mapped, WellKeyed;
    G.MuxAt(env, td, tx);
    var sources := MuxSources(env, td);
    forall s, r | s in sources && r in SourceRefs(s)
      ensures V.Follows(tx, at, r)
    {
      var i :| 0 <= i < |sources| && sources[i] == s;
      assert r in Refs(tx.entries[at]);
      if r in tx.entries { Reaches(tx, at, r); }
    }
  }

  lemma {:induction false} SourcesVerdict(env: Env, td: TxData, tx: Tx, at: Hash, sources: seq<Option<ValueSource>>)
    requires Hashable(env, td) && Mapped(env, td, tx) && Graph(env, tx) && at == MuxId(env, td) && Reachable(tx, at)
    requires sources == MuxSources(env, td)
    requires forall s, r :: s in sources && r in SourceRefs(s) ==> V.Follows(tx, at, r)
    ensures V.CheckSources(env, tx, at, sources).Ok? <==> InputsAccepted(env, td, tx)
    ensures InputsAccepted(env, td, tx) ==> AllKnown(td)
  {
    hide Hashable, Mapped, Graph, MuxId, Reachable, V.CheckSrc, MuxSource, InputAccepted, V.Follows;
    AllSources(env, tx, at, sources);
    forall i | 0 <= i < |td.inputs|
      ensures V.CheckSrc(env, tx, at, i, sources[i]).Ok? ==> InputAccepted(env, td, tx, i)
      ensures InputsAccepted(env, td, tx) ==> V.CheckSrc(env, tx, at, i, sources[i]).Ok?
      ensures InputAccepted(env, td, tx, i) ==> !td.inputs[i].UnknownInput?
    {
      assert sources[i] == MuxSource(env, td, td.inputs[i]);
      SourceOf(env, td, tx, i, at, sources[i]);
      AcceptedKnown(env, td, tx, i);
    }
  }

  lemma {:induction false} AcceptedKnown(env: Env, td: TxData, tx: Tx, i: nat)
    requires i < |td.inputs|
    ensures InputAccepted(env, td, tx, i) ==> !td.inputs[i].UnknownInput?
  {
  }

  lemma {:induction false} ValuesOf(env: Env, td: TxData)
    requires AllKnown(td)
    ensures forall i :: 0 <= i < |td.inputs| ==> V.HasValue(MuxSources(env, td)[i])
    ensures forall j :: 0 <= j < |td.outputs| ==> V.HasDestValue(Destinations(env, td)[j])
    ensures V.SourceValues(MuxSources(env, td)) == InputValues(env, td)
    ensures V.DestValues(Destinations(env, td)) == OutputValues(td)
  {
    hide SpendId, IssuanceId, ResultId, IssuedValue;
  }

  /** A mux with these sources and destinations, when its destinations are in order. */
  lemma {:induction false} MuxValidIff(env: Env, tx: Tx, at: Hash, e: Entry)
    requires Graph(env, tx) && Reachable(tx, at) && tx.entries[at] == e && e.Mux? && e.extHash.None?
    requires forall s, r :: s in e.sources && r in SourceRefs(s) ==> V.Follows(tx, at, r)
    requires V.CheckDests(tx, at, e.witnessDestinations).Ok?
    requires forall j :: 0 <= j < |e.witnessDestinations| ==> V.HasDestValue(e.witnessDestinations[j])
    requires V.CheckSources(env, tx, at, e.sources).Ok? ==> forall i :: 0 <= i < |e.sources| ==> V.HasValue(e.sources[i])
    ensures V.CheckValid(env, tx, at).Ok? <==>
      && env.verify(tx, e, e.program, e.witnessArguments) && V.CheckSources(env, tx, at, e.sources).Ok?
      && V.CheckParity(V.SourceValues(e.sources), V.DestValues(e.witnessDestinations)).Ok?
  {
    hide V.CheckSources, V.CheckDests, V.CheckParity, V.Follows, WellKeyed, Acyclic, V.SourceValues, V.DestValues;
  }

  lemma {:induction false} MuxVerdict(env: Env, td: TxData, tx: Tx, at: Hash)
    requires Hashable(env, td) && Mapped(env, td, tx) && Graph(env, tx) && at == MuxId(env, td) && Reachable(tx, at)
    ensures V.CheckValid(env, tx, at).Ok? <==> MuxAccepted(env, td, tx)
  {
    hide Hashable, Mapped, Graph, MuxId, Reachable, MuxSources, Destinations, V.CheckSources, V.CheckDests, V.CheckParity, V.CheckValid, InputsAccepted, V.Follows;
    G.MuxAt(env, td, tx);
    var sources, dests := MuxSources(env, td), Destinations(env, td);
    MuxFollows(env, td, tx, at);
    SourcesVerdict(env, td, tx, at, sources);
    DestsAgreeAll(env, td, tx);
    if AllKnown(td) {
      ValuesOf(env, td);
      SourceCount(env, td);
      MuxValidIff(env, tx, at, tx.entries[at]);
    } else {
      UnknownRejected(env, td, tx, at);
    }
  }

  lemma {:induction false} SourceCount(env: Env, td: TxData)
    ensures |MuxSources(env, td)| == |td.inputs| && |Destinations(env, td)| == |td.outputs|
  {
  }

  lemma {:induction false} DestsAgreeAll(env: Env, td: TxData, tx: Tx)
    requires Mapped(env, td, tx)
    ensures V.CheckDests(tx, MuxId(env, td), Destinations(env, td)).Ok?
  {
    hide Mapped, MuxId, V.CheckDests;
    DestsAgree(env, td, tx, |td.outputs|);
    assert Destinations(env, td)[..|td.outputs|] == Destinations(env, td);
  }

  /** A transaction with an input of unknown type is rejected at that source. */
  lemma {:induction false} UnknownRejected(env: Env, td: TxData, tx: Tx, at: Hash)
    requires Hashable(env, td) && Mapped(env, td, tx) && Graph(env, tx) && at == MuxId(env, td) && Reachable(tx, at) && !AllKnown(td)
    ensures V.CheckValid(env, tx, at).Err?
  {
    hide Hashable, Mapped, MuxId, MuxSources, Destinations, V.CheckSources, V.CheckDests, V.CheckParity, InputsAccepted, V.Follows;
    G.MuxAt(env, td, tx);
    MuxFollows(env, td, tx, at);
    SourcesVerdict(env, td, tx, at, MuxSources(env, td));
  }

  // ---------------------------------------------------------------- results and header

  lemma {:induction false} ResultVerdict(env: Env, td: TxData, tx: Tx, j: nat, id: Hash)
    requires Hashable(env, td) && Mapped(env, td, tx) && Graph(env, tx) && j < |td.outputs|
    requires id == ResultId(env, td, j) && Reachable(tx, id)
    ensures Reachable(tx, MuxId(env, td))
    ensures V.CheckValid(env, tx, id).Ok? <==> V.CheckValid(env, tx, MuxId(env, td)).Ok?
  {
    hide Hashable, Mapped, MuxId, ResultId, MuxSources, Destinations, Graph, Reachable, V.CheckSrc, V.CheckValid, ResultEntry, Refs;
    G.ResultAt(env, td, tx, j);
    G.MuxAt(env, td, tx);
    var at := MuxId(env, td);
    var src := ValueSource(Some(at), Some(td.outputs[j].value), j);
    ResultParts(env, td, j);
    ResultValidIff(env, tx, id, at, tx.entries[id], src);
    SrcIff(env, tx, id, 0, src);
    LinkOfResult(env, td, tx, j, at, id, src);
  }

  /** An output or retirement is valid exactly when its source passes. */
  lemma {:induction false} ResultValidIff(env: Env, tx: Tx, id: Hash, at: Hash, e: Entry, src: ValueSource)
    requires Graph(env, tx) && Reachable(tx, id) && tx.entries[id] == e && at in tx.entries && src.ref == Some(at)
    requires (e.Output? && e.source == Some(src) && e.extHash.None?) || (e.Retirement? && e.source == Some(src) && e.extHash.None?)
    ensures Reachable(tx, at) && forall r :: r in SourceRefs(Some(src)) ==> V.Follows(tx, id, r)
    ensures V.CheckValid(env, tx, id).Ok? <==> V.CheckSrc(env, tx, id, 0, Some(src)).Ok?
  {
    hide V.CheckSrc, WellKeyed;
    assert at in Refs(e);
    Reaches(tx, id, at);
    SrcOfResult(tx, id, at, src);
  }

  lemma {:induction false} ResultParts(env: Env, td: TxData, j: nat)
    requires j < |td.outputs|
    ensures
      var e := ResultEntry(env, td, j);
      var src := Some(ValueSource(Some(MuxId(env, td)), Some(td.outputs[j].value), j));
      (e.Output? && e.source == src && e.extHash.None?) || (e.Retirement? && e.source == src && e.extHash.None?)
  {
  }

  lemma {:induction false} SrcOfResult(tx: Tx, id: Hash, at: Hash, src: ValueSource)
    requires Acyclic(tx) && Reachable(tx, id) && at in Refs(tx.entries[id]) && at in tx.entries && src.ref == Some(at)
    ensures forall r :: r in SourceRefs(Some(src)) ==> V.Follows(tx, id, r)
  {
    hide Refs;
  }

  lemma {:induction false} LinkOfResult(env: Env, td: TxData, tx: Tx, j: nat, at: Hash, id: Hash, src: ValueSource)
    requires Mapped(env, td, tx) && j < |td.outputs| && at == MuxId(env, td) && id == ResultId(env, td, j)
    requires src == ValueSource(Some(at), Some(td.outputs[j].value), j)
    ensures at in tx.entries && V.CheckSrcLink(tx, id, 0, src).Ok?
  {
    hide Mapped, MuxId, ResultId, MuxSources;
    G.MuxAt(env, td, tx);
  }

  lemma {:induction false} ResultsVerdict(env: Env, td: TxData, tx: Tx, n: nat)
    requires Hashable(env, td) && Mapped(env, td, tx) && Graph(env, tx) && n <= |td.outputs| && Reachable(tx, tx.id)
    requires forall r :: r in ResultIds(env, td) ==> V.Follows(tx, tx.id, r)
    ensures n > 0 ==> Reachable(tx, MuxId(env, td))
    ensures V.CheckResults(env, tx, tx.id, ResultIds(env, td)[..n]).Ok? <==>
      (n > 0 ==> V.CheckValid(env, tx, MuxId(env, td)).Ok?)
  {
    hide Hashable, Mapped, MuxId, ResultId, WellKeyed, V.CheckValid, V.Follows;
    if n > 0 {
      var results := ResultIds(env, td);
      ResultsVerdict(env, td, tx, n - 1);
      assert results[..n][..n - 1] == results[..n - 1];
      var r := results[n - 1];
      assert r in results && V.Follows(tx, tx.id, r);
      G.ResultAt(env, td, tx, n - 1);
      FollowsReached(tx, tx.id, r);
      ResultVerdict(env, td, tx, n - 1, r);
    }
  }

  lemma {:induction false} FollowsReached(tx: Tx, id: Hash, r: Hash)
    requires Acyclic(tx) && Reachable(tx, id) && V.Follows(tx, id, r) && r in tx.entries
    ensures Reachable(tx, r)
  {
  }

  /** ValidateTx accepts a mapped transaction exactly when the condition on the legacy transaction holds. */
  lemma {:induction false} ValidateExact(env: Env, td: TxData, tx: Tx)
    requires Hashable(env, td) && Mapped(env, td, tx)
    ensures Graph(env, tx)
    ensures V.ValidateTx(env, tx).Ok? <==> Accepted(env, td, tx)
  {
    hide Hashable, Mapped, MuxId, ResultIds, Graph, Reachable, V.CheckResults, MuxAccepted, V.CheckValid, V.Follows, V.ValidateTx;
    G.MappedIsGraph(env, td, tx);
    G.HeaderAt(env, td, tx);
    HeaderFollows(env, td, tx);
    ResultsVerdict(env, td, tx, |td.outputs|);
    ResultCount(env, td);
    if td.outputs != [] {
      MuxVerdict(env, td, tx, MuxId(env, td));
    }
    HeaderValidIff(env, tx, tx.entries[tx.id]);
  }

  lemma {:induction false} ResultCount(env: Env, td: TxData)
    ensures |ResultIds(env, td)| == |td.outputs| && ResultIds(env, td)[..|td.outputs|] == ResultIds(env, td)
  {
  }

  lemma {:induction false} HeaderFollows(env: Env, td: TxData, tx: Tx)
    requires Graph(env, tx) && tx.entries[tx.id] == HeaderEntry(env, td)
    ensures Reachable(tx, tx.id) && forall r :: r in ResultIds(env, td) ==> V.Follows(tx, tx.id, r)
  {
    hide ResultIds;
    forall r | r in ResultIds(env, td)
      ensures V.Follows(tx, tx.id, r)
    {
      assert r in Refs(tx.entries[tx.id]);
    }
  }

  lemma {:induction false} HeaderValidIff(env: Env, tx: Tx, e: Entry)
    requires Graph(env, tx) && Reachable(tx, tx.id) && tx.entries[tx.id] == e && e.TxHeader? && e.extHash.None?
    requires forall r :: r in e.resultIds ==> V.Follows(tx, tx.id, r)
    ensures V.ValidateTx(env, tx).Ok? <==>
      && (e.maxTimeMs > 0 ==> e.minTimeMs <= e.maxTimeMs)
      && V.CheckResults(env, tx, tx.id, e.resultIds).Ok?
      && (e.version == 1 ==> e.resultIds != [])
  {
    hide V.CheckResults, V.Follows;
  }
}
