/**
  What the identifier of a mapped transaction commits to, in the terms of the legacy transaction: everything but the
  arguments of its inputs, the programs of its retirements and, where it has no outputs, its inputs.
 */
module TxIds {
  import opened Basics
  import opened Entries
  import opened LegacyTx
  import opened VmTypes
  import opened Opcodes
  import TM = TxMapper
  import G = MappedValid

  // ---------------------------------------------------------------- agreement

  /** The two inputs claim the same of the output that they spend. */
  predicate SamePrevout(a: TxInput, b: TxInput)
    requires a.SpendInput? && b.SpendInput?
  {
    && a.sourceId == b.sourceId && a.sourcePosition == b.sourcePosition && a.value == b.value
    && a.vmVersion == b.vmVersion && a.controlProgram == b.controlProgram && a.refDataHash == b.refDataHash
  }

  predicate SameInput(env: Env, a: TxInput, b: TxInput)
  {
    match a
    case SpendInput(_, _, _, _, _, _, _, _) =>
      b.SpendInput? && SamePrevout(a, b) && env.hashData(a.referenceData) == env.hashData(b.referenceData)
    case IssuanceInput(_, _, _, _, _, _, _, _) =>
      && b.IssuanceInput? && a.amount == b.amount && a.nonce == b.nonce
      && env.assetIdOf(Definition(env, a)) == env.assetIdOf(Definition(env, b))
      && env.hashData(a.referenceData) == env.hashData(b.referenceData)
    case UnknownInput => b.UnknownInput?
  }

  predicate SameInputs(env: Env, td: TxData, td': TxData)
  {
    |td.inputs| == |td'.inputs| && forall i :: 0 <= i < |td.inputs| ==> SameInput(env, td.inputs[i], td'.inputs[i])
  }

  /** The two outputs agree, up to what makes a retirement one. */
  predicate SameResult(env: Env, a: TxOutput, b: TxOutput)
  {
    && a.value == b.value && env.hashData(a.referenceData) == env.hashData(b.referenceData)
    && IsUnspendable(a.controlProgram) == IsUnspendable(b.controlProgram)
    && (!IsUnspendable(a.controlProgram) ==> a.vmVersion == b.vmVersion && a.controlProgram == b.controlProgram)
  }

  predicate SameTerms(env: Env, td: TxData, td': TxData)
  {
    && td.version == td'.version && td.minTime == td'.minTime && td.maxTime == td'.maxTime
    && env.hashData(td.referenceData) == env.hashData(td'.referenceData)
  }

  predicate SameTx(env: Env, td: TxData, td': TxData)
  {
    && SameTerms(env, td, td')
    && |td.outputs| == |td'.outputs|
    && (forall j :: 0 <= j < |td.outputs| ==> SameResult(env, td.outputs[j], td'.outputs[j]))
    && (td.outputs != [] ==> SameInputs(env, td, td'))
  }

  /** The hash function does not collide on the entries of the two transactions together. */
  ghost predicate Together(env: Env, td: TxData, td': TxData)
  {
    && Hashable(env, td) && Hashable(env, td')
    && CollisionFree(env, Bodies(env, td) + Bodies(env, td'))
  }

  lemma {:induction false} SameHashSameBody(env: Env, td: TxData, td': TxData, b: Entry, b': Entry)
    requires Together(env, td, td') && b in Bodies(env, td) && b' in Bodies(env, td') && env.hashOf(b) == env.hashOf(b')
    ensures b == b'
  {
    hide Bodies, Hashable;
  }

  // ---------------------------------------------------------------- inputs

  lemma {:induction false} PushInjective(a: bytes, b: bytes, rest: bytes)
    requires PushdataBytes(a) + rest == PushdataBytes(b) + rest
    ensures a == b
  {
    hide LittleEndian;
    var x, y := PushdataBytes(a), PushdataBytes(b);
    assert |x + rest| == |y + rest|;
    assert x == (x + rest)[..|x|] && y == (y + rest)[..|y|];
    assert x[|x| - |a|..] == a && y[|y| - |b|..] == b;
    assert x[0] == y[0];
  }

  lemma {:induction false} NoncesAgree(env: Env, td: TxData, i: nat, td': TxData, i': nat)
    requires Together(env, td, td') && i < |td.inputs| && td.inputs[i].IssuanceInput? && |td.inputs[i].nonce| > 0
    requires i' < |td'.inputs| && td'.inputs[i'].IssuanceInput? && |td'.inputs[i'].nonce| > 0
    requires IssuedValue(env, td.inputs[i]).assetId == IssuedValue(env, td'.inputs[i']).assetId
    requires NonceId(env, td, td.inputs[i]) == NonceId(env, td', td'.inputs[i'])
    ensures td.inputs[i].nonce == td'.inputs[i'].nonce
  {
    hide Together, Bodies, PushdataBytes, IssuedValue;
    TM.IssuanceFacts(env, td, i);
    TM.IssuanceFacts(env, td', i');
    var a, b := td.inputs[i], td'.inputs[i'];
    SameHashSameBody(env, td, td', Body(NonceEntry(env, td, a)), Body(NonceEntry(env, td', b)));
    var rest := [OP_DROP] + [OP_ASSET] + PushdataBytes(IssuedValue(env, a).assetId) + [OP_EQUAL];
    assert NonceProgram(env, a) == PushdataBytes(a.nonce) + rest;
    assert NonceProgram(env, b) == PushdataBytes(b.nonce) + rest;
    PushInjective(a.nonce, b.nonce, rest);
  }

  /** Where an anchor is found says whether the issuance has a nonce. */
  lemma {:induction false} AnchorsAgree(env: Env, td: TxData, i: nat, td': TxData, i': nat)
    requires Together(env, td, td') && i < |td.inputs| && td.inputs[i].IssuanceInput?
    requires i' < |td'.inputs| && td'.inputs[i'].IssuanceInput?
    requires IssuedValue(env, td.inputs[i]).assetId == IssuedValue(env, td'.inputs[i']).assetId
    requires AnchorId(env, td, td.inputs[i]) == AnchorId(env, td', td'.inputs[i'])
    ensures td.inputs[i].nonce == td'.inputs[i'].nonce
  {
    hide Together, Bodies, NonceId, IssuedValue;
    if |td.inputs[i].nonce| > 0 && |td'.inputs[i'].nonce| > 0 {
      NoncesAgree(env, td, i, td', i');
    } else if |td.inputs[i].nonce| > 0 {
      NonceIsNoSpend(env, td, i, td', i');
    } else if |td'.inputs[i'].nonce| > 0 {
      TogetherSwaps(env, td, td');
      NonceIsNoSpend(env, td', i', td, i);
    }
  }

  lemma {:induction false} TogetherSwaps(env: Env, td: TxData, td': TxData)
    requires Together(env, td, td')
    ensures Together(env, td', td)
  {
    hide Bodies;
    assert Bodies(env, td') + Bodies(env, td) == Bodies(env, td) + Bodies(env, td');
  }

  lemma {:induction false} NonceIsNoSpend(env: Env, td: TxData, i: nat, td': TxData, i': nat)
    requires Together(env, td, td') && i < |td.inputs| && td.inputs[i].IssuanceInput? && |td.inputs[i].nonce| > 0
    requires i' < |td'.inputs| && td'.inputs[i'].IssuanceInput? && |td'.inputs[i'].nonce| == 0
    ensures AnchorId(env, td, td.inputs[i]) != AnchorId(env, td', td'.inputs[i'])
  {
    hide Bodies, NonceProgram, PrevoutId;
    TM.IssuanceFacts(env, td, i);
    var b := Body(NonceEntry(env, td, td.inputs[i]));
    match FirstSpend(td')
    case Some(f) => TM.SpendFacts(env, td', f);
    case None =>
  }

  /** Spends with the same identifier claim the same output and carry the same data. */
  lemma {:induction false} SpendsAgree(env: Env, td: TxData, i: nat, td': TxData, i': nat)
    requires Together(env, td, td') && i < |td.inputs| && td.inputs[i].SpendInput? && i' < |td'.inputs| && td'.inputs[i'].SpendInput?
    ensures SpendId(env, td.inputs[i]) == SpendId(env, td'.inputs[i']) <==>
              SamePrevout(td.inputs[i], td'.inputs[i']) && env.hashData(td.inputs[i].referenceData) == env.hashData(td'.inputs[i'].referenceData)
  {
    hide Together, Bodies;
    var a, b := td.inputs[i], td'.inputs[i'];
    if SpendId(env, a) == SpendId(env, b) {
      TM.InputBodyIn(env, td, i);
      TM.InputBodyIn(env, td', i');
      SameHashSameBody(env, td, td', Body(SpendEntry(env, a, 0)), Body(SpendEntry(env, b, 0)));
      SameHashSameBody(env, td, td', Body(PrevoutEntry(a)), Body(PrevoutEntry(b)));
    }
  }

  lemma {:induction false} IssuancesAgree(env: Env, td: TxData, i: nat, td': TxData, i': nat)
    requires Together(env, td, td') && i < |td.inputs| && td.inputs[i].IssuanceInput? && i' < |td'.inputs| && td'.inputs[i'].IssuanceInput?
    requires IssuanceId(env, td, td.inputs[i]) == IssuanceId(env, td', td'.inputs[i'])
    ensures SameInput(env, td.inputs[i], td'.inputs[i'])
  {
    hide Together, Bodies, AnchorId;
    var a, b := td.inputs[i], td'.inputs[i'];
    TM.InputBodyIn(env, td, i);
    TM.InputBodyIn(env, td', i');
    SameHashSameBody(env, td, td', Body(IssuanceEntry(env, td, a, 0)), Body(IssuanceEntry(env, td', b, 0)));
    AnchorsAgree(env, td, i, td', i');
  }

  lemma {:induction false} KindsDiffer(env: Env, td: TxData, i: nat, td': TxData, i': nat)
    requires Together(env, td, td') && i < |td.inputs| && td.inputs[i].SpendInput? && i' < |td'.inputs| && td'.inputs[i'].IssuanceInput?
    ensures SpendId(env, td.inputs[i]) != IssuanceId(env, td', td'.inputs[i'])
  {
    hide Together, Bodies, AnchorId, PrevoutId, IssuedValue;
    TM.InputBodyIn(env, td, i);
    TM.InputBodyIn(env, td', i');
    if SpendId(env, td.inputs[i]) == IssuanceId(env, td', td'.inputs[i']) {
      SameHashSameBody(env, td, td', Body(SpendEntry(env, td.inputs[i], 0)), Body(IssuanceEntry(env, td', td'.inputs[i'], 0)));
    }
  }

  lemma {:induction false} SourcesAgree(env: Env, td: TxData, td': TxData, i: nat)
    requires Together(env, td, td') && i < |td.inputs| && i < |td'.inputs|
    requires MuxSource(env, td, td.inputs[i]) == MuxSource(env, td', td'.inputs[i])
    ensures SameInput(env, td.inputs[i], td'.inputs[i])
  {
    hide Together, SpendId, IssuanceId;
    var a, b := td.inputs[i], td'.inputs[i];
    if a.SpendInput? && b.SpendInput? {
      SpendsAgree(env, td, i, td', i);
    } else if a.IssuanceInput? && b.IssuanceInput? {
      IssuancesAgree(env, td, i, td', i);
    } else if a.SpendInput? && b.IssuanceInput? {
      KindsDiffer(env, td, i, td', i);
    } else if a.IssuanceInput? && b.SpendInput? {
      TogetherSwaps(env, td, td');
      KindsDiffer(env, td', i, td, i);
    }
  }

  // ---------------------------------------------------------------- the other way

  lemma {:induction false} FirstSpendAgrees(env: Env, td: TxData, td': TxData, i: nat)
    requires SameInputs(env, td, td') && i <= |td.inputs| && NoSpendBefore(td, i) && NoSpendBefore(td', i)
    ensures FirstSpend(td, i) == FirstSpend(td', i)
    decreases |td.inputs| - i
  {
    if i < |td.inputs| {
      assert SameInput(env, td.inputs[i], td'.inputs[i]);
      if !td.inputs[i].SpendInput? { FirstSpendAgrees(env, td, td', i + 1); }
    }
  }

  lemma {:induction false} SameInputSameId(env: Env, td: TxData, td': TxData, i: nat)
    requires SameInputs(env, td, td') && SameTerms(env, td, td') && i < |td.inputs|
    ensures MuxSource(env, td, td.inputs[i]) == MuxSource(env, td', td'.inputs[i])
  {
    hide PushdataBytes, SameInputs;
    SameAt(env, td, td', i);
    var a, b := td.inputs[i], td'.inputs[i];
    if a.SpendInput? {
      SameSpend(env, a, b);
    } else if a.IssuanceInput? {
      FirstSpendAgrees(env, td, td', 0);
      if FirstSpend(td).Some? {
        SameAt(env, td, td', FirstSpend(td).value);
        SameSpend(env, td.inputs[FirstSpend(td).value], td'.inputs[FirstSpend(td).value]);
      }
    }
  }

  lemma {:induction false} SameAt(env: Env, td: TxData, td': TxData, i: nat)
    requires SameInputs(env, td, td') && i < |td.inputs|
    ensures i < |td'.inputs| && SameInput(env, td.inputs[i], td'.inputs[i])
  {
  }

  lemma {:induction false} SameSpend(env: Env, a: TxInput, b: TxInput)
    requires a.SpendInput? && b.SpendInput? && SamePrevout(a, b) && env.hashData(a.referenceData) == env.hashData(b.referenceData)
    ensures SpendId(env, a) == SpendId(env, b)
  {
  }

  // ---------------------------------------------------------------- the mux and the results

  lemma {:induction false} MuxCommits(env: Env, td: TxData, td': TxData)
    requires Together(env, td, td') && SameTerms(env, td, td')
    ensures MuxId(env, td) == MuxId(env, td') <==> SameInputs(env, td, td')
  {
    hide Together, Bodies, MuxSource, SameInput;
    var s, s' := MuxSources(env, td), MuxSources(env, td');
    if MuxId(env, td) == MuxId(env, td') {
      G.InBodies(env, td);
      G.InBodies(env, td');
      SameHashSameBody(env, td, td', Body(MuxEntry(env, td)), Body(MuxEntry(env, td')));
      assert s == s' && |td.inputs| == |td'.inputs|;
      forall i | 0 <= i < |td.inputs| ensures SameInput(env, td.inputs[i], td'.inputs[i]) {
        assert s[i] == s'[i];
        SourcesAgree(env, td, td', i);
      }
    }
    if SameInputs(env, td, td') {
      forall i | 0 <= i < |td.inputs| ensures s[i] == s'[i] {
        SameInputSameId(env, td, td', i);
      }
      assert s == s';
    }
  }

  lemma {:induction false} ResultCommits(env: Env, td: TxData, td': TxData, j: nat)
    requires Together(env, td, td') && SameTerms(env, td, td') && j < |td.outputs| && j < |td'.outputs|
    ensures ResultId(env, td, j) == ResultId(env, td', j) <==> SameResult(env, td.outputs[j], td'.outputs[j]) && SameInputs(env, td, td')
  {
    hide Together, Bodies, SameInputs, MuxId, IsUnspendable;
    MuxCommits(env, td, td');
    if ResultId(env, td, j) == ResultId(env, td', j) {
      TM.OtherBodiesIn(env, td);
      TM.OtherBodiesIn(env, td');
      SameHashSameBody(env, td, td', Body(ResultEntry(env, td, j)), Body(ResultEntry(env, td', j)));
    }
  }

  /**
   * Two legacy transactions have the same identifier if and only if they agree on the header, on every output and, if
   * they have outputs, on every input; a retirement's program and an input's arguments are not part of that.
   */
  lemma {:induction false} TxIdCommits(env: Env, td: TxData, td': TxData)
    requires Together(env, td, td')
    ensures env.EntryId(HeaderEntry(env, td)) == env.EntryId(HeaderEntry(env, td')) <==> SameTx(env, td, td')
  {
    hide Together, Bodies, SameInputs, SameResult, ResultId;
    var r, r' := ResultIds(env, td), ResultIds(env, td');
    if env.EntryId(HeaderEntry(env, td)) == env.EntryId(HeaderEntry(env, td')) {
      G.InBodies(env, td);
      G.InBodies(env, td');
      SameHashSameBody(env, td, td', HeaderEntry(env, td), HeaderEntry(env, td'));
      assert r == r' && |td.outputs| == |td'.outputs|;
      forall j | 0 <= j < |td.outputs| ensures SameResult(env, td.outputs[j], td'.outputs[j]) && SameInputs(env, td, td') {
        assert r[j] == r'[j];
        ResultCommits(env, td, td', j);
      }
      if td.outputs != [] { ResultCommits(env, td, td', 0); assert r[0] == r'[0]; }
    }
    if SameTx(env, td, td') {
      forall j | 0 <= j < |td.outputs| ensures r[j] == r'[j] {
        ResultCommits(env, td, td', j);
      }
      assert r == r';
    }
  }

  // ---------------------------------------------------------------- spending

  /**
   * An input spends output j of a transaction, by its identifier, if and only if it names the transaction's mux, that
   * position, and the output's value, program and data.
   */
  lemma {:induction false} SpendNamesOutput(env: Env, td: TxData, j: nat, td': TxData, i: nat)
    requires Together(env, td, td') && j < |td.outputs| && i < |td'.inputs| && td'.inputs[i].SpendInput?
    ensures PrevoutId(env, td'.inputs[i]) == ResultId(env, td, j) <==>
              var out, inp := td.outputs[j], td'.inputs[i];
              && !IsUnspendable(out.controlProgram)
              && inp.sourceId == MuxId(env, td) && inp.sourcePosition == j && inp.value == out.value
              && inp.vmVersion == out.vmVersion && inp.controlProgram == out.controlProgram
              && inp.refDataHash == env.hashData(out.referenceData)
  {
    hide Together, Bodies, MuxId, IsUnspendable;
    if PrevoutId(env, td'.inputs[i]) == ResultId(env, td, j) {
      TM.OtherBodiesIn(env, td);
      TM.SpendFacts(env, td', i);
      SameHashSameBody(env, td, td', Body(ResultEntry(env, td, j)), Body(PrevoutEntry(td'.inputs[i])));
    }
  }
}
