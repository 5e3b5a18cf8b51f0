/**
  What a signature over an open template binds, transaction by transaction: the program that core/txbuilder compiles
  from one transaction, seen in the context of an input of another, and of the transaction itself.
 */
module OwnCommitments {
  import opened Basics
  import opened Entries
  import opened LegacyTx
  import opened CryptoOps
  import opened EntryContexts
  import opened MachineVerdicts
  import opened InputContexts
  import I = Interpreter
  import S = Straightline
  import W = Witness
  import C = Constraints
  import O = Outcomes
  import Mc = Machine
  import X = TxIds

  /** Every number of the transaction fits a signed 64-bit integer. */
  predicate InRange(td: TxData)
  {
    && td.minTime <= MAX_INT64 && td.maxTime <= MAX_INT64 && |td.outputs| <= MAX_INT64
    && forall j :: 0 <= j < |td.outputs| ==> td.outputs[j].value.amount <= MAX_INT64
  }

  /** What buildSigProgram reads of the transaction and its input at position i, with others allowed to add to it. */
  function TemplateOf(env: Env, td: TxData, i: nat): W.Template
    requires InRange(td) && i < |td.inputs| && !td.inputs[i].UnknownInput?
  {
    var inp := td.inputs[i];
    W.Template(true, ZERO_HASH, td.minTime, td.maxTime, if inp.SpendInput? then Some(PrevoutId(env, inp)) else None,
               td.referenceData, inp.referenceData,
               seq(|td.outputs|, j requires 0 <= j < |td.outputs| && td.outputs[j].value.amount <= MAX_INT64 =>
                     W.TxOutput(td.outputs[j].value.assetId, td.outputs[j].value.amount, td.outputs[j].controlProgram, td.outputs[j].referenceData)))
  }

  /** An input that the maps keep: not repeated under its identifier, and anchored. */
  predicate Kept(env: Env, td: TxData, i: nat)
  {
    && i < |td.inputs|
    && match td.inputs[i]
       case SpendInput(_, _, _, _, _, _, _, _) => LastSpend(env, td, SpendId(env, td.inputs[i]), |td.inputs|) == Some(i)
       case IssuanceInput(nonce, _, _, _, _, _, _, _) =>
         LastIssuance(env, td, IssuanceId(env, td, td.inputs[i]), |td.inputs|) == Some(i) && (|nonce| > 0 || FirstSpend(td).Some?)
       case UnknownInput => false
  }

  /** What the context of a kept input shows of what a template binds. */
  ghost predicate ShowsBound(x: I.Env, env: Env, c: Crypto, td: TxData, i: nat)
    requires i < |td.inputs| && !td.inputs[i].UnknownInput?
  {
    && x.crypto == c && x.minTimeMS == Some(td.minTime) && x.maxTimeMS == Some(td.maxTime)
    && x.txData == Some(env.hashData(td.referenceData)) && x.entryData == Some(env.hashData(td.inputs[i].referenceData))
    && x.spentOutputID == (if td.inputs[i].SpendInput? then Some(PrevoutId(env, td.inputs[i])) else None)
    && forall q: Query :: S.OutputVerdict(x, q.index, q.data, q.amount, q.assetID, q.vmVersion, q.code, q.expansion) ==
                          if q.index < |td.outputs| then Some(HasOutput(env, td, q)) else None
  }

  lemma {:induction false} KeptShows(env: Env, c: Crypto, td: TxData, tx: Tx, i: nat, p: Program, args: seq<bytes>)
    requires Hashable(env, td) && Mapped(env, td, tx) && Uint64s(td) && Kept(env, td, i)
    ensures HasHeader(tx) && i < |tx.inputIds| && tx.inputIds[i] in tx.entries
    ensures ShowsBound(ContextOf(env, c, tx, tx.inputIds[i], p, args), env, c, td, i)
  {
    hide Hashable, Mapped, SpendId, IssuanceId, NonceId, PrevoutId, LastSpend, LastIssuance, HasOutput, IssuedValue, S.OutputVerdict, NewTxVMContext;
    if td.inputs[i].SpendInput? {
      SpendContextIs(env, c, td, tx, i, p, args);
      forall q: Query ensures S.OutputVerdict(ContextOf(env, c, tx, tx.inputIds[i], p, args), q.index, q.data, q.amount, q.assetID, q.vmVersion, q.code, q.expansion)
                              == if q.index < |td.outputs| then Some(HasOutput(env, td, q)) else None
      {
        SpendSeesOutputs(env, c, td, tx, i, p, args, q);
      }
    } else {
      IssuanceContextIs(env, c, td, tx, i, p, args);
      forall q: Query ensures S.OutputVerdict(ContextOf(env, c, tx, tx.inputIds[i], p, args), q.index, q.data, q.amount, q.assetID, q.vmVersion, q.code, q.expansion)
                              == if q.index < |td.outputs| then Some(HasOutput(env, td, q)) else None
      {
        IssuanceSeesOutputs(env, c, td, tx, i, p, args, q);
      }
    }
  }

  /** The other transaction has this output at this index: spendable, of version 1, and with the same data where there is any. */
  predicate SameOutput(env: Env, out: TxOutput, td': TxData, j: nat)
  {
    && j < |td'.outputs|
    && var out' := td'.outputs[j];
       && !IsUnspendable(out'.controlProgram) && out'.vmVersion == 1
       && out'.controlProgram == out.controlProgram && out'.value == out.value
       && (|out.referenceData| > 0 ==> env.hashData(out'.referenceData) == env.hashData(out.referenceData))
  }

  /** What a signature over an open template of one transaction's input binds of another transaction's input. */
  predicate Bound(env: Env, td: TxData, i: nat, td': TxData, i': nat)
    requires i < |td.inputs| && !td.inputs[i].UnknownInput? && i' < |td'.inputs| && !td'.inputs[i'].UnknownInput?
  {
    && (td.minTime > 0 ==> td.minTime <= td'.minTime)
    && (td.maxTime > 0 ==> 0 < td'.maxTime <= td.maxTime || td.maxTime == MAX_INT64)
    && (td.inputs[i].SpendInput? ==> td'.inputs[i'].SpendInput? && PrevoutId(env, td'.inputs[i']) == PrevoutId(env, td.inputs[i]))
    && (|td.referenceData| > 0 ==> env.hashData(td'.referenceData) == env.hashData(td.referenceData))
    && env.hashData(td'.inputs[i'].referenceData) == env.hashData(td.inputs[i].referenceData)
    && forall j :: 0 <= j < |td.outputs| ==> SameOutput(env, td.outputs[j], td', j)
  }

  lemma {:induction false} OutputBound(x: I.Env, env: Env, c: Crypto, td: TxData, i: nat, td': TxData, i': nat, j: nat, expansion: bool)
    requires InRange(td) && i < |td.inputs| && !td.inputs[i].UnknownInput? && i' < |td'.inputs| && !td'.inputs[i'].UnknownInput?
    requires ShowsBound(x, env, c, td', i') && c.sha3 == env.hashData && j < |td.outputs|
    ensures W.ShowsOutput(x, j, TemplateOf(env, td, i).outputs[j], expansion) <==> SameOutput(env, td.outputs[j], td', j)
  {
    hide PrevoutId, S.OutputVerdict;
    var out := td.outputs[j];
    var data: bytes := if |out.referenceData| > 0 then c.sha3(out.referenceData) else [];
    var q := Query(j, data, out.value.amount, out.value.assetId, 1, out.controlProgram, expansion);
    assert S.OutputVerdict(x, q.index, q.data, q.amount, q.assetID, q.vmVersion, q.code, q.expansion) ==
           if q.index < |td'.outputs| then Some(HasOutput(env, td', q)) else None;
  }

  /**
   * The signature program of an open template, in the context of an input of any mapped transaction, passes exactly if
   * that transaction keeps the times, spends the same output, has the same data and has every output of the template
   * at its place.
   */
  lemma {:induction false} OpenSignatureBinds(env: Env, c: Crypto, td: TxData, i: nat, td': TxData, tx': Tx, i': nat, p: Program, args: seq<bytes>, expansion: bool)
    requires InRange(td) && i < |td.inputs| && !td.inputs[i].UnknownInput?
    requires Hashable(env, td') && Mapped(env, td', tx') && Uint64s(td') && Kept(env, td', i') && c.sha3 == env.hashData
    ensures HasHeader(tx') && i' < |tx'.inputIds| && tx'.inputIds[i'] in tx'.entries
    ensures W.Keeps(ContextOf(env, c, tx', tx'.inputIds[i'], p, args), TemplateOf(env, td, i), expansion) <==> Bound(env, td, i, td', i')
  {
    hide Hashable, Mapped, PrevoutId, SpendId, IssuanceId, LastSpend, LastIssuance, S.OutputVerdict, HasOutput, ContextOf, W.ShowsOutput, SameOutput;
    KeptShows(env, c, td', tx', i', p, args);
    var x := ContextOf(env, c, tx', tx'.inputIds[i'], p, args);
    forall j | 0 <= j < |td.outputs|
      ensures W.ShowsOutput(x, j, TemplateOf(env, td, i).outputs[j], expansion) <==> SameOutput(env, td.outputs[j], td', j)
    {
      OutputBound(x, env, c, td, i, td', i', j, expansion);
    }
  }

  /**
   * A transaction keeps its own commitments, seen from an input that the maps keep, if and only if none of its
   * outputs is a retirement and all have VM version 1: a retirement counts as having version 0, and the compiled
   * constraint asks for 1.
   */
  lemma {:induction false} OwnCommitmentsHold(env: Env, c: Crypto, td: TxData, tx: Tx, i: nat, p: Program, args: seq<bytes>, expansion: bool)
    requires Hashable(env, td) && Mapped(env, td, tx) && InRange(td) && Uint64s(td) && Kept(env, td, i) && c.sha3 == env.hashData
    ensures HasHeader(tx) && i < |tx.inputIds| && tx.inputIds[i] in tx.entries
    ensures W.Keeps(ContextOf(env, c, tx, tx.inputIds[i], p, args), TemplateOf(env, td, i), expansion)
       <==> forall j :: 0 <= j < |td.outputs| ==> !IsUnspendable(td.outputs[j].controlProgram) && td.outputs[j].vmVersion == 1
  {
    hide Hashable, Mapped, PrevoutId, ContextOf, W.Keeps, IsUnspendable;
    OpenSignatureBinds(env, c, td, i, td, tx, i, p, args, expansion);
  }

  /**
   * The signature program of a closed template, in the context of an input of any mapped transaction, passes exactly
   * for the input with the same identifier of a transaction with the same header, outputs and inputs.
   */
  lemma {:induction false} ClosedSignatureFixesTx(env: Env, c: Crypto, td: TxData, tx: Tx, i: nat, t: W.Template,
                                                  td': TxData, tx': Tx, i': nat, p: Program, args: seq<bytes>, vm: Mc.VM)
    requires X.Together(env, td, td') && Mapped(env, td, tx) && Mapped(env, td', tx') && Uint64s(td') && Kept(env, td', i')
    requires i < |tx.inputIds| && !t.allowAdditional && t.sigHash == SigHash(c, tx, i)
    requires i' < |tx'.inputIds| ==> Separates(c.sha3, tx.inputIds[i] + tx.id, tx'.inputIds[i'] + tx'.id)
    requires W.AtStart(vm, W.SigItems(c.sha3, t)) && vm.runLimit >= 400
    ensures HasHeader(tx') && i' < |tx'.inputIds| && tx'.inputIds[i'] in tx'.entries
    ensures C.DecidesAll(vm, tx.inputIds[i] == tx'.inputIds[i'] && X.SameTx(env, td, td'),
                         O.Outcome(ContextOf(env, c, tx', tx'.inputIds[i'], p, args), vm))
  {
    hide X.SameTx, O.Outcome, C.DecidesAll, W.AtStart, W.SigItems, ShowsBound, Hashable, MappedEntries, Bodies, Kept;
    KeptShows(env, c, td', tx', i', p, args);
    KeyIsId(env, td', tx', tx'.inputIds[i']);
    X.TxIdCommits(env, td, td');
    ClosedSignatureBinds(env, c, tx, i, t, tx', tx'.entries[tx'.inputIds[i']], p, args, vm);
  }
}
