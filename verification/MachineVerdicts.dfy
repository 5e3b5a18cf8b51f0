/**
 * The validator and the machine together: validation with the verdicts of the machine on the contexts of the
 * entries, instead of verdicts taken as given.
 */
module MachineVerdicts {
  import opened Basics
  import opened Entries
  import opened Opcodes
  import opened LegacyTx
  import opened CryptoOps
  import opened EntryContexts
  import A = MappedAccept
  import G = MappedValid
  import V = Validation
  import P = EntryPrograms
  import M = Metering
  import S = Straightline

  /** vm.Verify(NewTxVMContext(tx, e, p, args)) returns without error. */
  ghost predicate MachineAccepts(env: Env, c: Crypto, tx: Tx, e: Entry, p: Program, args: seq<bytes>)
  {
    HasHeader(tx) && Whole(tx, e) && M.Verify(NewTxVMContext(env, c, tx, e, p, args)) == M.Accepted
  }

  /** The environment whose verdicts are the machine's. */
  ghost predicate UsesMachine(env: Env, c: Crypto)
  {
    forall tx, e, p, args :: env.verify(tx, e, p, args) == MachineAccepts(env, c, tx, e, p, args)
  }

  /** Any hash functions make such an environment. */
  ghost function WithMachine(env: Env, c: Crypto): (r: Env)
    ensures UsesMachine(r, c)
    ensures r.hashOf == env.hashOf && r.hashData == env.hashData && r.assetIdOf == env.assetIdOf && r.blockchainId == env.blockchainId
  {
    var r := env.(verify := (tx, e, p, args) => MachineAccepts(env, c, tx, e, p, args));
    assert forall tx, e, p, args :: MachineAccepts(env, c, tx, e, p, args) == MachineAccepts(r, c, tx, e, p, args) by {
      forall tx: Tx, e: Entry, p: Program, args: seq<bytes>
        ensures MachineAccepts(env, c, tx, e, p, args) == MachineAccepts(r, c, tx, e, p, args)
      {
        if HasHeader(tx) { SameContext(env, r, c, tx, e, p, args); }
      }
    }
    r
  }

  lemma {:induction false} SameContext(env: Env, r: Env, c: Crypto, tx: Tx, e: Entry, p: Program, args: seq<bytes>)
    requires HasHeader(tx) && r.hashOf == env.hashOf
    ensures NewTxVMContext(r, c, tx, e, p, args) == NewTxVMContext(env, c, tx, e, p, args)
  {
  }

  // ---------------------------------------------------------------- the mux's and the nonces' own programs

  /** The mux's program always passes. */
  lemma {:induction false} MuxPasses(env: Env, c: Crypto, tx: Tx, e: Entry)
    requires HasHeader(tx) && e.Mux?
    ensures MachineAccepts(env, c, tx, e, Program(1, [OP_TRUE]), [])
  {
    hide M.Verify;
    P.TrueProgramPasses(NewTxVMContext(env, c, tx, e, Program(1, [OP_TRUE]), []));
  }

  /** A nonce's program passes exactly when the nonce is not too long and the entry it anchors issues the nonce's asset. */
  lemma {:induction false} NoncePasses(env: Env, c: Crypto, tx: Tx, e: Entry, nonce: bytes, asset: Hash)
    requires HasHeader(tx) && e.Nonce? && e.witnessAnchoredId.Some?
    ensures MachineAccepts(env, c, tx, e, Program(1, P.NonceCode(nonce, asset)), []) <==>
              |nonce| <= P.MAX_NONCE && ShownValue(tx, e).Some? && ShownValue(tx, e).value.assetId == asset
  {
    hide M.Verify, P.NonceCode;
    P.NonceProgramPasses(NewTxVMContext(env, c, tx, e, Program(1, P.NonceCode(nonce, asset)), []), nonce, asset);
  }

  // ---------------------------------------------------------------- validation

  /** One input: known, not repeated under its identifier, its program accepted by the machine, and anchored. */
  ghost predicate InputAccepted(env: Env, c: Crypto, td: TxData, tx: Tx, i: nat)
    requires i < |td.inputs|
  {
    var inp := td.inputs[i];
    match inp
    case SpendInput(_, _, _, vmVersion, code, _, args, _) =>
      var id := SpendId(env, inp);
      && LastSpend(env, td, id, |td.inputs|) == Some(i)
      && id in tx.entries && MachineAccepts(env, c, tx, tx.entries[id], Program(vmVersion, code), args)
    case IssuanceInput(nonce, _, initialBlock, _, vmVersion, code, args, _) =>
      var id := IssuanceId(env, td, inp);
      && LastIssuance(env, td, id, |td.inputs|) == Some(i)
      && initialBlock == env.blockchainId
      && id in tx.entries && MachineAccepts(env, c, tx, tx.entries[id], Program(vmVersion, code), args)
      && (if |nonce| > 0 then
            && LastUser(env, td, NonceId(env, td, inp), |td.inputs|) == Some(i)
            && td.minTime != 0 && td.maxTime != 0 && |nonce| <= P.MAX_NONCE
          else FirstSpend(td).Some? && LastPlain(td, |td.inputs|) == Some(i))
    case UnknownInput => false
  }

  /** No transaction can spend what a retirement made unspendable: its program begins with FAIL. */
  lemma {:induction false} UnspendableIsNeverSpent(env: Env, c: Crypto, td: TxData, tx: Tx, i: nat)
    requires i < |td.inputs| && td.inputs[i].SpendInput?
    requires IsUnspendable(td.inputs[i].controlProgram) && |td.inputs[i].controlProgram| < TWO_32
    ensures !InputAccepted(env, c, td, tx, i)
  {
    hide M.Verify, SpendId, LastSpend, Whole;
    var inp := td.inputs[i];
    if InputAccepted(env, c, td, tx, i) {
      P.UnspendableNeverPasses(NewTxVMContext(env, c, tx, tx.entries[SpendId(env, inp)], Program(inp.vmVersion, inp.controlProgram), inp.arguments));
    }
  }

  ghost predicate InputsAccepted(env: Env, c: Crypto, td: TxData, tx: Tx)
  {
    forall i :: 0 <= i < |td.inputs| ==> InputAccepted(env, c, td, tx, i)
  }

  ghost predicate Accepted(env: Env, c: Crypto, td: TxData, tx: Tx)
  {
    && (td.maxTime > 0 ==> td.minTime <= td.maxTime)
    && (td.version == 1 ==> td.outputs != [])
    && (td.outputs != [] ==>
          && InputsAccepted(env, c, td, tx) && A.AllKnown(td)
          && V.CheckParity(A.InputValues(env, td), A.OutputValues(td)).Ok?)
  }

  lemma {:induction false} HeaderIs(env: Env, td: TxData, tx: Tx)
    requires Hashable(env, td) && Mapped(env, td, tx)
    ensures HasHeader(tx)
  {
    hide Hashable, Mapped;
    G.HeaderAt(env, td, tx);
  }

  lemma {:induction false} NonceCodeAgrees(env: Env, inp: TxInput)
    requires inp.IssuanceInput?
    ensures NonceProgram(env, inp) == P.NonceCode(inp.nonce, IssuedValue(env, inp).assetId)
  {
  }

  /** The machine on the nonce of an issuance that the maps keep. */
  lemma {:induction false} NonceOfIssuance(env: Env, c: Crypto, td: TxData, tx: Tx, i: nat)
    requires UsesMachine(env, c) && Hashable(env, td) && Mapped(env, td, tx)
    requires i < |td.inputs| && td.inputs[i].IssuanceInput? && |td.inputs[i].nonce| > 0
    requires LastIssuance(env, td, IssuanceId(env, td, td.inputs[i]), |td.inputs|) == Some(i)
    requires LastUser(env, td, NonceId(env, td, td.inputs[i]), |td.inputs|) == Some(i)
    ensures NonceId(env, td, td.inputs[i]) in tx.entries
    ensures env.verify(tx, tx.entries[NonceId(env, td, td.inputs[i])], Program(1, NonceProgram(env, td.inputs[i])), []) <==>
              |td.inputs[i].nonce| <= P.MAX_NONCE
  {
    hide Hashable, Mapped, MachineAccepts, NonceProgram, LastUser, LastIssuance, IssuanceId, NonceId, IssuedValue, UsesNonce, IsIssuance;
    var inp := td.inputs[i];
    HeaderIs(env, td, tx);
    var u := A.NonceEntryAt(env, td, tx, i);
    var o := A.IssuanceEntryAt(env, td, tx, i);
    var e := tx.entries[NonceId(env, td, inp)];
    NonceCodeAgrees(env, inp);
    NoncePasses(env, c, tx, e, inp.nonce, IssuedValue(env, inp).assetId);
    assert env.verify(tx, e, Program(1, NonceProgram(env, inp)), []) == MachineAccepts(env, c, tx, e, Program(1, NonceProgram(env, inp)), []);
  }

  lemma {:induction false} InputAgrees(env: Env, c: Crypto, td: TxData, tx: Tx, i: nat)
    requires UsesMachine(env, c) && Hashable(env, td) && Mapped(env, td, tx) && i < |td.inputs|
    ensures A.InputAccepted(env, td, tx, i) <==> InputAccepted(env, c, td, tx, i)
  {
    hide Hashable, Mapped, MachineAccepts, LastUser, LastIssuance, LastSpend, LastPlain, IssuanceId, NonceId, SpendId, NonceProgram;
    var inp := td.inputs[i];
    if inp.IssuanceInput? && |inp.nonce| > 0
       && LastIssuance(env, td, IssuanceId(env, td, inp), |td.inputs|) == Some(i) && LastUser(env, td, NonceId(env, td, inp), |td.inputs|) == Some(i)
    {
      NonceOfIssuance(env, c, td, tx, i);
    }
  }

  /**
   * Validation with the machine: a mapped transaction is valid if and only if its times are in order, it has
   * outputs (or another version than 1), and, with outputs, the machine accepts the program of every input,
   * the inputs are known, not repeated and anchored, and the values balance. The mux's program never stands in
   * the way, and a nonce's program only if the nonce is too long.
   */
  lemma {:induction false} ValidateWithMachine(env: Env, c: Crypto, td: TxData, tx: Tx)
    requires UsesMachine(env, c) && Hashable(env, td) && Mapped(env, td, tx)
    ensures Graph(env, tx)
    ensures V.ValidateTx(env, tx).Ok? <==> Accepted(env, c, td, tx)
  {
    hide Hashable, Mapped, Graph, V.ValidateTx, A.InputAccepted, InputAccepted, V.CheckParity, MachineAccepts, MuxWith;
    A.ValidateExact(env, td, tx);
    HeaderIs(env, td, tx);
    var mux := MuxWith(env, td, Destinations(env, td));
    MuxIsMux(env, td);
    MuxPasses(env, c, tx, mux);
    assert env.verify(tx, mux, Program(1, [OP_TRUE]), []);
    forall i | 0 <= i < |td.inputs| ensures A.InputAccepted(env, td, tx, i) <==> InputAccepted(env, c, td, tx, i) {
      InputAgrees(env, c, td, tx, i);
    }
  }

  lemma {:induction false} MuxIsMux(env: Env, td: TxData)
    ensures MuxWith(env, td, Destinations(env, td)).Mux?
  {
  }

  // ---------------------------------------------------------------- CHECKOUTPUT in a mapped transaction

  /**
   * The transaction has, at this index, an output as asked for. A retirement stands for an output of version 0
   * without a program, or with any program where expansion is reserved.
   */
  predicate HasOutput(env: Env, td: TxData, q: Query)
  {
    && q.index < |td.outputs|
    && var out := td.outputs[q.index];
       && (if IsUnspendable(out.controlProgram) then q.vmVersion == 0 && (q.code == [] || q.expansion)
           else out.vmVersion == q.vmVersion && out.controlProgram == q.code)
       && out.value.assetId == q.assetID && out.value.amount == q.amount
       && (q.data == [] || env.hashData(out.referenceData) == q.data)
  }

  /** Seen from any input of a mapped transaction, checkOutput says whether that output is at that index, and is an error beyond the last. */
  lemma {:induction false} CheckOutputMeans(env: Env, td: TxData, tx: Tx, e: Entry, value: AssetAmount, o: nat, q: Query)
    requires Hashable(env, td) && Mapped(env, td, tx)
    requires (e.Spend? || e.Issuance?) && e.witnessDestination == ToMux(env, td, value, o)
    ensures CheckOutput(tx, e, q) == if q.index < |td.outputs| then Some(HasOutput(env, td, q)) else None
  {
    hide Hashable, HoldsBodies, SpendOf, IssuanceOf, NonceOf, MuxId, ResultId, Lists;
    var m := tx.entries[MuxId(env, td)];
    assert m == MuxWith(env, td, Destinations(env, td));
    if q.index < |td.outputs| {
      assert m.witnessDestinations[q.index] == Destination(env, td, q.index);
      assert tx.entries[ResultId(env, td, q.index)] == ResultEntry(env, td, q.index);
    }
  }

  /** So CHECKOUTPUT, in the context of a spend of the transaction, says whether the output is there. */
  lemma {:induction false} SpendSeesOutputs(env: Env, c: Crypto, td: TxData, tx: Tx, i: nat, p: Program, args: seq<bytes>, q: Query)
    requires Hashable(env, td) && Mapped(env, td, tx) && i < |td.inputs| && td.inputs[i].SpendInput?
    ensures HasHeader(tx) && SpendId(env, td.inputs[i]) in tx.entries
    ensures var context := NewTxVMContext(env, c, tx, tx.entries[SpendId(env, td.inputs[i])], p, args);
            S.OutputVerdict(context, q.index, q.data, q.amount, q.assetID, q.vmVersion, q.code, q.expansion) ==
            if q.index < |td.outputs| then Some(HasOutput(env, td, q)) else None
  {
    hide Hashable, Mapped, SpendId, HasOutput, ToMux, LastSpend;
    HeaderIs(env, td, tx);
    var o := A.SpendEntryAt(env, td, tx, i);
    var e := tx.entries[SpendId(env, td.inputs[i])];
    CheckOutputMeans(env, td, tx, e, td.inputs[o].value, o, q);
  }

  /** And so in the context of an issuance. */
  lemma {:induction false} IssuanceSeesOutputs(env: Env, c: Crypto, td: TxData, tx: Tx, i: nat, p: Program, args: seq<bytes>, q: Query)
    requires Hashable(env, td) && Mapped(env, td, tx) && i < |td.inputs| && td.inputs[i].IssuanceInput?
    ensures HasHeader(tx) && IssuanceId(env, td, td.inputs[i]) in tx.entries
    ensures var context := NewTxVMContext(env, c, tx, tx.entries[IssuanceId(env, td, td.inputs[i])], p, args);
            S.OutputVerdict(context, q.index, q.data, q.amount, q.assetID, q.vmVersion, q.code, q.expansion) ==
            if q.index < |td.outputs| then Some(HasOutput(env, td, q)) else None
  {
    hide Hashable, Mapped, IssuanceId, IssuedValue, AnchorId, HasOutput, ToMux, LastIssuance;
    HeaderIs(env, td, tx);
    var o := A.IssuanceEntryAt(env, td, tx, i);
    var e := tx.entries[IssuanceId(env, td, td.inputs[i])];
    CheckOutputMeans(env, td, tx, e, IssuedValue(env, td.inputs[o]), o, q);
  }
}
