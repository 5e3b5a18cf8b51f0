/**
  The contexts of a mapped transaction's inputs, field by field, and what a signature hash binds: the signature
  program of a closed template passes for one input of one transaction only.
 */
module InputContexts {
  import opened Basics
  import opened Entries
  import opened LegacyTx
  import opened CryptoOps
  import opened EntryContexts
  import opened MachineVerdicts
  import A = MappedAccept
  import M = MapTx
  import G = MappedValid
  import I = Interpreter
  import Mc = Machine
  import O = Outcomes
  import Assembly
  import C = Constraints
  import W = Witness

  /** Every number of the transaction fits an unsigned 64-bit integer, as in the source. */
  predicate Uint64s(td: TxData)
  {
    && td.version < TWO_64 && td.minTime < TWO_64 && td.maxTime < TWO_64 && |td.inputs| < TWO_64
    && forall i :: 0 <= i < |td.inputs| ==>
         && (td.inputs[i].SpendInput? ==> td.inputs[i].value.amount < TWO_64)
         && (td.inputs[i].IssuanceInput? ==> td.inputs[i].amount < TWO_64)
  }

  /** Tx.SigHash */
  function SigHash(c: Crypto, tx: Tx, n: nat): Hash
    requires n < |tx.inputIds|
  {
    c.sha3(tx.inputIds[n] + tx.id)
  }

  /** The context of an entry. */
  function ContextOf(env: Env, c: Crypto, tx: Tx, id: Hash, p: Program, args: seq<bytes>): I.Env
    requires HasHeader(tx) && id in tx.entries
  {
    NewTxVMContext(env, c, tx, tx.entries[id], p, args)
  }

  // ---------------------------------------------------------------- the fields

  /** What every input's context shows: its program, its transaction, its identifier and position, and the signature hash. */
  ghost predicate ShowsInput(x: I.Env, env: Env, c: Crypto, td: TxData, tx: Tx, i: nat, id: Hash, p: Program, args: seq<bytes>)
  {
    && x.vmVersion == U64(p.vmVersion) && x.code == p.code && x.arguments == args && x.crypto == c
    && x.entryID == id && x.destPos == Some(i)
    && x.txVersion == Some(td.version) && x.minTimeMS == Some(td.minTime) && x.maxTimeMS == Some(td.maxTime)
    && x.txData == Some(env.hashData(td.referenceData))
    && x.blockHash == None && x.blockTimeMS == None && x.nextConsensusProgram == None
    && i < |tx.inputIds| && tx.inputIds[i] == id && x.txSigHash == Some(SigHash(c, tx, i))
  }

  lemma {:induction false} InputShown(env: Env, c: Crypto, td: TxData, tx: Tx, i: nat, id: Hash, p: Program, args: seq<bytes>)
    requires HasHeader(tx) && tx.entries[tx.id] == HeaderEntry(env, td) && Uint64s(td) && i < |td.inputs|
    requires id in tx.entries && (tx.entries[id].Spend? || tx.entries[id].Issuance?) && env.EntryId(tx.entries[id]) == id
    requires tx.entries[id].witnessDestination.Some? && tx.entries[id].witnessDestination.value.position == i
    requires i < |tx.inputIds| && tx.inputIds[i] == id
    ensures ShowsInput(ContextOf(env, c, tx, id, p, args), env, c, td, tx, i, id, p, args)
  {
    hide CheckOutput, ShownValue, ShownData, Env.EntryId, ResultIds;
  }

  /** What a context shows of a spend entry. */
  lemma {:induction false} SpendShown(env: Env, c: Crypto, tx: Tx, id: Hash, spent: Hash, value: AssetAmount, p: Program, args: seq<bytes>)
    requires HasHeader(tx) && id in tx.entries && tx.entries[id].Spend? && tx.entries[id].spentOutputId == Some(spent)
    requires spent in tx.entries && tx.entries[spent].Output? && tx.entries[spent].source.Some?
    requires tx.entries[spent].source.value.value == Some(value) && value.amount < TWO_64
    ensures var x := ContextOf(env, c, tx, id, p, args);
            && x.assetID == Some(value.assetId) && x.amount == Some(value.amount)
            && x.entryData == Some(tx.entries[id].data) && x.spentOutputID == Some(spent) && x.anchorID == None
  {
    hide CheckOutput, Env.EntryId;
  }

  /** What a context shows of an issuance entry. */
  lemma {:induction false} IssuanceShown(env: Env, c: Crypto, tx: Tx, id: Hash, p: Program, args: seq<bytes>)
    requires HasHeader(tx) && id in tx.entries && tx.entries[id].Issuance? && tx.entries[id].value.amount < TWO_64
    ensures var x, e := ContextOf(env, c, tx, id, p, args), tx.entries[id];
            && x.assetID == Some(e.value.assetId) && x.amount == Some(e.value.amount)
            && x.entryData == Some(e.data) && x.spentOutputID == None && x.anchorID == Some(e.anchorId)
  {
    hide CheckOutput, Env.EntryId;
  }

  lemma {:induction false} SpendEntryIs(env: Env, td: TxData, tx: Tx, i: nat)
    requires Hashable(env, td) && Mapped(env, td, tx) && i < |td.inputs| && td.inputs[i].SpendInput?
    requires LastSpend(env, td, SpendId(env, td.inputs[i]), |td.inputs|) == Some(i)
    ensures var inp := td.inputs[i];
            var id := SpendId(env, inp);
            && id in tx.entries && env.EntryId(tx.entries[id]) == id && tx.inputIds[i] == id
            && var e := tx.entries[id];
            && e.Spend? && e.spentOutputId == Some(PrevoutId(env, inp)) && e.data == env.hashData(inp.referenceData)
            && e.witnessDestination.Some? && e.witnessDestination.value.position == i
  {
    hide Hashable, MappedEntries, SpendId, PrevoutId, ToMux, LastSpend, SpendAnchored, Lists, Env.EntryId;
    var o := A.SpendEntryAt(env, td, tx, i);
    KeyIsId(env, td, tx, SpendId(env, td.inputs[i]));
    ToMuxPosition(env, td, td.inputs[i].value, i);
  }

  lemma {:induction false} PrevoutEntryIs(env: Env, td: TxData, tx: Tx, i: nat)
    requires Hashable(env, td) && Mapped(env, td, tx) && i < |td.inputs| && td.inputs[i].SpendInput?
    ensures var id := PrevoutId(env, td.inputs[i]);
            && id in tx.entries && tx.entries[id].Output? && tx.entries[id].source.Some?
            && tx.entries[id].source.value.value == Some(td.inputs[i].value)
  {
    hide Hashable, HoldsBodies, PrevoutId, Lists, SpendOf, IssuanceOf, NonceOf;
    M.PrevoutAt(env, td, tx.entries, i);
  }

  /** In the context of a spend that the maps keep: the value, data and output that the input names. */
  lemma {:induction false} SpendContextIs(env: Env, c: Crypto, td: TxData, tx: Tx, i: nat, p: Program, args: seq<bytes>)
    requires Hashable(env, td) && Mapped(env, td, tx) && Uint64s(td) && i < |td.inputs| && td.inputs[i].SpendInput?
    requires LastSpend(env, td, SpendId(env, td.inputs[i]), |td.inputs|) == Some(i)
    ensures HasHeader(tx) && SpendId(env, td.inputs[i]) in tx.entries
    ensures var inp := td.inputs[i];
            var x := ContextOf(env, c, tx, SpendId(env, inp), p, args);
            && ShowsInput(x, env, c, td, tx, i, SpendId(env, inp), p, args)
            && x.assetID == Some(inp.value.assetId) && x.amount == Some(inp.value.amount)
            && x.entryData == Some(env.hashData(inp.referenceData))
            && x.spentOutputID == Some(PrevoutId(env, inp)) && x.anchorID == None
  {
    hide Hashable, MappedEntries, SpendId, PrevoutId, LastSpend, Lists, Env.EntryId, ContextOf, ShowsInput, HeaderEntry;
    G.HeaderAt(env, td, tx);
    HeaderIs(env, td, tx);
    SpendEntryIs(env, td, tx, i);
    PrevoutEntryIs(env, td, tx, i);
    InputShown(env, c, td, tx, i, SpendId(env, td.inputs[i]), p, args);
    SpendShown(env, c, tx, SpendId(env, td.inputs[i]), PrevoutId(env, td.inputs[i]), td.inputs[i].value, p, args);
  }

  lemma {:induction false} IssuanceEntryIs(env: Env, td: TxData, tx: Tx, i: nat)
    requires Hashable(env, td) && Mapped(env, td, tx) && i < |td.inputs| && td.inputs[i].IssuanceInput?
    requires LastIssuance(env, td, IssuanceId(env, td, td.inputs[i]), |td.inputs|) == Some(i)
    requires |td.inputs[i].nonce| > 0 || FirstSpend(td).Some?
    ensures var inp := td.inputs[i];
            var id := IssuanceId(env, td, inp);
            && id in tx.entries && env.EntryId(tx.entries[id]) == id && tx.inputIds[i] == id
            && var e := tx.entries[id];
            && e.Issuance? && e.anchorId == AnchorId(env, td, inp) && e.value == IssuedValue(env, inp)
            && e.data == env.hashData(inp.referenceData)
            && e.witnessDestination.Some? && e.witnessDestination.value.position == i
  {
    hide Hashable, MappedEntries, IssuanceId, AnchorId, IssuedValue, ToMux, LastIssuance, Lists, Definition, Env.EntryId;
    var o := A.IssuanceEntryAt(env, td, tx, i);
    KeyIsId(env, td, tx, IssuanceId(env, td, td.inputs[i]));
    ToMuxPosition(env, td, IssuedValue(env, td.inputs[i]), i);
    AnchorThere(env, td, tx, i);
  }

  /** In the context of an issuance that the maps keep: the value issued, its data and its anchor. */
  lemma {:induction false} IssuanceContextIs(env: Env, c: Crypto, td: TxData, tx: Tx, i: nat, p: Program, args: seq<bytes>)
    requires Hashable(env, td) && Mapped(env, td, tx) && Uint64s(td) && i < |td.inputs| && td.inputs[i].IssuanceInput?
    requires LastIssuance(env, td, IssuanceId(env, td, td.inputs[i]), |td.inputs|) == Some(i)
    requires |td.inputs[i].nonce| > 0 || FirstSpend(td).Some?
    ensures HasHeader(tx) && IssuanceId(env, td, td.inputs[i]) in tx.entries
    ensures var inp := td.inputs[i];
            var x := ContextOf(env, c, tx, IssuanceId(env, td, inp), p, args);
            && ShowsInput(x, env, c, td, tx, i, IssuanceId(env, td, inp), p, args)
            && x.assetID == Some(IssuedValue(env, inp).assetId) && x.amount == Some(inp.amount)
            && x.entryData == Some(env.hashData(inp.referenceData))
            && x.spentOutputID == None
            && x.anchorID == Some(if |inp.nonce| > 0 then NonceId(env, td, inp) else SpendId(env, td.inputs[FirstSpend(td).value]))
  {
    hide Hashable, MappedEntries, IssuanceId, NonceId, SpendId, LastIssuance, Lists, Env.EntryId, ContextOf, ShowsInput, HeaderEntry;
    G.HeaderAt(env, td, tx);
    HeaderIs(env, td, tx);
    IssuanceEntryIs(env, td, tx, i);
    InputShown(env, c, td, tx, i, IssuanceId(env, td, td.inputs[i]), p, args);
    IssuanceShown(env, c, tx, IssuanceId(env, td, td.inputs[i]), p, args);
  }

  lemma {:induction false} AnchorThere(env: Env, td: TxData, tx: Tx, i: nat)
    requires Hashable(env, td) && Mapped(env, td, tx) && i < |td.inputs| && td.inputs[i].IssuanceInput?
    requires |td.inputs[i].nonce| > 0 || FirstSpend(td).Some?
    ensures AnchorId(env, td, td.inputs[i]) in tx.entries
  {
    hide Hashable, HoldsBodies, AnchorId, Lists, SpendOf, IssuanceOf, NonceOf;
    M.AnchorKind(env, td, tx.entries, i);
  }

  lemma {:induction false} ToMuxPosition(env: Env, td: TxData, value: AssetAmount, ordinal: nat)
    ensures ToMux(env, td, value, ordinal).Some? && ToMux(env, td, value, ordinal).value.position == ordinal
  {
  }

  lemma {:induction false} KeyIsId(env: Env, td: TxData, tx: Tx, id: Hash)
    requires MappedEntries(env, td, tx.entries) && id in tx.entries
    ensures env.EntryId(tx.entries[id]) == id && HoldsBodies(env, td, tx.entries)
  {
    hide Bodies, SpendOf, IssuanceOf, NonceOf;
  }

  // ---------------------------------------------------------------- the signature hash

  /** The hash function does not give the two strings the same hash unless they are the same. */
  predicate Separates(sha3: bytes -> Hash, a: bytes, b: bytes)
  {
    sha3(a) == sha3(b) ==> a == b
  }

  /** The contexts of two entries have the same signature hash exactly when both identifiers agree. */
  lemma {:induction false} SigHashBinds(env: Env, c: Crypto, tx: Tx, e: Entry, p: Program, args: seq<bytes>,
                                        tx': Tx, e': Entry, p': Program, args': seq<bytes>)
    requires HasHeader(tx) && HasHeader(tx') && Separates(c.sha3, env.EntryId(e) + tx.id, env.EntryId(e') + tx'.id)
    ensures NewTxVMContext(env, c, tx, e, p, args).txSigHash == NewTxVMContext(env, c, tx', e', p', args').txSigHash
       <==> env.EntryId(e) == env.EntryId(e') && tx.id == tx'.id
  {
    TwoHashes(env.EntryId(e), tx.id, env.EntryId(e'), tx'.id);
  }

  lemma {:induction false} TwoHashes(a: Hash, b: Hash, a': Hash, b': Hash)
    ensures a + b == a' + b' <==> a == a' && b == b'
  {
    assert (a + b)[..32] == a && (a' + b')[..32] == a' && (a + b)[32..] == b && (a' + b')[32..] == b';
  }

  /**
   * The signature program of a closed template for an input of one transaction, run in the context of an input of any
   * other: it leaves true if it is the same input of the same transaction, and otherwise fails or leaves false.
   */
  lemma {:induction false} ClosedSignatureBinds(env: Env, c: Crypto, tx: Tx, n: nat, t: W.Template,
                                                tx': Tx, e': Entry, p: Program, args: seq<bytes>, vm: Mc.VM)
    requires n < |tx.inputIds| && !t.allowAdditional && t.sigHash == SigHash(c, tx, n)
    requires HasHeader(tx') && Separates(c.sha3, tx.inputIds[n] + tx.id, env.EntryId(e') + tx'.id)
    requires W.AtStart(vm, W.SigItems(c.sha3, t)) && vm.runLimit >= 400
    ensures C.DecidesAll(vm, tx.inputIds[n] == env.EntryId(e') && tx.id == tx'.id,
                         O.Outcome(NewTxVMContext(env, c, tx', e', p, args), vm))
  {
    hide O.Outcome, Assembly.EncodeAll, C.DecidesAll;
    var x := NewTxVMContext(env, c, tx', e', p, args);
    W.ClosedProgramDecides(x, vm, t);
    TwoHashes(tx.inputIds[n], tx.id, env.EntryId(e'), tx'.id);
  }
}
