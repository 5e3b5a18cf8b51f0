/**
  Conservation of value. The tree holds identifiers only; what an identifier is worth is fixed by the output
  entry it is the hash of. Over any run of blocks the value of the outputs in the tree is what was issued minus
  what was retired, plus exactly what inputs that repeat a spent output claim a second time.
 */
module Ledger {
  import opened Basics
  import opened Entries
  import opened LegacyTx
  import opened StateValue
  import PatriciaShape
  import TxMapper
  import G = MappedValid
  import A = MappedAccept
  import V = Validation
  import Balance

  // ---------------------------------------------------------------- value of identifiers

  function Amount(v: AssetAmount, a: AssetId): nat
  {
    if v.assetId == a then v.amount else 0
  }

  /** What an output entry is worth in one asset. */
  function Worth(b: Entry, a: AssetId): nat
  {
    if b.Output? && b.source.Some? && b.source.value.value.Some? then Amount(b.source.value.value.value, a) else 0
  }

  /** What an identifier is worth, given the output entries that exist. */
  ghost function ValueOf(env: Env, outputs: set<Entry>, h: Hash, a: AssetId): nat
  {
    if b :| b in outputs && env.hashOf(b) == h then Worth(b, a) else 0
  }

  lemma {:induction false} ValueOfOutput(env: Env, outputs: set<Entry>, b: Entry, a: AssetId)
    requires CollisionFree(env, outputs) && b in outputs
    ensures ValueOf(env, outputs, env.hashOf(b), a) == Worth(b, a)
  {
  }

  /** The value of one asset held by a set of identifiers. */
  ghost function Sum(env: Env, outputs: set<Entry>, ids: set<Hash>, a: AssetId): nat
  {
    if ids == {} then 0
    else
      var h :| h in ids;
      ValueOf(env, outputs, h, a) + Sum(env, outputs, ids - {h}, a)
  }

  lemma {:induction false} SumRemove(env: Env, outputs: set<Entry>, ids: set<Hash>, h: Hash, a: AssetId)
    requires h in ids
    ensures Sum(env, outputs, ids, a) == ValueOf(env, outputs, h, a) + Sum(env, outputs, ids - {h}, a)
    decreases |ids|
  {
    hide ValueOf;
    var x :| x in ids && Sum(env, outputs, ids, a) == ValueOf(env, outputs, x, a) + Sum(env, outputs, ids - {x}, a);
    if x != h {
      SumRemove(env, outputs, ids - {x}, h, a);
      SumRemove(env, outputs, ids - {h}, x, a);
      assert ids - {x} - {h} == ids - {h} - {x};
    }
  }

  lemma {:induction false} SumAdd(env: Env, outputs: set<Entry>, ids: set<Hash>, h: Hash, a: AssetId)
    ensures Sum(env, outputs, ids + {h}, a) == Sum(env, outputs, ids, a) + (if h in ids then 0 else ValueOf(env, outputs, h, a))
  {
    hide ValueOf;
    if h in ids {
      assert ids + {h} == ids;
    } else {
      SumRemove(env, outputs, ids + {h}, h, a);
      assert ids + {h} - {h} == ids;
    }
  }

  lemma {:induction false} SumUnion(env: Env, outputs: set<Entry>, x: set<Hash>, y: set<Hash>, a: AssetId)
    requires x !! y
    ensures Sum(env, outputs, x + y, a) == Sum(env, outputs, x, a) + Sum(env, outputs, y, a)
    decreases |y|
  {
    hide ValueOf;
    if y == {} {
      assert x + y == x;
    } else {
      var h :| h in y;
      SumUnion(env, outputs, x, y - {h}, a);
      SumAdd(env, outputs, x + (y - {h}), h, a);
      SumAdd(env, outputs, y - {h}, h, a);
      assert x + (y - {h}) + {h} == x + y;
      assert y - {h} + {h} == y;
    }
  }

  // ---------------------------------------------------------------- value claimed by a transaction

  function SpentTotal(td: TxData, n: nat, a: AssetId): nat
    requires n <= |td.inputs|
  {
    if n == 0 then 0
    else SpentTotal(td, n - 1, a) + (if td.inputs[n - 1].SpendInput? then Amount(td.inputs[n - 1].value, a) else 0)
  }

  function IssuedTotal(env: Env, td: TxData, n: nat, a: AssetId): nat
    requires n <= |td.inputs|
  {
    if n == 0 then 0
    else IssuedTotal(env, td, n - 1, a) +
         (if td.inputs[n - 1].IssuanceInput? then Amount(IssuedValue(env, td.inputs[n - 1]), a) else 0)
  }

  function KeptTotal(td: TxData, n: nat, a: AssetId): nat
    requires n <= |td.outputs|
  {
    if n == 0 then 0
    else KeptTotal(td, n - 1, a) +
         (if IsUnspendable(td.outputs[n - 1].controlProgram) then 0 else Amount(td.outputs[n - 1].value, a))
  }

  function RetiredTotal(td: TxData, n: nat, a: AssetId): nat
    requires n <= |td.outputs|
  {
    if n == 0 then 0
    else RetiredTotal(td, n - 1, a) +
         (if IsUnspendable(td.outputs[n - 1].controlProgram) then Amount(td.outputs[n - 1].value, a) else 0)
  }

  ghost function SpentSet(env: Env, td: TxData, n: nat): set<Hash>
    requires n <= |td.inputs|
  {
    set i | 0 <= i < n && td.inputs[i].SpendInput? :: PrevoutId(env, td.inputs[i])
  }

  /** A spend of an output that an earlier input of the same transaction already spends. */
  ghost predicate Repeats(env: Env, td: TxData, i: nat)
    requires i < |td.inputs|
  {
    td.inputs[i].SpendInput? && PrevoutId(env, td.inputs[i]) in SpentSet(env, td, i)
  }

  /** The value claimed by repeated spends. */
  ghost function Repeated(env: Env, td: TxData, n: nat, a: AssetId): nat
    requires n <= |td.inputs|
  {
    if n == 0 then 0
    else Repeated(env, td, n - 1, a) + (if Repeats(env, td, n - 1) then Amount(td.inputs[n - 1].value, a) else 0)
  }

  ghost function NewSet(env: Env, td: TxData, n: nat): set<Hash>
    requires n <= |td.outputs|
  {
    set j | 0 <= j < n && !IsUnspendable(td.outputs[j].controlProgram) :: ResultId(env, td, j)
  }

  predicate SmallAmounts(td: TxData)
  {
    && (forall i :: 0 <= i < |td.inputs| ==>
          match td.inputs[i]
          case SpendInput(_, v, _, _, _, _, _, _) => v.amount <= MAX_INT64
          case IssuanceInput(_, amount, _, _, _, _, _, _) => amount <= MAX_INT64
          case UnknownInput => true)
    && (forall j :: 0 <= j < |td.outputs| ==> td.outputs[j].value.amount <= MAX_INT64)
  }

  /** The output entries a transaction talks about: those it spends and those it creates. */
  ghost predicate KnowsOutputs(env: Env, td: TxData, outputs: set<Entry>)
  {
    && CollisionFree(env, outputs)
    && (forall i :: 0 <= i < |td.inputs| && td.inputs[i].SpendInput? ==> Body(PrevoutEntry(td.inputs[i])) in outputs)
    && (forall j :: 0 <= j < |td.outputs| && !IsUnspendable(td.outputs[j].controlProgram) ==>
          Body(ResultEntry(env, td, j)) in outputs)
  }

  // ---------------------------------------------------------------- the mux balance in these terms

  lemma {:induction false} InputsSplit(env: Env, td: TxData, n: nat, a: AssetId)
    requires A.AllKnown(td) && SmallAmounts(td) && n <= |td.inputs|
    ensures Balance.Total(A.InputValues(env, td)[..n], a) == SpentTotal(td, n, a) + IssuedTotal(env, td, n, a)
  {
    hide Definition;
    if n > 0 {
      InputsSplit(env, td, n - 1, a);
      var vs := A.InputValues(env, td);
      assert vs[..n][..n - 1] == vs[..n - 1];
      assert vs[n - 1] == A.InputValue(env, td.inputs[n - 1]);
    }
  }

  lemma {:induction false} OutputsSplit(td: TxData, n: nat, a: AssetId)
    requires SmallAmounts(td) && n <= |td.outputs|
    ensures Balance.Total(A.OutputValues(td)[..n], a) == KeptTotal(td, n, a) + RetiredTotal(td, n, a)
  {
    if n > 0 {
      OutputsSplit(td, n - 1, a);
      var vs := A.OutputValues(td);
      assert vs[..n][..n - 1] == vs[..n - 1];
    }
  }

  /** An accepted transaction takes in, by spending and issuing, what it gives out, kept or retired. */
  lemma {:induction false} TxBalanced(env: Env, td: TxData, tx: Tx, a: AssetId)
    requires Hashable(env, td) && Mapped(env, td, tx) && Graph(env, tx) && V.ValidateTx(env, tx).Ok?
    requires td.version == 1 && SmallAmounts(td)
    ensures SpentTotal(td, |td.inputs|, a) + IssuedTotal(env, td, |td.inputs|, a)
         == KeptTotal(td, |td.outputs|, a) + RetiredTotal(td, |td.outputs|, a)
  {
    hide Hashable, Mapped, Graph, V.ValidateTx, A.InputsAccepted, V.CheckParity;
    A.ValidateExact(env, td, tx);
    var ins, outs := A.InputValues(env, td), A.OutputValues(td);
    Balance.ParityExact(ins, outs);
    InputsSplit(env, td, |td.inputs|, a);
    OutputsSplit(td, |td.outputs|, a);
    assert ins[..|td.inputs|] == ins && outs[..|td.outputs|] == outs;
    assert Balance.Total(ins, a) == Balance.Total(outs, a);
  }

  // ---------------------------------------------------------------- sums over the identifiers of a transaction

  lemma {:induction false} SumNone(env: Env, outputs: set<Entry>, a: AssetId)
    ensures Sum(env, outputs, {}, a) == 0
  {
  }

  lemma {:induction false} SpentSum(env: Env, td: TxData, outputs: set<Entry>, n: nat, a: AssetId)
    requires KnowsOutputs(env, td, outputs) && n <= |td.inputs|
    ensures SpentTotal(td, n, a) == Sum(env, outputs, SpentSet(env, td, n), a) + Repeated(env, td, n, a)
  {
    hide ValueOf, Sum;
    SumNone(env, outputs, a);
    if n > 0 {
      SpentSum(env, td, outputs, n - 1, a);
      var inp := td.inputs[n - 1];
      if inp.SpendInput? {
        var b := Body(PrevoutEntry(inp));
        ValueOfOutput(env, outputs, b, a);
        assert SpentSet(env, td, n) == SpentSet(env, td, n - 1) + {PrevoutId(env, inp)};
        SumAdd(env, outputs, SpentSet(env, td, n - 1), PrevoutId(env, inp), a);
      } else {
        assert SpentSet(env, td, n) == SpentSet(env, td, n - 1);
      }
    } else {
      assert SpentSet(env, td, n) == {};
    }
  }

  lemma {:induction false} NewSetStep(env: Env, td: TxData, j: nat)
    requires Hashable(env, td) && j < |td.outputs|
    ensures NewSet(env, td, j + 1) ==
      NewSet(env, td, j) + (if IsUnspendable(td.outputs[j].controlProgram) then {} else {ResultId(env, td, j)})
    ensures ResultId(env, td, j) !in NewSet(env, td, j)
  {
    hide Hashable, ResultId;
    forall k | 0 <= k < j
      ensures ResultId(env, td, k) != ResultId(env, td, j)
    {
      TxMapper.ResultDistinct(env, td, j, k);
    }
  }

  lemma {:induction false} ResultWorth(env: Env, td: TxData, outputs: set<Entry>, j: nat, a: AssetId)
    requires KnowsOutputs(env, td, outputs) && j < |td.outputs| && !IsUnspendable(td.outputs[j].controlProgram)
    ensures ValueOf(env, outputs, ResultId(env, td, j), a) == Amount(td.outputs[j].value, a)
  {
    hide MuxId, CollisionFree;
    ValueOfOutput(env, outputs, Body(ResultEntry(env, td, j)), a);
  }

  lemma {:induction false} KeptSum(env: Env, td: TxData, outputs: set<Entry>, n: nat, a: AssetId)
    requires Hashable(env, td) && KnowsOutputs(env, td, outputs) && n <= |td.outputs|
    ensures KeptTotal(td, n, a) == Sum(env, outputs, NewSet(env, td, n), a)
  {
    hide Hashable, ResultId, KnowsOutputs, ValueOf, Sum, NewSet;
    if n > 0 {
      KeptSum(env, td, outputs, n - 1, a);
      NewSetStep(env, td, n - 1);
      SumAdd(env, outputs, NewSet(env, td, n - 1), ResultId(env, td, n - 1), a);
      if IsUnspendable(td.outputs[n - 1].controlProgram) {
        assert NewSet(env, td, n) == NewSet(env, td, n - 1);
      } else {
        ResultWorth(env, td, outputs, n - 1, a);
      }
    } else {
      NothingNew(env, td, outputs, a);
    }
  }

  lemma {:induction false} NothingNew(env: Env, td: TxData, outputs: set<Entry>, a: AssetId)
    ensures Sum(env, outputs, NewSet(env, td, 0), a) == 0
  {
    assert NewSet(env, td, 0) == {};
  }

  // ---------------------------------------------------------------- one transaction

  /** The conditions on a transaction applied in a state. */
  ghost predicate Applies(env: Env, outputs: set<Entry>, s: State, td: TxData, tx: Tx)
    requires Valid(s)
  {
    && Hashable(env, td) && Mapped(env, td, tx) && Graph(env, tx) && V.ValidateTx(env, tx).Ok?
    && td.version == 1 && SmallAmounts(td) && KnowsOutputs(env, td, outputs)
    && ApplyTx(s, tx).err.None?
    && (IdsOf(s) - SpentSet(env, td, |td.inputs|)) !! NewSet(env, td, |td.outputs|)
  }

  /** What a mapped transaction removes from and adds to the tree. */
  lemma {:induction false} MappedEffect(env: Env, td: TxData, tx: Tx)
    requires Hashable(env, td) && Mapped(env, td, tx)
    ensures PatriciaShape.SetOf(tx.spentOutputIds) == SpentSet(env, td, |td.inputs|)
    ensures OutputsOf(tx, ResultIdsOf(tx)) == NewSet(env, td, |td.outputs|)
  {
    hide Hashable, HoldsBodies, SpendOf, IssuanceOf, NonceOf, PrevoutId, ResultId, NonceIds, MuxId;
    G.HeaderAt(env, td, tx);
    var ids, news := ResultIdsOf(tx), NewSet(env, td, |td.outputs|);
    assert ids == ResultIds(env, td);
    forall j | 0 <= j < |td.outputs|
      ensures IsOutput(tx, ids[j]) <==> !IsUnspendable(td.outputs[j].controlProgram)
    {
      G.ResultAt(env, td, tx, j);
    }
    forall h | h in OutputsOf(tx, ids)
      ensures h in news
    {
      var j :| 0 <= j < |ids| && ids[j] == h;
    }
    forall j | 0 <= j < |td.outputs| && !IsUnspendable(td.outputs[j].controlProgram)
      ensures ResultId(env, td, j) in OutputsOf(tx, ids)
    {
      assert ids[j] in ids;
    }
  }

  /** The exact change of value: issued minus retired, plus what repeated spends claim again. */
  lemma {:induction false} TxConserves(env: Env, outputs: set<Entry>, s: State, td: TxData, tx: Tx, a: AssetId)
    requires Valid(s) && Applies(env, outputs, s, td, tx)
    ensures Sum(env, outputs, IdsOf(ApplyTx(s, tx).state), a) + RetiredTotal(td, |td.outputs|, a)
         == Sum(env, outputs, IdsOf(s), a) + IssuedTotal(env, td, |td.inputs|, a) + Repeated(env, td, |td.inputs|, a)
  {
    hide Hashable, Mapped, Graph, V.ValidateTx, Sum, Valid, ApplyTx, IdsOf, SpentSet, NewSet, Repeated, SpentTotal, IssuedTotal, KeptTotal, RetiredTotal, KnowsOutputs, SmallAmounts;
    ApplyMeaning(s, tx);
    MappedEffect(env, td, tx);
    TxBalanced(env, td, tx, a);
    SpentSum(env, td, outputs, |td.inputs|, a);
    KeptSum(env, td, outputs, |td.outputs|, a);
    var spent, news, ids := SpentSet(env, td, |td.inputs|), NewSet(env, td, |td.outputs|), IdsOf(s);
    SumUnion(env, outputs, ids - spent, news, a);
    SumUnion(env, outputs, ids - spent, spent, a);
    assert ids - spent + spent == ids;
  }

  /** No output of positive value is spent twice in the transaction. */
  ghost predicate SpendsOnce(env: Env, td: TxData, n: nat)
    requires n <= |td.inputs|
  {
    forall i :: 0 <= i < n && Repeats(env, td, i) ==> td.inputs[i].value.amount == 0
  }

  ghost predicate NothingRepeated(env: Env, td: TxData, n: nat)
    requires n <= |td.inputs|
  {
    forall a: AssetId :: Repeated(env, td, n, a) == 0
  }

  lemma {:induction false} OnceIsZero(env: Env, td: TxData, n: nat, a: AssetId)
    requires n <= |td.inputs| && SpendsOnce(env, td, n)
    ensures Repeated(env, td, n, a) == 0
  {
    hide SpentSet;
    if n > 0 { OnceIsZero(env, td, n - 1, a); }
  }

  lemma {:induction false} RepeatCounts(env: Env, td: TxData, n: nat, i: nat)
    requires i < n <= |td.inputs| && Repeats(env, td, i)
    ensures Repeated(env, td, n, td.inputs[i].value.assetId) >= td.inputs[i].value.amount
  {
    if i < n - 1 { RepeatCounts(env, td, n - 1, i); }
  }

  /** Repeated spends claim nothing exactly when no output of positive value is spent twice. */
  lemma {:induction false} RepeatedIsZero(env: Env, td: TxData, n: nat)
    requires n <= |td.inputs|
    ensures NothingRepeated(env, td, n) <==> SpendsOnce(env, td, n)
  {
    hide Repeated, SpentSet;
    if SpendsOnce(env, td, n) {
      forall a: AssetId
        ensures Repeated(env, td, n, a) == 0
      {
        OnceIsZero(env, td, n, a);
      }
    }
    if NothingRepeated(env, td, n) {
      forall i | 0 <= i < n && Repeats(env, td, i)
        ensures td.inputs[i].value.amount == 0
      {
        RepeatCounts(env, td, n, i);
        assert Repeated(env, td, n, td.inputs[i].value.assetId) == 0;
      }
    }
  }

  /** An applied transaction changes the value of every asset by issued minus retired exactly when it spends no output of positive value twice. */
  lemma {:induction false} TxConservesExactly(env: Env, outputs: set<Entry>, s: State, td: TxData, tx: Tx)
    requires Valid(s) && Applies(env, outputs, s, td, tx)
    ensures SpendsOnce(env, td, |td.inputs|) <==> Conserved(env, outputs, s, td, tx)
  {
    hide Applies, Valid, Sum, Repeated, IdsOf, ApplyTx, SpendsOnce;
    RepeatedIsZero(env, td, |td.inputs|);
    forall a: AssetId
      ensures
        Sum(env, outputs, IdsOf(ApplyTx(s, tx).state), a) + RetiredTotal(td, |td.outputs|, a)
        == Sum(env, outputs, IdsOf(s), a) + IssuedTotal(env, td, |td.inputs|, a) + Repeated(env, td, |td.inputs|, a)
    {
      TxConserves(env, outputs, s, td, tx, a);
    }
    if Conserved(env, outputs, s, td, tx) {
      forall a: AssetId
        ensures Repeated(env, td, |td.inputs|, a) == 0
      {
        assert Sum(env, outputs, IdsOf(ApplyTx(s, tx).state), a) + RetiredTotal(td, |td.outputs|, a)
            == Sum(env, outputs, IdsOf(s), a) + IssuedTotal(env, td, |td.inputs|, a);
      }
    }
    if NothingRepeated(env, td, |td.inputs|) {
      forall a: AssetId
        ensures Sum(env, outputs, IdsOf(ApplyTx(s, tx).state), a) + RetiredTotal(td, |td.outputs|, a)
             == Sum(env, outputs, IdsOf(s), a) + IssuedTotal(env, td, |td.inputs|, a)
      {
        assert Repeated(env, td, |td.inputs|, a) == 0;
      }
    }
  }

  ghost predicate Conserved(env: Env, outputs: set<Entry>, s: State, td: TxData, tx: Tx)
    requires Valid(s)
  {
    forall a: AssetId ::
      Sum(env, outputs, IdsOf(ApplyTx(s, tx).state), a) + RetiredTotal(td, |td.outputs|, a)
      == Sum(env, outputs, IdsOf(s), a) + IssuedTotal(env, td, |td.inputs|, a)
  }

  // ---------------------------------------------------------------- whole runs

  /** A block of the run: its timestamp and its legacy transactions with their entry graphs. */
  datatype LedgerBlock = LedgerBlock(timestamp: nat, txs: seq<(TxData, Tx)>)

  function TxsOf(txs: seq<(TxData, Tx)>): seq<Tx>
  {
    seq(|txs|, i requires 0 <= i < |txs| => txs[i].1)
  }

  function Apply(s: State, b: LedgerBlock): (r: Applied)
    requires Valid(s)
    ensures Valid(r.state)
  {
    ApplyTxs(PruneNonces(s, b.timestamp), TxsOf(b.txs))
  }

  /** The state after a run of blocks from the empty ledger. */
  function After(blocks: seq<LedgerBlock>): (r: Applied)
    ensures Valid(r.state)
  {
    if blocks == [] then Applied(EMPTY, None)
    else
      var before := After(blocks[..|blocks| - 1]);
      if before.err.Some? then before else Apply(before.state, blocks[|blocks| - 1])
  }

  ghost predicate TxsApply(env: Env, outputs: set<Entry>, s: State, txs: seq<(TxData, Tx)>)
    requires Valid(s)
  {
    txs == [] ||
    (var shorter := txs[..|txs| - 1];
     && TxsApply(env, outputs, s, shorter) && ApplyTxs(s, TxsOf(shorter)).err.None?
     && Applies(env, outputs, ApplyTxs(s, TxsOf(shorter)).state, txs[|txs| - 1].0, txs[|txs| - 1].1))
  }

  /** Every transaction of the run meets the conditions in the state where it is applied. */
  ghost predicate RunApplies(env: Env, outputs: set<Entry>, blocks: seq<LedgerBlock>)
  {
    blocks == [] ||
    (var shorter, b := blocks[..|blocks| - 1], blocks[|blocks| - 1];
     && RunApplies(env, outputs, shorter) && After(shorter).err.None?
     && TxsApply(env, outputs, PruneNonces(After(shorter).state, b.timestamp), b.txs))
  }

  ghost function TxsChange(env: Env, txs: seq<(TxData, Tx)>, a: AssetId): int
  {
    if txs == [] then 0
    else
      var td := txs[|txs| - 1].0;
      TxsChange(env, txs[..|txs| - 1], a) + IssuedTotal(env, td, |td.inputs|, a) - RetiredTotal(td, |td.outputs|, a)
  }

  ghost function TxsRepeated(env: Env, txs: seq<(TxData, Tx)>, a: AssetId): nat
  {
    if txs == [] then 0
    else TxsRepeated(env, txs[..|txs| - 1], a) + Repeated(env, txs[|txs| - 1].0, |txs[|txs| - 1].0.inputs|, a)
  }

  /** Issued minus retired in a run. */
  ghost function NetIssued(env: Env, blocks: seq<LedgerBlock>, a: AssetId): int
  {
    if blocks == [] then 0
    else NetIssued(env, blocks[..|blocks| - 1], a) + TxsChange(env, blocks[|blocks| - 1].txs, a)
  }

  ghost function RunRepeated(env: Env, blocks: seq<LedgerBlock>, a: AssetId): nat
  {
    if blocks == [] then 0
    else RunRepeated(env, blocks[..|blocks| - 1], a) + TxsRepeated(env, blocks[|blocks| - 1].txs, a)
  }

  lemma {:induction false} TxsConserve(env: Env, outputs: set<Entry>, s: State, txs: seq<(TxData, Tx)>, a: AssetId)
    requires Valid(s) && TxsApply(env, outputs, s, txs)
    ensures ApplyTxs(s, TxsOf(txs)).err.None?
    ensures Sum(env, outputs, IdsOf(ApplyTxs(s, TxsOf(txs)).state), a)
         == Sum(env, outputs, IdsOf(s), a) + TxsChange(env, txs, a) + TxsRepeated(env, txs, a)
    decreases |txs|
  {
    hide Sum, Valid, IdsOf, ApplyTx, Repeated, IssuedTotal, RetiredTotal, Applies, TxsOf;
    if txs != [] {
      var shorter, td, tx := txs[..|txs| - 1], txs[|txs| - 1].0, txs[|txs| - 1].1;
      TxsOfStep(txs);
      TxsConserve(env, outputs, s, shorter, a);
      var before := ApplyTxs(s, TxsOf(shorter)).state;
      TxConserves(env, outputs, before, td, tx, a);
      AppliesNoError(env, outputs, before, td, tx);
    } else {
      TxsOfNone();
    }
  }

  lemma {:induction false} TxsOfNone()
    ensures TxsOf([]) == []
  {
  }

  lemma {:induction false} TxsOfStep(txs: seq<(TxData, Tx)>)
    requires txs != []
    ensures |TxsOf(txs)| == |txs| && TxsOf(txs)[..|txs| - 1] == TxsOf(txs[..|txs| - 1]) && TxsOf(txs)[|txs| - 1] == txs[|txs| - 1].1
  {
  }

  lemma {:induction false} AppliesNoError(env: Env, outputs: set<Entry>, s: State, td: TxData, tx: Tx)
    requires Valid(s) && Applies(env, outputs, s, td, tx)
    ensures ApplyTx(s, tx).err.None?
  {
  }

  /**
    Conservation over any run: for every asset, the value of the outputs in the tree is what was issued minus what
    was retired, plus what repeated spends claimed.
   */
  lemma {:induction false} LedgerConserves(env: Env, outputs: set<Entry>, blocks: seq<LedgerBlock>, a: AssetId)
    requires RunApplies(env, outputs, blocks)
    ensures After(blocks).err.None?
    ensures Sum(env, outputs, IdsOf(After(blocks).state), a) == NetIssued(env, blocks, a) + RunRepeated(env, blocks, a)
    decreases |blocks|
  {
    hide Sum, TxsApply, TxsChange, TxsRepeated;
    if blocks == [] {
      EmptyHoldsNothing(env, outputs, a);
    } else {
      var shorter, b := blocks[..|blocks| - 1], blocks[|blocks| - 1];
      LedgerConserves(env, outputs, shorter, a);
      TxsConserve(env, outputs, PruneNonces(After(shorter).state, b.timestamp), b.txs, a);
    }
  }

  lemma {:induction false} EmptyHoldsNothing(env: Env, outputs: set<Entry>, a: AssetId)
    ensures Valid(EMPTY) && Sum(env, outputs, IdsOf(EMPTY), a) == 0
  {
  }

  /** No transaction of the run spends an output of positive value twice. */
  ghost predicate RunSpendsOnce(env: Env, blocks: seq<LedgerBlock>)
  {
    forall b, t :: b in blocks && t in b.txs ==> SpendsOnce(env, t.0, |t.0.inputs|)
  }

  lemma {:induction false} TxsRepeatNothing(env: Env, txs: seq<(TxData, Tx)>, a: AssetId)
    requires forall t :: t in txs ==> SpendsOnce(env, t.0, |t.0.inputs|)
    ensures TxsRepeated(env, txs, a) == 0
    decreases |txs|
  {
    hide SpendsOnce, Repeated;
    if txs != [] {
      TxsRepeatNothing(env, txs[..|txs| - 1], a);
      var td := txs[|txs| - 1].0;
      assert txs[|txs| - 1] in txs;
      OnceIsZero(env, td, |td.inputs|, a);
    }
  }

  /** With that, the ledger holds exactly what was issued and not retired. */
  lemma {:induction false} LedgerHoldsWhatWasIssued(env: Env, outputs: set<Entry>, blocks: seq<LedgerBlock>, a: AssetId)
    requires RunApplies(env, outputs, blocks) && RunSpendsOnce(env, blocks)
    ensures Sum(env, outputs, IdsOf(After(blocks).state), a) == NetIssued(env, blocks, a)
  {
    hide Sum, RunApplies, After;
    LedgerConserves(env, outputs, blocks, a);
    NothingRepeatedInRun(env, blocks, a);
  }

  lemma {:induction false} NothingRepeatedInRun(env: Env, blocks: seq<LedgerBlock>, a: AssetId)
    requires RunSpendsOnce(env, blocks)
    ensures RunRepeated(env, blocks, a) == 0
    decreases |blocks|
  {
    hide SpendsOnce, TxsRepeated;
    if blocks != [] {
      NothingRepeatedInRun(env, blocks[..|blocks| - 1], a);
      assert blocks[|blocks| - 1] in blocks;
      TxsRepeatNothing(env, blocks[|blocks| - 1].txs, a);
    }
  }
}
