/**
 * One transaction that spends one output twice: two inputs with the same prevout and different reference data
 * have different identifiers, and the set of spent outputs names the prevout once.
 */
module DoubleSpend {
  import opened Basics
  import opened Entries
  import opened Opcodes
  import opened LegacyTx
  import opened StateValue
  import opened Ledger
  import P = PatriciaHistory
  import A = MappedAccept
  import V = Validation
  import B = Balance
  import TxMapper
  import M = MapTx
  import MV = MachineVerdicts
  import X = EntryContexts
  import EP = EntryPrograms
  import opened CryptoOps

  /** A spend of the output with this source, worth `amount`, locked with TRUE. */
  function SpendTrue(source: Hash, asset: AssetId, amount: nat, refDataHash: Hash, ref: bytes): TxInput
  {
    SpendInput(source, AssetAmount(asset, amount), 0, 1, [OP_TRUE], refDataHash, [], ref)
  }

  /** Two spends of that output, under two reference data, into one output of twice its value. */
  function Twice(source: Hash, asset: AssetId, amount: nat, refDataHash: Hash, ref0: bytes, ref1: bytes): TxData
  {
    TxData(1, [SpendTrue(source, asset, amount, refDataHash, ref0), SpendTrue(source, asset, amount, refDataHash, ref1)],
           [TxOutput(AssetAmount(asset, 2 * amount), 1, [OP_TRUE], [])], 0, 0, [])
  }

  /** The shape of the transaction, without its parts. */
  ghost predicate IsTwice(env: Env, td: TxData, amount: nat, asset: AssetId)
  {
    && td.version == 1 && td.minTime == 0 && td.maxTime == 0 && |td.inputs| == 2 && |td.outputs| == 1
    && (forall i :: 0 <= i < 2 ==>
          && td.inputs[i].SpendInput? && td.inputs[i].value == AssetAmount(asset, amount)
          && td.inputs[i].vmVersion == 1 && td.inputs[i].controlProgram == [OP_TRUE] && td.inputs[i].arguments == [])
    && PrevoutEntry(td.inputs[0]) == PrevoutEntry(td.inputs[1])
    && env.hashData(td.inputs[0].referenceData) != env.hashData(td.inputs[1].referenceData)
    && td.outputs[0].value == AssetAmount(asset, 2 * amount) && td.outputs[0].controlProgram == [OP_TRUE]
    && 0 < amount && 2 * amount <= MAX_INT64
  }

  /** Programs consisting of TRUE pass for the mux and both spends. */
  ghost predicate TruePasses(env: Env, td: TxData, tx: Tx)
  {
    && env.verify(tx, MuxWith(env, td, Destinations(env, td)), Program(1, [OP_TRUE]), [])
    && forall i :: 0 <= i < |td.inputs| && td.inputs[i].SpendInput? && SpendId(env, td.inputs[i]) in tx.entries ==>
         env.verify(tx, tx.entries[SpendId(env, td.inputs[i])], Program(1, [OP_TRUE]), [])
  }

  // ---------------------------------------------------------------- it is valid

  lemma {:induction false} SpendIdsDiffer(env: Env, td: TxData, amount: nat, asset: AssetId)
    requires Hashable(env, td) && IsTwice(env, td, amount, asset)
    ensures SpendId(env, td.inputs[0]) != SpendId(env, td.inputs[1])
  {
    hide Bodies, CollisionFree, PrevoutId;
    var a, b := Body(SpendEntry(env, td.inputs[0], 0)), Body(SpendEntry(env, td.inputs[1], 0));
    TxMapper.InputBodyIn(env, td, 0);
    TxMapper.InputBodyIn(env, td, 1);
    assert a in InputBodies(env, td, td.inputs[0]) && b in InputBodies(env, td, td.inputs[1]);
    assert a.data != b.data;
    HashesDiffer(env, Bodies(env, td), a, b);
  }

  lemma {:induction false} HashesDiffer(env: Env, bodies: set<Entry>, a: Entry, b: Entry)
    requires CollisionFree(env, bodies) && a in bodies && b in bodies && a != b
    ensures env.hashOf(a) != env.hashOf(b)
  {
  }

  lemma {:induction false} KeepsBoth(env: Env, td: TxData, tx: Tx, amount: nat, asset: AssetId, i: nat)
    requires Hashable(env, td) && Mapped(env, td, tx) && IsTwice(env, td, amount, asset) && i < 2
    requires TruePasses(env, td, tx)
    ensures A.InputAccepted(env, td, tx, i)
  {
    hide Hashable, Mapped, SpendId;
    SpendIdsDiffer(env, td, amount, asset);
    var o := A.SpendEntryAt(env, td, tx, i);
    assert o < 2 && SpendId(env, td.inputs[o]) == SpendId(env, td.inputs[i]);
  }

  lemma {:induction false} Balances(amount: nat, asset: AssetId)
    requires 0 < amount && 2 * amount <= MAX_INT64
    ensures V.CheckParity([AssetAmount(asset, amount), AssetAmount(asset, amount)], [AssetAmount(asset, 2 * amount)]).Ok?
  {
    hide V.CheckParity;
    var v, w := AssetAmount(asset, amount), AssetAmount(asset, 2 * amount);
    B.ParityExact([v, v], [w]);
    forall a: AssetId ensures B.Total([v, v], a) == (if a == asset then 2 * amount else 0) && B.Total([v], a) == (if a == asset then amount else 0)
      && B.Total([w], a) == (if a == asset then 2 * amount else 0) && B.Total([], a) == 0
    {
      Totals(v, w, a);
    }
    assert [v, v][..1] == [v] && [v][..0] == [] && [w][..0] == [];
    assert B.SumsInRange([v]) && B.SumsInRange([v, v]);
    assert B.DiffsInRange([v, v], [w][..0]);
    assert B.DiffsInRange([v, v], [w]);
    assert [v, v][0].assetId == asset;
  }

  lemma {:induction false} Totals(v: AssetAmount, w: AssetAmount, a: AssetId)
    requires v.assetId == w.assetId && w.amount == 2 * v.amount && w.amount <= MAX_INT64
    ensures B.Total([], a) == 0
    ensures B.Total([v], a) == (if a == v.assetId then v.amount else 0)
    ensures B.Total([v, v], a) == (if a == v.assetId then w.amount else 0)
    ensures B.Total([w], a) == (if a == v.assetId then w.amount else 0)
  {
    assert [v, v][..1] == [v] && [v][..0] == [] && [w][..0] == [];
  }

  lemma {:induction false} IsValid(env: Env, td: TxData, tx: Tx, amount: nat, asset: AssetId)
    requires Hashable(env, td) && Mapped(env, td, tx) && IsTwice(env, td, amount, asset) && TruePasses(env, td, tx)
    ensures Graph(env, tx) && V.ValidateTx(env, tx).Ok?
  {
    hide Hashable, Mapped, Graph, V.ValidateTx, V.CheckParity, A.InputAccepted, SpendId;
    A.ValidateExact(env, td, tx);
    forall i | 0 <= i < |td.inputs| ensures A.InputAccepted(env, td, tx, i) {
      KeepsBoth(env, td, tx, amount, asset, i);
    }
    Balances(amount, asset);
    var v := AssetAmount(asset, amount);
    assert A.InputValues(env, td) == [v, v];
    assert A.OutputValues(td) == [AssetAmount(asset, 2 * amount)];
  }

  // ---------------------------------------------------------------- it applies

  lemma {:induction false} TwoAreNotOne(s: seq<Hash>, h: Hash)
    requires |s| >= 2 && s[0] != s[1]
    ensures exists x :: x in s && x != h
  {
    if s[0] != h { assert s[0] in s; } else { assert s[1] in s; }
  }

  lemma {:induction false} ListsOne(s: seq<Hash>, h: Hash)
    requires Lists(s, {h})
    ensures s == [h]
  {
    assert h in s;
    if |s| >= 2 { TwoAreNotOne(s, h); }
  }

  lemma {:induction false} FirstIsIn(s: seq<Hash>)
    requires s != []
    ensures exists x :: x in s
  {
    assert s[0] in s;
  }

  lemma {:induction false} ListsNone(s: seq<Hash>)
    requires Lists(s, {})
    ensures s == []
  {
    if s != [] { FirstIsIn(s); }
  }

  lemma {:induction false} AppliesWithoutError(env: Env, td: TxData, tx: Tx, s: State, amount: nat, asset: AssetId)
    requires Mapped(env, td, tx) && IsTwice(env, td, amount, asset) && Valid(s) && PrevoutId(env, td.inputs[0]) in IdsOf(s)
    ensures ApplyTx(s, tx).err.None?
  {
    hide MappedEntries, PrevoutEntry, Ids, IdTree, P.Contains, P.Delete;
    var h := PrevoutId(env, td.inputs[0]);
    assert PrevoutId(env, td.inputs[1]) == h;
    assert SpentIds(env, td) == {h};
    assert NonceIds(env, td) == {};
    ListsOne(tx.spentOutputIds, h);
    ListsNone(tx.nonceIds);
    SpendsPresent(s, tx, h);
  }

  lemma {:induction false} SpendsPresent(s: State, tx: Tx, h: Hash)
    requires Valid(s) && h in IdsOf(s) && tx.spentOutputIds == [h] && tx.nonceIds == []
    ensures ApplyTx(s, tx).err.None?
  {
    hide Ids, IdTree, P.Contains, P.Delete, AddOutputs;
    TreeIsIdSet(s.tree, h);
    assert [h][..0] == [];
    assert RemoveSpent(s, []) == Applied(s, None);
    assert ApplyNonces(s, tx, []) == Applied(s, None);
  }

  // ---------------------------------------------------------------- it makes value

  lemma {:induction false} RepeatsOnce(env: Env, td: TxData, amount: nat, asset: AssetId)
    requires IsTwice(env, td, amount, asset)
    ensures Repeated(env, td, 2, asset) == amount && IssuedTotal(env, td, 2, asset) == 0 && RetiredTotal(td, 1, asset) == 0
    ensures !SpendsOnce(env, td, 2)
  {
    hide PrevoutEntry;
    assert SpentSet(env, td, 0) == {};
    assert PrevoutId(env, td.inputs[0]) in SpentSet(env, td, 1);
    assert Repeats(env, td, 1) && !Repeats(env, td, 0);
    assert Repeated(env, td, 1, asset) == 0;
    assert IssuedTotal(env, td, 1, asset) == 0;
    assert RetiredTotal(td, 0, asset) == 0;
  }

  /**
   * Such a transaction is valid and applies wherever its prevout is in the tree, and afterwards the tree holds
   * `amount` more of the asset than before, though nothing was issued.
   */
  lemma {:induction false} SpendingTwiceMakesValue(env: Env, outputs: set<Entry>, s: State, td: TxData, tx: Tx, amount: nat, asset: AssetId)
    requires Hashable(env, td) && Mapped(env, td, tx) && IsTwice(env, td, amount, asset) && TruePasses(env, td, tx)
    requires Valid(s) && PrevoutId(env, td.inputs[0]) in IdsOf(s) && ResultId(env, td, 0) !in IdsOf(s)
    requires KnowsOutputs(env, td, outputs)
    ensures Applies(env, outputs, s, td, tx) && !SpendsOnce(env, td, |td.inputs|)
    ensures IssuedTotal(env, td, |td.inputs|, asset) == 0
    ensures Sum(env, outputs, IdsOf(ApplyTx(s, tx).state), asset) == Sum(env, outputs, IdsOf(s), asset) + amount
  {
    hide Hashable, Mapped, Graph, V.ValidateTx, Sum, IdsOf, Valid, ApplyTx, KnowsOutputs, Repeated, IssuedTotal, RetiredTotal, SpendsOnce, PrevoutId, ResultId;
    IsValid(env, td, tx, amount, asset);
    AppliesWithoutError(env, td, tx, s, amount, asset);
    RepeatsOnce(env, td, amount, asset);
    assert NewSet(env, td, 1) <= {ResultId(env, td, 0)};
    assert SmallAmounts(td);
    TxConserves(env, outputs, s, td, tx, asset);
  }

  // ---------------------------------------------------------------- with the machine, and in full

  /** With the machine's verdicts the programs need no assumption: TRUE passes. */
  lemma {:induction false} MachinePassesTrue(env: Env, c: Crypto, td: TxData, tx: Tx, amount: nat, asset: AssetId)
    requires MV.UsesMachine(env, c) && Hashable(env, td) && Mapped(env, td, tx) && IsTwice(env, td, amount, asset)
    ensures TruePasses(env, td, tx)
  {
    hide Hashable, MappedEntries, SpendId, MV.MachineAccepts, MuxWith, PrevoutId;
    MV.HeaderIs(env, td, tx);
    MV.MuxIsMux(env, td);
    MV.MuxPasses(env, c, tx, MuxWith(env, td, Destinations(env, td)));
    forall i | 0 <= i < |td.inputs| && td.inputs[i].SpendInput? && SpendId(env, td.inputs[i]) in tx.entries
      ensures env.verify(tx, tx.entries[SpendId(env, td.inputs[i])], Program(1, [OP_TRUE]), [])
    {
      SpendIsWhole(env, td, tx, i);
      TrueAccepted(env, c, tx, tx.entries[SpendId(env, td.inputs[i])]);
    }
  }

  lemma {:induction false} TrueAccepted(env: Env, c: Crypto, tx: Tx, e: Entry)
    requires X.HasHeader(tx) && X.Whole(tx, e)
    ensures MV.MachineAccepts(env, c, tx, e, Program(1, [OP_TRUE]), [])
  {
    EP.TrueProgramPasses(X.NewTxVMContext(env, c, tx, e, Program(1, [OP_TRUE]), []));
  }

  lemma {:induction false} SpendIsWhole(env: Env, td: TxData, tx: Tx, i: nat)
    requires Hashable(env, td) && Mapped(env, td, tx) && i < |td.inputs| && td.inputs[i].SpendInput?
    ensures SpendId(env, td.inputs[i]) in tx.entries && X.Whole(tx, tx.entries[SpendId(env, td.inputs[i])])
  {
    hide Hashable, SpendId, PrevoutId, LastSpend, SpendAnchored, HoldsBodies, SpendOf, IssuanceOf, NonceOf;
    var o := A.SpendEntryAt(env, td, tx, i);
    M.PrevoutAt(env, td, tx.entries, o);
  }

  // A complete instance: hash functions that tell the six entries apart, and the state with one output.

  function Mark(n: byte): Hash
  {
    [n, 0, 0, 0, 0, 0, 0, 0, 0, 0, 0, 0, 0, 0, 0, 0, 0, 0, 0, 0, 0, 0, 0, 0, 0, 0, 0, 0, 0, 0, 0, 0]
  }

  function HashOf(e: Entry): Hash
  {
    match e
    case TxHeader(_, _, _, _, _, _) => Mark(1)
    case Mux(_, _, _, _, _) => Mark(2)
    case Spend(_, data, _, _, _, _, _) => if data == Mark(8) then Mark(3) else Mark(4)
    case Output(source, _, _, _, _) => if source.Some? && source.value.ref == Some(Mark(2)) then Mark(6) else Mark(5)
    case _ => Mark(10)
  }

  const ENV: Env := Env(
    HashOf, (b: bytes) => if b == [] then Mark(8) else Mark(7), (_: AssetDefinition) => Mark(9),
    (_: Tx, _: Entry, _: Program, _: seq<bytes>) => true, Mark(12))

  const ASSET: AssetId := Mark(9)

  const TD: TxData := Twice(Mark(11), ASSET, 1, Mark(8), [], [1])

  lemma {:induction false} InstanceBodies(b: Entry)
    requires b in Bodies(ENV, TD)
    ensures b == Body(PrevoutEntry(TD.inputs[0])) || b == Body(SpendEntry(ENV, TD.inputs[0], 0)) || b == Body(SpendEntry(ENV, TD.inputs[1], 0))
         || b == Body(ResultEntry(ENV, TD, 0)) || b == Body(MuxEntry(ENV, TD)) || b == HeaderEntry(ENV, TD)
  {
    hide SpendEntry, ResultEntry, MuxEntry, HeaderEntry;
    SamePrevout();
    if i :| 0 <= i < |TD.inputs| && b in InputBodies(ENV, TD, TD.inputs[i]) {
      assert i == 0 || i == 1;
    }
  }

  lemma {:induction false} SamePrevout()
    ensures PrevoutEntry(TD.inputs[0]) == PrevoutEntry(TD.inputs[1])
  {
  }

  lemma {:induction false} InstanceHashes()
    ensures ENV.hashOf(Body(PrevoutEntry(TD.inputs[0]))) == Mark(5)
    ensures ENV.hashOf(Body(SpendEntry(ENV, TD.inputs[0], 0))) == Mark(3) && ENV.hashOf(Body(SpendEntry(ENV, TD.inputs[1], 0))) == Mark(4)
    ensures ENV.hashOf(Body(MuxEntry(ENV, TD))) == Mark(2) && ENV.hashOf(Body(ResultEntry(ENV, TD, 0))) == Mark(6)
    ensures ENV.hashOf(HeaderEntry(ENV, TD)) == Mark(1)
  {
    PrevoutHash();
    SpendHashes();
    ResultHash();
  }

  lemma {:induction false} PrevoutHash()
    ensures ENV.hashOf(Body(PrevoutEntry(TD.inputs[0]))) == Mark(5)
  {
    hide Mark;
    MarksDiffer();
  }

  lemma {:induction false} SpendHashes()
    ensures ENV.hashOf(Body(SpendEntry(ENV, TD.inputs[0], 0))) == Mark(3) && ENV.hashOf(Body(SpendEntry(ENV, TD.inputs[1], 0))) == Mark(4)
  {
    hide Mark, PrevoutId;
    MarksDiffer();
  }

  lemma {:induction false} ResultHash()
    ensures ENV.hashOf(Body(MuxEntry(ENV, TD))) == Mark(2) && ENV.hashOf(HeaderEntry(ENV, TD)) == Mark(1)
    ensures ENV.hashOf(Body(ResultEntry(ENV, TD, 0))) == Mark(6)
  {
    hide Mark, MuxSources, ResultIds;
    assert MuxId(ENV, TD) == Mark(2);
    assert !IsUnspendable([OP_TRUE]);
  }

  lemma {:induction false} MarksDiffer()
    ensures forall m: byte, n: byte :: Mark(m) == Mark(n) ==> m == n
    ensures forall n: byte :: Mark(n) == ZERO_HASH ==> n == 0
  {
    forall m: byte, n: byte | Mark(m) == Mark(n) ensures m == n {
      assert Mark(m)[0] == m && Mark(n)[0] == n;
    }
    forall n: byte | Mark(n) == ZERO_HASH ensures n == 0 {
      assert Mark(n)[0] == n && ZERO_HASH[0] == 0;
    }
  }

  lemma {:induction false} InstanceIsHashable()
    ensures Hashable(ENV, TD)
  {
    hide Bodies, Mark, SpendEntry, ResultEntry, MuxEntry, HeaderEntry, PrevoutEntry, ENV, TD;
    InstanceHashes();
    MarksDiffer();
    forall a, b | a in Bodies(ENV, TD) && b in Bodies(ENV, TD) && ENV.hashOf(a) == ENV.hashOf(b) ensures a == b {
      InstanceBodies(a);
      InstanceBodies(b);
    }
    forall b | b in Bodies(ENV, TD) ensures ENV.hashOf(b) != ZERO_HASH {
      InstanceBodies(b);
    }
  }

  /** The entries of the outputs the instance spends and creates. */
  ghost function Known(): set<Entry>
  {
    {Body(PrevoutEntry(TD.inputs[0])), Body(ResultEntry(ENV, TD, 0))}
  }

  /** The state after the output that will be spent twice was made. */
  function Before(): State
  {
    State(Some(P.Insert(None, Mark(5)).tree), map[])
  }

  lemma {:induction false} BeforeHolds()
    ensures Valid(Before()) && IdsOf(Before()) == {Mark(5)}
  {
    hide Ids, IdTree, P.Insert, Mark;
    NothingHeld();
    TreeIsIdSet(None, Mark(5));
  }

  lemma {:induction false} NothingHeld()
    ensures IdTree(None) && Ids(None) == {}
  {
  }

  lemma {:induction false} InstanceIsTwice()
    ensures IsTwice(ENV, TD, 1, ASSET)
  {
    hide Mark;
    MarksDiffer();
    SamePrevout();
  }

  lemma {:induction false} InstanceKnows()
    ensures KnowsOutputs(ENV, TD, Known())
  {
    hide Mark, PrevoutEntry, ResultEntry, ENV, TD, CollisionFree;
    KnownApart();
    SamePrevout();
    TwoInputs();
  }

  lemma {:induction false} TwoApart(env: Env, a: Entry, b: Entry)
    requires env.hashOf(a) != env.hashOf(b)
    ensures CollisionFree(env, {a, b})
  {
  }

  lemma {:induction false} KnownApart()
    ensures CollisionFree(ENV, Known())
  {
    hide Mark, ENV, TD, ResultEntry, PrevoutEntry, CollisionFree;
    TwoInputs();
    PrevoutHash();
    ResultHash();
    MarksDiffer();
    TwoApart(ENV, Body(PrevoutEntry(TD.inputs[0])), Body(ResultEntry(ENV, TD, 0)));
  }

  lemma {:induction false} TwoInputs()
    ensures |TD.inputs| == 2 && |TD.outputs| == 1 && TD.inputs[0].SpendInput? && TD.inputs[1].SpendInput?
  {
  }

  /**
   * The instance, mapped by MapTx: it is valid and applies in a state that holds one unit of the asset, and the
   * state after it holds two, though nothing was issued.
   */
  method SpendOneTwice() returns (tx: Tx)
    ensures Valid(Before()) && Applies(ENV, Known(), Before(), TD, tx) && !SpendsOnce(ENV, TD, 2)
    ensures Sum(ENV, Known(), IdsOf(Before()), ASSET) == 1
    ensures Sum(ENV, Known(), IdsOf(ApplyTx(Before(), tx).state), ASSET) == 2
  {
    hide Hashable, Mapped, IsTwice, Applies, Sum, KnowsOutputs, ApplyTx, Valid, IdsOf, SpendsOnce, Known, Before, Mark, ENV, TD;
    InstanceIsHashable();
    tx := M.MapTx(ENV, TD);
    InstanceIsTwice();
    InstanceKnows();
    BeforeHolds();
    InstanceStarts(tx);
    SpendingTwiceMakesValue(ENV, Known(), Before(), TD, tx, 1, ASSET);
  }

  lemma {:induction false} InstanceStarts(tx: Tx)
    ensures |TD.inputs| == 2 && |TD.outputs| == 1 && TD.inputs[0].SpendInput?
    ensures TruePasses(ENV, TD, tx)
    ensures PrevoutId(ENV, TD.inputs[0]) == Mark(5) && ResultId(ENV, TD, 0) == Mark(6) && Mark(5) != Mark(6)
    ensures Sum(ENV, Known(), {Mark(5)}, ASSET) == 1
  {
    hide Mark, MuxWith, ResultEntry, SpendEntry;
    InstanceHashes();
    MarksDiffer();
    assert {Mark(5)} - {Mark(5)} == {};
    WorthOne();
  }

  lemma {:induction false} WorthOne()
    ensures ValueOf(ENV, Known(), Mark(5), ASSET) == 1
  {
    hide Mark, ResultEntry, KnowsOutputs, ValueOf;
    PrevoutHash();
    KnownApart();
    ValueOfOutput(ENV, Known(), Body(PrevoutEntry(TD.inputs[0])), ASSET);
  }
}
