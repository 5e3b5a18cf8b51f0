/**
  protocol/block.go and ValidateBlock: a generator picks transactions for a block while applying them to a copy of
  the state; validators check the block and apply it to theirs. A candidate that fails inside ApplyTx is skipped
  but what it already did stays, so the two agree when every such failure leaves no trace.
 */
module Generator {
  import opened Basics
  import P = PatriciaHistory
  import opened Entries
  import S = StateValue
  import V = Validation
  import opened Snapshots

  const MAX_BLOCK_TXS := 10000

  /** What the block rules call outside this model: validation of one transaction and the Merkle root of a list. */
  datatype Rules = Rules(validTx: Tx -> bool, merkleRoot: seq<Tx> -> Hash)

  datatype BlockError =
    | NoPrevBlock | VersionRegression | MisorderedHeight | MismatchedBlock | MisorderedTime | NonemptyExt
    | BadTxVersion | UntimelyTx | InvalidTx | MismatchedMerkleRoot

  function Header(tx: Tx): Option<Entry>
  {
    if tx.id in tx.entries && tx.entries[tx.id].TxHeader? then Some(tx.entries[tx.id]) else None
  }

  function TxVersion(tx: Tx): nat
  {
    if Header(tx).Some? then Header(tx).value.version else 0
  }

  function MinTime(tx: Tx): nat
  {
    if Header(tx).Some? then Header(tx).value.minTimeMs else 0
  }

  function MaxTime(tx: Tx): nat
  {
    if Header(tx).Some? then Header(tx).value.maxTimeMs else 0
  }

  // ---------------------------------------------------------------- the validator

  function CheckAgainstPrev(b: S.Block, prev: S.Block): Option<BlockError>
  {
    if b.version < prev.version then Some(VersionRegression)
    else if b.height != prev.height + 1 then Some(MisorderedHeight)
    else if prev.id != b.previousBlockId then Some(MismatchedBlock)
    else if b.timestamp <= prev.timestamp then Some(MisorderedTime)
    else None
  }

  function CheckTx(rules: Rules, b: S.Block, tx: Tx): Option<BlockError>
  {
    if b.version == 1 && TxVersion(tx) != 1 then Some(BadTxVersion)
    else if MaxTime(tx) > 0 && b.timestamp > MaxTime(tx) then Some(UntimelyTx)
    else if MinTime(tx) > 0 && b.timestamp > 0 && b.timestamp < MinTime(tx) then Some(UntimelyTx)
    else if !rules.validTx(tx) then Some(InvalidTx)
    else None
  }

  function CheckTxs(rules: Rules, b: S.Block, txs: seq<Tx>): Option<BlockError>
  {
    if txs == [] then None
    else
      var before := CheckTxs(rules, b, txs[..|txs| - 1]);
      if before.Some? then before else CheckTx(rules, b, txs[|txs| - 1])
  }

  /** ValidateBlock */
  function ValidateBlock(rules: Rules, b: S.Block, prev: Option<S.Block>): Option<BlockError>
  {
    if b.height > 1 && prev.None? then Some(NoPrevBlock)
    else if b.height > 1 && CheckAgainstPrev(b, prev.value).Some? then CheckAgainstPrev(b, prev.value)
    else if b.version == 1 && !V.ExtHashOk(b.extHash) then Some(NonemptyExt)
    else if CheckTxs(rules, b, b.transactions).Some? then CheckTxs(rules, b, b.transactions)
    else if rules.merkleRoot(b.transactions) != b.transactionsRoot then Some(MismatchedMerkleRoot)
    else None
  }

  /** ApplyValidBlock: the new state, if the block applies and declares the right root. */
  function ApplyValidBlock(h: P.Hasher, s: S.State, b: S.Block): Option<S.State>
    requires S.Valid(s)
  {
    var r := S.ApplyBlock(s, b);
    if r.err.None? && b.assetsRoot == P.RootHash(h, r.state.tree) then Some(r.state) else None
  }

  // ---------------------------------------------------------------- the generator

  predicate Timely(tx: Tx, now: nat)
  {
    !(MinTime(tx) > 0 && MinTime(tx) > now) && !(MaxTime(tx) > 0 && MaxTime(tx) < now)
  }

  datatype Selection = Selection(state: S.State, included: seq<Tx>)

  /** The loop over the candidates: apply what passes the filters, keep what applied. */
  function Select(rules: Rules, now: nat, s: S.State, txs: seq<Tx>): (r: Selection)
    requires S.Valid(s)
    ensures S.Valid(r.state)
  {
    if txs == [] then Selection(s, [])
    else Consider(rules, now, Select(rules, now, s, txs[..|txs| - 1]), txs[|txs| - 1])
  }

  /** One candidate. */
  function Consider(rules: Rules, now: nat, before: Selection, tx: Tx): (r: Selection)
    requires S.Valid(before.state)
    ensures S.Valid(r.state)
  {
    if |before.included| >= MAX_BLOCK_TXS || !rules.validTx(tx) || !Timely(tx, now) then before
    else
      var r := S.ApplyTx(before.state, tx);
      Selection(r.state, if r.err.None? then before.included + [tx] else before.included)
  }

  /** The block for a previous block, without its identifier. */
  function NewBlock(rules: Rules, h: P.Hasher, prev: S.Block, now: nat, sel: Selection): S.Block
  {
    S.Block(1, prev.height + 1, ZERO_HASH, prev.id, now, rules.merkleRoot(sel.included), P.RootHash(h, sel.state.tree), None, sel.included)
  }

  // ---------------------------------------------------------------- failures that leave a trace

  /** ApplyTx stops at its very first step: the first nonce is refused, or there is none and the first prevout is missing. */
  predicate StopsAtOnce(s: S.State, tx: Tx)
    requires S.Valid(s)
  {
    if |tx.nonceIds| > 0 then tx.nonceIds[0] in s.nonces || S.Expiry(tx, tx.nonceIds[0]).None?
    else |tx.spentOutputIds| > 0 && (S.TreeIsIdSet(s.tree, tx.spentOutputIds[0]); !P.Contains(s.tree, tx.spentOutputIds[0]))
  }

  lemma {:induction false} NoncesGrow(s: S.State, tx: Tx, ids: seq<Hash>)
    ensures forall n :: n in s.nonces ==> n in S.ApplyNonces(s, tx, ids).state.nonces && S.ApplyNonces(s, tx, ids).state.nonces[n] == s.nonces[n]
    ensures ids != [] ==>
      if ids[0] in s.nonces || S.Expiry(tx, ids[0]).None? then
        S.ApplyNonces(s, tx, ids).err.Some? && S.ApplyNonces(s, tx, ids).state == s
      else ids[0] in S.ApplyNonces(s, tx, ids).state.nonces
    decreases |ids|
  {
    if ids != [] {
      var shorter := ids[..|ids| - 1];
      NoncesGrow(s, tx, shorter);
      if shorter == [] {
        assert S.ApplyNonces(s, tx, shorter) == S.Applied(s, None);
      } else {
        assert shorter[0] == ids[0];
      }
    }
  }

  lemma {:induction false} SpentShrinks(s: S.State, ids: seq<Hash>)
    requires S.Valid(s)
    ensures S.IdsOf(S.RemoveSpent(s, ids).state) <= S.IdsOf(s)
    ensures ids != [] ==>
      if ids[0] !in S.IdsOf(s) then S.RemoveSpent(s, ids).err.Some? && S.RemoveSpent(s, ids).state == s
      else ids[0] !in S.IdsOf(S.RemoveSpent(s, ids).state)
    decreases |ids|
  {
    hide S.Ids, S.IdTree, P.Contains, P.Delete;
    if ids != [] {
      var shorter, id := ids[..|ids| - 1], ids[|ids| - 1];
      SpentShrinks(s, shorter);
      S.TreeIsIdSet(S.RemoveSpent(s, shorter).state.tree, id);
      if shorter == [] {
        assert S.RemoveSpent(s, shorter) == S.Applied(s, None);
      } else {
        assert shorter[0] == ids[0];
      }
    }
  }

  /** A failed transaction leaves the state as it was exactly when it stops at its first step. */
  lemma {:induction false} CleanFailure(s: S.State, tx: Tx)
    requires S.Valid(s) && S.ApplyTx(s, tx).err.Some?
    ensures S.ApplyTx(s, tx).state == s <==> StopsAtOnce(s, tx)
  {
    hide S.ApplyNonces, S.RemoveSpent, S.Ids, S.IdTree, P.Contains, P.Delete;
    NoncesGrow(s, tx, tx.nonceIds);
    var nonces := S.ApplyNonces(s, tx, tx.nonceIds);
    if |tx.nonceIds| > 0 {
      if nonces.err.None? { SpentShrinks(nonces.state, tx.spentOutputIds); }
    } else {
      NoNonces(s, tx);
      SpentShrinks(s, tx.spentOutputIds);
      NoSpent(s);
      if |tx.spentOutputIds| > 0 { S.TreeIsIdSet(s.tree, tx.spentOutputIds[0]); }
    }
  }

  lemma {:induction false} NoNonces(s: S.State, tx: Tx)
    requires tx.nonceIds == []
    ensures S.ApplyNonces(s, tx, tx.nonceIds) == S.Applied(s, None)
  {
  }

  lemma {:induction false} NoSpent(s: S.State)
    requires S.Valid(s)
    ensures S.RemoveSpent(s, []) == S.Applied(s, None)
  {
  }

  /** Every candidate that passes the filters and then fails to apply stops at its first step. */
  ghost predicate FailsCleanly(rules: Rules, now: nat, s: S.State, txs: seq<Tx>)
    requires S.Valid(s)
  {
    txs == [] ||
    (var before := Select(rules, now, s, txs[..|txs| - 1]);
     var tx := txs[|txs| - 1];
     && FailsCleanly(rules, now, s, txs[..|txs| - 1])
     && (|before.included| < MAX_BLOCK_TXS && rules.validTx(tx) && Timely(tx, now) && S.ApplyTx(before.state, tx).err.Some? ==>
           StopsAtOnce(before.state, tx)))
  }

  /** Then the state the generator ends with is the one that applying the included transactions gives. */
  lemma {:induction false} SelectReplays(rules: Rules, now: nat, s: S.State, txs: seq<Tx>)
    requires S.Valid(s) && FailsCleanly(rules, now, s, txs)
    ensures
      var sel := Select(rules, now, s, txs);
      S.ApplyTxs(s, sel.included) == S.Applied(sel.state, None)
    decreases |txs|
  {
    hide S.ApplyTx, S.Valid, StopsAtOnce;
    if txs != [] {
      var tx := txs[|txs| - 1];
      SelectReplays(rules, now, s, txs[..|txs| - 1]);
      var before := Select(rules, now, s, txs[..|txs| - 1]);
      var r := S.ApplyTx(before.state, tx);
      if r.err.Some? {
        CleanFailure(before.state, tx);
      } else {
        assert (before.included + [tx])[..|before.included|] == before.included;
      }
    }
  }

  // ---------------------------------------------------------------- and only then

  /** The state that applying the included transactions gives, as far as they apply. */
  function Replayed(rules: Rules, now: nat, s: S.State, txs: seq<Tx>): S.Applied
    requires S.Valid(s)
  {
    S.ApplyTxs(s, Select(rules, now, s, txs).included)
  }

  /** No included transaction creates an output that the replayed tree already holds. */
  ghost predicate NeverRecreates(rules: Rules, now: nat, s: S.State, txs: seq<Tx>)
    requires S.Valid(s)
  {
    txs == [] ||
    (var shorter := txs[..|txs| - 1];
     var before := Select(rules, now, s, shorter);
     var tx := txs[|txs| - 1];
     && NeverRecreates(rules, now, s, shorter)
     && (|before.included| < MAX_BLOCK_TXS && rules.validTx(tx) && Timely(tx, now) && S.ApplyTx(before.state, tx).err.None? ==>
           S.OutputsOf(tx, S.ResultIdsOf(tx)) !! S.IdsOf(Replayed(rules, now, s, shorter).state)))
  }

  /** The generator's state has a nonce that the replay lacks, or lacks an output that the replay has. */
  ghost predicate Diverged(gen: S.State, replay: S.State)
    requires S.Valid(gen) && S.Valid(replay)
  {
    || (exists n :: n in gen.nonces && n !in replay.nonces)
    || (exists o :: o in S.IdsOf(replay) && o !in S.IdsOf(gen))
  }

  lemma {:induction false} NoncesApplied(s: S.State, tx: Tx, ids: seq<Hash>)
    ensures S.ApplyNonces(s, tx, ids).err.None? ==>
              && (forall n :: n in S.ApplyNonces(s, tx, ids).state.nonces <==> n in s.nonces || n in ids)
              && (forall n :: n in ids ==> n !in s.nonces)
    decreases |ids|
  {
    if ids != [] {
      NoncesApplied(s, tx, ids[..|ids| - 1]);
      assert ids == ids[..|ids| - 1] + [ids[|ids| - 1]];
    }
  }

  /** What an applied transaction does to the nonces. */
  lemma {:induction false} ApplyNoncesMeaning(s: S.State, tx: Tx)
    requires S.Valid(s) && S.ApplyTx(s, tx).err.None?
    ensures forall n :: n in S.ApplyTx(s, tx).state.nonces <==> n in s.nonces || n in tx.nonceIds
    ensures forall n :: n in tx.nonceIds ==> n !in s.nonces
  {
    hide S.ApplyNonces, S.RemoveSpent, S.AddOutputs, S.Ids, S.IdTree;
    NoncesApplied(s, tx, tx.nonceIds);
  }

  /** Applying a transaction to both sides keeps them apart, unless it creates what is missing. */
  lemma {:induction false} ApplyKeepsApart(gen: S.State, replay: S.State, tx: Tx)
    requires S.Valid(gen) && S.Valid(replay) && Diverged(gen, replay)
    requires S.ApplyTx(gen, tx).err.None? && S.ApplyTx(replay, tx).err.None?
    requires S.OutputsOf(tx, S.ResultIdsOf(tx)) !! S.IdsOf(replay)
    ensures Diverged(S.ApplyTx(gen, tx).state, S.ApplyTx(replay, tx).state)
  {
    hide S.ApplyTx, S.IdsOf, S.Valid, S.OutputsOf;
    ApplyNoncesMeaning(gen, tx);
    ApplyNoncesMeaning(replay, tx);
    S.ApplyMeaning(gen, tx);
    S.ApplyMeaning(replay, tx);
    var g, r := S.ApplyTx(gen, tx).state, S.ApplyTx(replay, tx).state;
    if n :| n in gen.nonces && n !in replay.nonces {
      assert n in g.nonces && n !in r.nonces;
    } else {
      var o :| o in S.IdsOf(replay) && o !in S.IdsOf(gen);
      assert o in S.IdsOf(r) && o !in S.IdsOf(g);
    }
  }

  /** A failed transaction only adds nonces and only removes outputs. */
  lemma {:induction false} FailureShrinks(s: S.State, tx: Tx)
    requires S.Valid(s) && S.ApplyTx(s, tx).err.Some?
    ensures forall n :: n in s.nonces ==> n in S.ApplyTx(s, tx).state.nonces
    ensures S.IdsOf(S.ApplyTx(s, tx).state) <= S.IdsOf(s)
  {
    hide S.ApplyNonces, S.RemoveSpent, S.Ids, S.IdTree;
    NoncesGrow(s, tx, tx.nonceIds);
    var nonces := S.ApplyNonces(s, tx, tx.nonceIds);
    if nonces.err.None? { SpentShrinks(nonces.state, tx.spentOutputIds); }
  }

  /** A failure that does not stop at once sets the two sides apart. */
  lemma {:induction false} TraceDiverges(s: S.State, tx: Tx)
    requires S.Valid(s) && S.ApplyTx(s, tx).err.Some? && !StopsAtOnce(s, tx)
    ensures Diverged(S.ApplyTx(s, tx).state, s)
  {
    hide S.ApplyNonces, S.RemoveSpent, S.Ids, S.IdTree, P.Contains;
    var f := S.ApplyTx(s, tx).state;
    NoncesGrow(s, tx, tx.nonceIds);
    var nonces := S.ApplyNonces(s, tx, tx.nonceIds);
    if |tx.nonceIds| > 0 {
      assert tx.nonceIds[0] in f.nonces && tx.nonceIds[0] !in s.nonces;
    } else {
      NoNonces(s, tx);
      NoSpent(s);
      SpentShrinks(s, tx.spentOutputIds);
      S.TreeIsIdSet(s.tree, tx.spentOutputIds[0]);
      assert tx.spentOutputIds[0] in S.IdsOf(s) && tx.spentOutputIds[0] !in S.IdsOf(f);
    }
  }

  lemma {:induction false} FailureKeepsApart(gen: S.State, replay: S.State, tx: Tx)
    requires S.Valid(gen) && S.Valid(replay) && Diverged(gen, replay) && S.ApplyTx(gen, tx).err.Some?
    ensures Diverged(S.ApplyTx(gen, tx).state, replay)
  {
    hide S.ApplyTx, S.IdsOf, S.Valid;
    FailureShrinks(gen, tx);
    var g := S.ApplyTx(gen, tx).state;
    if n :| n in gen.nonces && n !in replay.nonces {
      assert n in g.nonces;
    } else {
      var o :| o in S.IdsOf(replay) && o !in S.IdsOf(gen);
      assert o !in S.IdsOf(g);
    }
  }

  /** Once a candidate has failed half way, the replay fails or stays apart. */
  lemma {:induction false} UncleanDiverges(rules: Rules, now: nat, s: S.State, txs: seq<Tx>)
    requires S.Valid(s) && NeverRecreates(rules, now, s, txs) && !FailsCleanly(rules, now, s, txs)
    ensures var r := Replayed(rules, now, s, txs);
            r.err.Some? || Diverged(Select(rules, now, s, txs).state, r.state)
    decreases |txs|
  {
    hide S.ApplyTx, S.Valid, S.IdsOf, StopsAtOnce, Diverged, S.OutputsOf;
    var shorter, tx := txs[..|txs| - 1], txs[|txs| - 1];
    var before := Select(rules, now, s, shorter);
    var replay := Replayed(rules, now, s, shorter);
    if !FailsCleanly(rules, now, s, shorter) {
      UncleanDiverges(rules, now, s, shorter);
    } else {
      SelectReplays(rules, now, s, shorter);
    }
    if |before.included| < MAX_BLOCK_TXS && rules.validTx(tx) && Timely(tx, now) {
      var r := S.ApplyTx(before.state, tx);
      if r.err.Some? {
        if !FailsCleanly(rules, now, s, shorter) {
          if replay.err.None? { FailureKeepsApart(before.state, replay.state, tx); }
        } else {
          TraceDiverges(before.state, tx);
        }
      } else {
        assert (before.included + [tx])[..|before.included|] == before.included;
        if replay.err.None? && S.ApplyTx(replay.state, tx).err.None? {
          ApplyKeepsApart(before.state, replay.state, tx);
        }
      }
    }
  }

  lemma {:induction false} DivergedDiffers(gen: S.State, replay: S.State)
    requires S.Valid(gen) && S.Valid(replay) && Diverged(gen, replay)
    ensures gen != replay
  {
  }

  /** The generator's state is the one its block leads to if and only if no candidate failed half way. */
  lemma {:induction false} AgreementExact(rules: Rules, now: nat, s: S.State, txs: seq<Tx>)
    requires S.Valid(s) && NeverRecreates(rules, now, s, txs)
    ensures Replayed(rules, now, s, txs) == S.Applied(Select(rules, now, s, txs).state, None) <==> FailsCleanly(rules, now, s, txs)
  {
    hide S.ApplyTxs, S.Valid, Select, FailsCleanly, NeverRecreates, Diverged;
    if FailsCleanly(rules, now, s, txs) {
      SelectReplays(rules, now, s, txs);
    } else {
      UncleanDiverges(rules, now, s, txs);
      var r := Replayed(rules, now, s, txs);
      if r.err.None? { DivergedDiffers(Select(rules, now, s, txs).state, r.state); }
    }
  }

  lemma {:induction false} SelectedPass(rules: Rules, now: nat, s: S.State, txs: seq<Tx>)
    requires S.Valid(s)
    ensures forall t :: t in Select(rules, now, s, txs).included ==> t in txs && rules.validTx(t) && Timely(t, now)
    decreases |txs|
  {
    hide S.ApplyTx, S.Valid, Timely;
    if txs != [] {
      SelectedPass(rules, now, s, txs[..|txs| - 1]);
    }
  }

  lemma {:induction false} TimelyTxsPass(rules: Rules, b: S.Block, txs: seq<Tx>)
    requires forall t :: t in txs ==> rules.validTx(t) && Timely(t, b.timestamp) && TxVersion(t) == 1
    ensures CheckTxs(rules, b, txs).None?
    decreases |txs|
  {
    hide TxVersion, MinTime, MaxTime;
    if txs != [] {
      TimelyTxsPass(rules, b, txs[..|txs| - 1]);
      assert txs[|txs| - 1] in txs;
    }
  }

  /** The generated block passes validation. */
  lemma {:induction false} GeneratedIsValid(rules: Rules, h: P.Hasher, prev: S.Block, now: nat, s: S.State, txs: seq<Tx>)
    requires S.Valid(s) && prev.version <= 1 && prev.timestamp < now
    requires forall t :: t in txs ==> TxVersion(t) == 1
    ensures ValidateBlock(rules, NewBlock(rules, h, prev, now, Select(rules, now, s, txs)), Some(prev)).None?
  {
    hide S.Valid, TxVersion, Timely, P.RootHash;
    SelectedPass(rules, now, s, txs);
    var sel := Select(rules, now, s, txs);
    TimelyTxsPass(rules, NewBlock(rules, h, prev, now, sel), sel.included);
  }

  /** Generator and validator agree: the block is valid, applies, and both reach the same state. */
  lemma {:induction false} GeneratorAgrees(rules: Rules, h: P.Hasher, prev: S.Block, now: nat, s: S.State, txs: seq<Tx>)
    requires S.Valid(s) && prev.version <= 1 && prev.timestamp < now
    requires forall t :: t in txs ==> TxVersion(t) == 1
    requires FailsCleanly(rules, now, S.PruneNonces(s, now), txs)
    ensures
      var sel := Select(rules, now, S.PruneNonces(s, now), txs);
      var b := NewBlock(rules, h, prev, now, sel);
      && ValidateBlock(rules, b, Some(prev)).None?
      && ApplyValidBlock(h, s, b) == Some(sel.state)
  {
    hide TxVersion, Select, FailsCleanly, ValidateBlock, P.RootHash, S.ApplyTxs;
    var pruned := S.PruneNonces(s, now);
    GeneratedIsValid(rules, h, prev, now, pruned, txs);
    SelectReplays(rules, now, pruned, txs);
  }

  /** Spending an output that is there and then one that is not: the first is gone, and the transaction fails. */
  lemma {:induction false} HalfApplied(s: S.State, tx: Tx, present: Hash, missing: Hash)
    requires S.Valid(s) && present in S.IdsOf(s) && missing !in S.IdsOf(s)
    requires tx.nonceIds == [] && tx.spentOutputIds == [present, missing]
    ensures S.ApplyTx(s, tx) == S.Applied(s.(tree := P.Delete(s.tree, present)), Some(S.InvalidPrevout))
  {
    hide S.Ids;
    NoNonces(s, tx);
    var ids := tx.spentOutputIds;
    assert ids[..1] == [present] && ids[..1][..0] == [];
    NoSpent(s);
    S.TreeIsIdSet(s.tree, present);
    var one := S.RemoveSpent(s, ids[..1]);
    assert S.RemoveSpent(s, ids[..1][..0]) == S.Applied(s, None);
    assert one == S.Applied(s.(tree := P.Delete(s.tree, present)), None);
    S.TreeIsIdSet(one.state.tree, missing);
    assert S.RemoveSpent(s, ids) == S.Applied(one.state, Some(S.InvalidPrevout));
  }

  /** So a failed candidate can take outputs out of the generator's state. */
  lemma {:induction false} FailureLeavesTrace(s: S.State, tx: Tx, present: Hash, missing: Hash)
    requires S.Valid(s) && present in S.IdsOf(s) && missing !in S.IdsOf(s)
    requires tx.nonceIds == [] && tx.spentOutputIds == [present, missing]
    ensures S.ApplyTx(s, tx).err.Some? && present !in S.IdsOf(S.ApplyTx(s, tx).state)
  {
    hide S.Ids, S.ApplyTx, P.Delete;
    HalfApplied(s, tx, present, missing);
    S.TreeIsIdSet(s.tree, present);
  }

  /** Block by block: the generated block leads to the generator's own state if and only if no candidate failed half way. */
  lemma {:induction false} GeneratorAgreesExactly(rules: Rules, h: P.Hasher, prev: S.Block, now: nat, s: S.State, txs: seq<Tx>)
    requires S.Valid(s) && NeverRecreates(rules, now, S.PruneNonces(s, now), txs)
    ensures
      var sel := Select(rules, now, S.PruneNonces(s, now), txs);
      ApplyValidBlock(h, s, NewBlock(rules, h, prev, now, sel)) == Some(sel.state)
      <==> FailsCleanly(rules, now, S.PruneNonces(s, now), txs)
  {
    hide Select, FailsCleanly, NeverRecreates, P.RootHash, S.ApplyTxs;
    AgreementExact(rules, now, S.PruneNonces(s, now), txs);
  }

  /**
   * The failing case at the level of blocks: one candidate, which spends an output that is there and one that
   * is not. The generated block is empty, and the validator refuses it: it declares the root of a tree
   * without the output that was there.
   */
  lemma {:induction false} GeneratedBlockRefused(rules: Rules, h: P.Hasher, prev: S.Block, now: nat, s: S.State, tx: Tx, present: Hash, missing: Hash)
    requires S.Valid(s) && present in S.IdsOf(s) && missing !in S.IdsOf(s)
    requires rules.validTx(tx) && Timely(tx, now) && tx.nonceIds == [] && tx.spentOutputIds == [present, missing]
    requires P.RootHash(h, P.Delete(s.tree, present)) != P.RootHash(h, s.tree)
    ensures
      var sel := Select(rules, now, S.PruneNonces(s, now), [tx]);
      sel.included == [] && ApplyValidBlock(h, s, NewBlock(rules, h, prev, now, sel)) == None
  {
    hide P.RootHash, S.Ids, S.IdTree, P.Contains, P.Delete, Timely, S.ApplyTx;
    var pruned := S.PruneNonces(s, now);
    HalfApplied(pruned, tx, present, missing);
    OneCandidate(rules, now, pruned, tx);
    assert S.ApplyTxs(pruned, []) == S.Applied(pruned, None);
  }

  lemma {:induction false} OneCandidate(rules: Rules, now: nat, s: S.State, tx: Tx)
    requires S.Valid(s)
    ensures Select(rules, now, s, [tx]) == Consider(rules, now, Selection(s, []), tx)
  {
    hide Consider, S.Valid;
    assert [tx][..0] == [];
    assert Select(rules, now, s, []) == Selection(s, []);
  }

  // ---------------------------------------------------------------- the loops

  datatype GenerateError = Generated | EarlyTimestamp

  /** GenerateBlock after the first block: works on a copy, so the chain's own snapshot keeps its contents and root. */
  method GenerateBlock(rules: Rules, h: P.Hasher, prev: S.Block, snapshot: Snapshot, now: nat, txs: seq<Tx>)
    returns (b: Option<S.Block>, newSnapshot: Snapshot?, err: GenerateError)
    requires snapshot.Ok(h)
    modifies snapshot.tree.Nodes()
    ensures err == EarlyTimestamp <==> now < prev.timestamp
    ensures err == Generated ==>
      && newSnapshot != null && newSnapshot.Ok(h)
      && var sel := Select(rules, now, S.PruneNonces(old(snapshot.Value()), now), txs);
      && newSnapshot.Value() == sel.state && b == Some(NewBlock(rules, h, prev, now, sel))
    ensures snapshot.Ok(h) && snapshot.Value() == old(snapshot.Value())
  {
    hide Select, S.IdTree, P.RootHash;
    if now < prev.timestamp {
      return None, null, EarlyTimestamp;
    }
    var copy, included := FillCopy(rules, h, snapshot, now, txs);
    newSnapshot := copy;
    var root := copy.tree.RootHash(h);
    b := Some(S.Block(1, prev.height + 1, ZERO_HASH, prev.id, now, rules.merkleRoot(included), root, None, included));
    err := Generated;
  }

  /** The candidates applied to a pruned copy of the snapshot, which keeps its own contents. */
  method FillCopy(rules: Rules, h: P.Hasher, snapshot: Snapshot, now: nat, txs: seq<Tx>) returns (copy: Snapshot, included: seq<Tx>)
    requires snapshot.Ok(h)
    modifies snapshot.tree.Nodes()
    ensures fresh(copy) && fresh(copy.tree) && copy.Ok(h)
    ensures Selection(copy.Value(), included) == Select(rules, now, S.PruneNonces(old(snapshot.Value()), now), txs)
    ensures forall m :: m in copy.tree.Nodes() ==> m in old(snapshot.tree.Nodes()) || fresh(m)
    ensures snapshot.Ok(h) && snapshot.Value() == old(snapshot.Value()) && snapshot.tree == old(snapshot.tree)
  {
    hide Select, S.IdTree, P.RootHash;
    copy := new Snapshot.Copy(snapshot);
    copy.PruneNonces(now);
    included := Fill(rules, h, copy, now, txs);
  }

  /** The loop over the candidates. */
  method Fill(rules: Rules, h: P.Hasher, snapshot: Snapshot, now: nat, txs: seq<Tx>) returns (included: seq<Tx>)
    requires snapshot.Ok(h)
    modifies snapshot`nonces, snapshot.tree, snapshot.tree.Nodes()
    ensures snapshot.Ok(h)
    ensures Selection(snapshot.Value(), included) == Select(rules, now, old(snapshot.Value()), txs)
    ensures forall m :: m in snapshot.tree.Nodes() ==> m in old(snapshot.tree.Nodes()) || fresh(m)
    ensures forall m :: m in old(snapshot.tree.Nodes()) ==> m.Cached(h)
  {
    hide Consider, S.IdTree;
    included := [];
    for i := 0 to |txs|
      invariant snapshot.Ok(h)
      invariant forall m :: m in snapshot.tree.Nodes() ==> m in old(snapshot.tree.Nodes()) || fresh(m)
      invariant forall m :: m in old(snapshot.tree.Nodes()) ==> m.Cached(h)
      invariant Select(rules, now, old(snapshot.Value()), txs[..i]) == Selection(snapshot.Value(), included)
    {
      assert txs[..i + 1][..i] == txs[..i];
      included := TryCandidate(rules, h, snapshot, now, txs[i], included);
    }
    assert txs[..|txs|] == txs;
  }

  /** The body of the loop over the candidates. */
  method TryCandidate(rules: Rules, h: P.Hasher, snapshot: Snapshot, now: nat, tx: Tx, before: seq<Tx>) returns (included: seq<Tx>)
    requires snapshot.Ok(h)
    modifies snapshot`nonces, snapshot.tree, snapshot.tree.Nodes()
    ensures snapshot.Ok(h)
    ensures Selection(snapshot.Value(), included) == Consider(rules, now, Selection(old(snapshot.Value()), before), tx)
    ensures forall m :: m in snapshot.tree.Nodes() ==> m in old(snapshot.tree.Nodes()) || fresh(m)
    ensures forall m :: m in old(snapshot.tree.Nodes()) ==> m.Cached(h)
  {
    hide S.ApplyTx, S.IdTree, Timely;
    included := before;
    if |included| < MAX_BLOCK_TXS && rules.validTx(tx) && Timely(tx, now) {
      var e := snapshot.ApplyTx(tx, h);
      if e.None? {
        included := included + [tx];
      }
    }
  }

  /** ApplyValidBlock: the new snapshot is a copy; the chain's own snapshot keeps its contents and root. */
  method ApplyToCopy(h: P.Hasher, snapshot: Snapshot, b: S.Block) returns (newSnapshot: Snapshot?)
    requires snapshot.Ok(h)
    modifies snapshot.tree.Nodes()
    ensures newSnapshot == null <==> ApplyValidBlock(h, old(snapshot.Value()), b).None?
    ensures newSnapshot != null ==>
      newSnapshot.Ok(h) && ApplyValidBlock(h, old(snapshot.Value()), b) == Some(newSnapshot.Value())
    ensures snapshot.Ok(h) && snapshot.Value() == old(snapshot.Value())
  {
    hide S.ApplyBlock, S.IdTree, P.RootHash;
    var copy := new Snapshot.Copy(snapshot);
    var e := copy.ApplyBlock(b, h);
    if e.Some? {
      return null;
    }
    var root := copy.tree.RootHash(h);
    if b.assetsRoot != root {
      return null;
    }
    return copy;
  }
}
