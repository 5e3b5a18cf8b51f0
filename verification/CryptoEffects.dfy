/** Hashes, signatures and the context: the machine does what the table of effects says. With these, every opcode but CHECKPREDICATE. */
module CryptoEffects {
  import opened Basics
  import opened VmTypes
  import opened Opcodes
  import opened Checked
  import opened Machine
  import opened DataOps
  import opened CryptoOps
  import opened MultiSig
  import opened Interpreter
  import opened Effects
  import opened EffectsHold
  import opened DataEffects
  import opened Programs

  lemma {:induction false} HashHolds(vm: VM, hash: bytes -> Hash)
    requires Ready(vm)
    ensures Agrees(vm, DoHash(vm, hash), HashEffect(hash, vm.dataStack, vm.altStack))
  {
    hide Weight, StackCost;
  }

  lemma {:induction false} CheckSigHolds(c: Crypto, vm: VM)
    requires Ready(vm)
    ensures Agrees(vm, OpCheckSig(c, vm), CheckSigEffect(c, vm.dataStack, vm.altStack))
  {
    hide At, Agrees, Meter, SameFrame, Stopped, Ready, Weight, Pop, Without, PushDeferred;
    Stops(vm, OpCheckSig(c, vm), CheckSigEffect(c, vm.dataStack, vm.altStack));
    var s, v := vm.dataStack, Paid(vm, 1024);
    PopFirst(v);
    PopNext(v, 0);
    if |s| > 0 { PopNext(v, 1); }
    if |s| > 1 { PopNext(v, 2); }
    if vm.runLimit >= 1024 && |s| >= 3 {
      GivesOne(vm, 1024, 3, BoolBytes(|At(s, 0)| == 32 && c.verify(At(s, 0), At(s, 1), At(s, 2))));
    }
  }

  // ---------------------------------------------------------------- CHECKMULTISIG

  lemma {:induction false} PopManyNext(v: VM, k: nat, n: nat)
    requires k <= |v.dataStack| && Ready(v) && Ready(Without(v, k))
    ensures var r := PopMany(Without(v, k), n);
      if k + n <= |v.dataStack| then r.Go? && r.value.0 == Without(v, k + n) else r.Stop? && r.err == DataStackUnderflow
    decreases n
  {
    hide Weight, Pop, Without;
    if n > 0 {
      PopNext(v, k);
      if k < |v.dataStack| {
        WithoutKeeps(v, k + 1);
        PopManyNext(v, k + 1, n - 1);
      }
    }
  }

  lemma {:induction false} KeyFeeIs(n: int64)
    ensures n >= 0 ==> MulInt64(n, 1024) == if KeyFee(n) > MAX_INT64 then None else Some(KeyFee(n))
  {
    hide MulInt64;
  }

  /** The first count, with the charge for the keys. */
  lemma {:induction false} KeyCountHolds(vm: VM)
    requires Ready(vm)
    ensures var s, r := vm.dataStack, PopCounts(vm);
      if |s| < 1 then r.Stop? && r.err == DataStackUnderflow
      else if !IsInt(At(s, 0)) then r.Stop? && r.err == BadValue
      else
        var n := IntOf(At(s, 0));
        if n < 0 || KeyFee(n) > MAX_INT64 then r.Stop? && r.err == BadValue
        else if vm.runLimit < KeyFee(n) then r.Stop? && r.err == RunLimitExceeded
        else r == SigCount(Without(Paid(vm, KeyFee(n)), 1), n)
  {
    hide At, SameFrame, Stopped, Ready, Weight, PopInt64, IsInt, IntOf, Without, KeyFee, MulInt64, ApplyCost, Counted;
    var s := vm.dataStack;
    PopFirst(vm);
    PopNext(vm, 0);
    if |s| >= 1 && IsInt(At(s, 0)) {
      var n := IntOf(At(s, 0));
      KeyFeeIs(n);
      PaidNothing(vm);
      PayLater(vm, 0, 1, KeyFee(n));
    }
  }

  /** The second count. */
  function SigCount(vm: VM, numPubkeys: int): Res<(VM, nat, nat)>
    requires numPubkeys >= 0
  {
    hide Weight, PopInt64, AsInt64;
    var (vm, numSigs) :- PopInt64(vm, true);
    if numSigs < 0 || numSigs > numPubkeys || (numPubkeys > 0 && numSigs == 0) then Stop(vm, BadValue)
    else Go((vm, numPubkeys, numSigs))
  }

  lemma {:induction false} SigCountHolds(v: VM, n: nat)
    requires 1 <= |v.dataStack|
    ensures var s, r := v.dataStack, SigCount(Without(v, 1), n);
      if |s| < 2 then r.Stop? && r.err == DataStackUnderflow
      else if !IsInt(At(s, 1)) then r.Stop? && r.err == BadValue
      else
        var m := IntOf(At(s, 1));
        if m < 0 || m > n || (n > 0 && m == 0) then r.Stop? && r.err == BadValue
        else r == Go((Without(v, 2), n, m))
  {
    hide At, SameFrame, Ready, Weight, PopInt64, IsInt, IntOf, Without;
    PopNext(v, 1);
  }

  lemma {:induction false} PaidNothing(vm: VM)
    ensures Paid(vm, 0) == vm
  {
  }

  lemma {:induction false} TailPops(c: Crypto, v: VM, n: nat, m: nat) returns (verdict: bytes)
    requires Ready(v) && n + m + 3 <= |v.dataStack| && |At(v.dataStack, n + 2)| == 32 && Ready(Without(v, 2))
    ensures MultiSigTail(c, Without(v, 2), n, m) == Go(PushDeferred(Without(v, n + m + 3), verdict))
  {
    hide Weight, Pop, PopMany, PushDeferred, Greedy, AllKeySized, StackCost, MultiSigPopped, Without, At;
    PopManyNext(v, 2, n);
    WithoutKeeps(v, n + 2);
    PopNext(v, n + 2);
    WithoutKeeps(v, n + 3);
    PopManyNext(v, n + 3, m);
    var keys, sigs := PopMany(Without(v, 2), n).value.1, PopMany(Without(v, n + 3), m).value.1;
    verdict := BoolBytes(AllKeySized(keys) && Greedy(c, At(v.dataStack, n + 2), keys, sigs));
  }

  /** Where the message is one and nothing is missing, all of it is popped, and the verdict is pushed. */
  lemma {:induction false} TailGives(c: Crypto, v: VM, n: nat, m: nat)
    requires Ready(v) && n + m + 3 <= |v.dataStack| && |At(v.dataStack, n + 2)| == 32 && Ready(Without(v, 2))
    ensures MultiSigTail(c, Without(v, 2), n, m) ==
            Go(PushDeferred(Without(v, n + m + 3), BoolBytes(SignaturesMatch(c, v.dataStack, n, m))))
  {
    hide Weight, MultiSigTail, PushDeferred, Matchable, AllKeySized, StackCost, MultiSigPopped, PriceOf, Ready;
    var s, l := v.dataStack, |v.dataStack|;
    var verdict := TailPops(c, v, n, m);
    var rest, sigs, msg, keys := s[..l - 3 - n - m], s[l - 3 - n - m..l - 3 - n], At(s, n + 2), s[l - 2 - n..l - 2];
    assert Under(s, 2) == MultiSigStack(rest, sigs, msg, keys);
    TailMeaning(c, Without(v, 2), rest, sigs, msg, keys);
    SameTop(rest, verdict, rest, BoolBytes(SignaturesMatch(c, s, n, m)));
  }

  lemma {:induction false} TailStops(c: Crypto, v: VM, n: nat, m: nat)
    requires Ready(v) && 2 <= |v.dataStack| && Ready(Without(v, 2))
    ensures var s, r := v.dataStack, MultiSigTail(c, Without(v, 2), n, m);
      if |s| < n + 3 then r.Stop? && r.err == DataStackUnderflow
      else if |At(s, n + 2)| != 32 then r.Stop? && r.err == BadValue
      else |s| < n + m + 3 ==> r.Stop? && r.err == DataStackUnderflow
  {
    hide Weight, Pop, PopMany, PushDeferred, Greedy, AllKeySized, StackCost, Without, At, MultiSigPopped;
    PopManyNext(v, 2, n);
    if n + 2 <= |v.dataStack| {
      WithoutKeeps(v, n + 2);
      PopNext(v, n + 2);
    }
    if n + 3 <= |v.dataStack| {
      WithoutKeeps(v, n + 3);
      PopManyNext(v, n + 3, m);
    }
  }

  lemma {:induction false} MultiSigHolds(c: Crypto, vm: VM)
    requires Ready(vm)
    ensures Agrees(vm, OpCheckMultiSig(c, vm), MultiSigEffect(c, vm.dataStack, vm.altStack))
  {
    hide At, Agrees, Meter, SameFrame, Stopped, Weight, PopCounts, MultiSigTail, Without, PushDeferred, IsInt, IntOf, KeyFee, SignaturesMatch, Counted, MultiSigMeter, SigCount;
    Stops(vm, OpCheckMultiSig(c, vm), MultiSigEffect(c, vm.dataStack, vm.altStack));
    KeyCountHolds(vm);
    var s := vm.dataStack;
    if |s| >= 1 && IntOf(At(s, 0)) >= 0 { SigCountHolds(Paid(vm, KeyFee(IntOf(At(s, 0)))), IntOf(At(s, 0))); }
    if PopCounts(vm).Go? {
      var n, m := PopCounts(vm).value.1, PopCounts(vm).value.2;
      var v := Paid(vm, KeyFee(n));
      WithoutKeeps(v, 2);
      KeyFeeNatural(n);
      TailStops(c, v, n, m);
      if n + m + 3 <= |s| && |At(s, n + 2)| == 32 {
        TailGives(c, v, n, m);
        GivesOne(vm, KeyFee(n), n + m + 3, BoolBytes(SignaturesMatch(c, s, n, m)));
      }
    }
  }

  lemma {:induction false} KeyFeeNatural(n: nat)
    ensures KeyFee(n) >= 0
  {
  }

  // ---------------------------------------------------------------- the context

  lemma {:induction false} FieldHolds(env: Env, vm: VM, op: Op)
    requires Ready(vm) && OP_ASSET <= op <= OP_BLOCKTIME
    ensures Agrees(vm, ExecContext(env, vm, op), FieldEffect(env, op, vm.dataStack, vm.altStack))
  {
    hide Weight, StackCost, Int64Bytes, OpContext;
    ContextIs(vm, Field(env, op));
  }

  lemma {:induction false} ContextIs(vm: VM, field: Option<bytes>)
    requires Ready(vm)
    ensures Agrees(vm, OpContext(vm, field), if field.None? then Refuses(Context, 1) else Moves(vm.altStack, 0, [field.value], 1, 1))
  {
    hide Weight, StackCost;
    assert vm.dataStack[..|vm.dataStack|] == vm.dataStack;
  }

  lemma {:induction false} HashFieldHolds(env: Env, vm: VM)
    requires Ready(vm)
    ensures Agrees(vm, OpTxSigHash(vm, env.txSigHash), FieldEffect(env, OP_TXSIGHASH, vm.dataStack, vm.altStack))
    ensures Agrees(vm, OpBlockHash(vm, env.blockHash), FieldEffect(env, OP_BLOCKHASH, vm.dataStack, vm.altStack))
  {
    hide Weight, StackCost;
    assert vm.dataStack[..|vm.dataStack|] == vm.dataStack;
  }

  lemma {:induction false} NaturalPopped(v: VM, k: nat)
    requires k <= |v.dataStack| && Ready(Without(v, k))
    ensures var r := PopNatural(Without(v, k));
      if NaturalMissing(v.dataStack, k).Some? then r.Stop? && r.err == NaturalMissing(v.dataStack, k).value
      else r == Go((Without(v, k + 1), NaturalOf(At(v.dataStack, k))))
  {
    hide Weight, PopInt64, IsInt, IntOf, Without;
    PopNext(v, k);
  }

  /** CHECKOUTPUT after the program, the version and the asset. */
  function OutputTail(vm: VM, check: Option<OutputChecker>, assetID: bytes, vmVersion: nat, code: bytes): Res<VM>
    requires Ready(vm)
  {
    hide Weight, Pop, PopInt64, ApplyCost, PushDeferred, AsInt64, AsBool;
    var (vm, amount) :- PopNatural(vm);
    var (vm, data) :- Pop(vm, true);
    var (vm, index) :- PopNatural(vm);
    match check
    case None => Stop(vm, Context)
    case Some(f) =>
      match f(index, data, amount, assetID, vmVersion, code, vm.expansionReserved)
      case None => Stop(vm, CheckOutputError)
      case Some(ok) => Go(PushBool(vm, ok))
  }

  lemma {:induction false} OutputHead(vm: VM, check: Option<OutputChecker>)
    requires Ready(vm) && vm.runLimit >= 16
    ensures var s, r, v := vm.dataStack, OpCheckOutput(vm, check), Paid(vm, 16);
      if |s| < 1 then r.Stop? && r.err == DataStackUnderflow
      else if NaturalMissing(s, 1).Some? then r.Stop? && r.err == NaturalMissing(s, 1).value
      else if |s| < 3 then r.Stop? && r.err == DataStackUnderflow
      else Ready(Without(v, 3)) && r == OutputTail(Without(v, 3), check, At(s, 2), NaturalOf(At(s, 1)), At(s, 0))
  {
    hide At, Meter, SameFrame, Stopped, Ready, Weight, Pop, PopNatural, Without, PushDeferred, IsInt, IntOf;
    var s, v := vm.dataStack, Paid(vm, 16);
    StillReady(vm, 16);
    PopFirst(v);
    PopNext(v, 0);
    if |s| >= 1 { WithoutKeeps(v, 1); NaturalPopped(v, 1); }
    if |s| >= 2 { PopNext(v, 2); }
    if |s| >= 3 { WithoutKeeps(v, 3); }
  }

  lemma {:induction false} OutputRest(v: VM, check: Option<OutputChecker>, assetID: bytes, vmVersion: nat, code: bytes)
    requires Ready(v) && |v.dataStack| >= 3 && Ready(Without(v, 3))
    ensures var s, r := v.dataStack, OutputTail(Without(v, 3), check, assetID, vmVersion, code);
      if NaturalMissing(s, 3).Some? then r.Stop? && r.err == NaturalMissing(s, 3).value
      else if |s| < 5 then r.Stop? && r.err == DataStackUnderflow
      else if NaturalMissing(s, 5).Some? then r.Stop? && r.err == NaturalMissing(s, 5).value
      else if check.None? then r.Stop? && r.err == Context
      else
        match check.value(NaturalOf(At(s, 5)), At(s, 4), NaturalOf(At(s, 3)), assetID, vmVersion, code, v.expansionReserved)
        case None => r.Stop? && r.err == CheckOutputError
        case Some(ok) => r == Go(PushDeferred(Without(v, 6), BoolBytes(ok)))
  {
    hide At, SameFrame, Stopped, Weight, Pop, PopNatural, Without, PushDeferred, IsInt, IntOf;
    var s := v.dataStack;
    NaturalPopped(v, 3);
    if |s| >= 4 { PopNext(v, 4); }
    if |s| >= 5 { WithoutKeeps(v, 5); NaturalPopped(v, 5); }
    if |s| >= 6 { WithoutFrame(v, 6); }
  }

  lemma {:induction false} CheckOutputHolds(env: Env, vm: VM)
    requires Ready(vm)
    ensures Agrees(vm, OpCheckOutput(vm, env.checkOutput), CheckOutputEffect(env, vm.expansionReserved, vm.dataStack, vm.altStack))
  {
    hide At, Agrees, Meter, SameFrame, Stopped, Weight, OpCheckOutput, OutputTail, Without, PushDeferred, IsInt, IntOf;
    Stops(vm, OpCheckOutput(vm, env.checkOutput), CheckOutputEffect(env, vm.expansionReserved, vm.dataStack, vm.altStack));
    if vm.runLimit >= 16 {
      var s, v := vm.dataStack, Paid(vm, 16);
      OutputHead(vm, env.checkOutput);
      if |s| >= 3 && NaturalMissing(s, 1).None? {
        OutputRest(v, env.checkOutput, At(s, 2), NaturalOf(At(s, 1)), At(s, 0));
      }
      if |s| >= 6 {
        GivesOne(vm, 16, 6, BoolBytes(true));
        GivesOne(vm, 16, 6, BoolBytes(false));
      }
    } else {
      OutputUnpaid(vm, env.checkOutput);
    }
  }

  lemma {:induction false} OutputUnpaid(vm: VM, check: Option<OutputChecker>)
    requires Ready(vm) && vm.runLimit < 16
    ensures OpCheckOutput(vm, check) == Stop(vm, RunLimitExceeded)
  {
  }

  lemma {:induction false} WithoutFrame(v: VM, k: nat)
    requires k <= |v.dataStack|
    ensures Without(v, k).expansionReserved == v.expansionReserved
  {
  }

  lemma {:induction false} StillReady(vm: VM, fee: nat)
    requires Ready(vm) && fee <= vm.runLimit
    ensures Ready(Paid(vm, fee))
  {
  }

  // ---------------------------------------------------------------- all of them

  /** Every opcode but CHECKPREDICATE has the effect, the price and the errors that the table says. */
  lemma {:induction false} LeafHolds(env: Env, vm: VM, op: Op)
    requires Ready(vm) && !IsExpansion(op) && op != OP_CHECKPREDICATE
    requires op == OP_JUMP || op == OP_JUMPIF ==> |vm.data| == 4
    ensures Agrees(vm, ExecLeaf(env, vm, op), EffectOf(env, op, vm.data, vm.expansionReserved, vm.dataStack, vm.altStack))
  {
    hide Agrees, Ready, ExecControl, ExecStack, ExecBytes, ExecNumeric, DoHash, OpCheckSig, OpCheckMultiSig, OpTxSigHash, OpBlockHash,
      ControlEffect, StackEffect, BytesEffect, NumericEffect, HashEffect, CheckSigEffect, MultiSigEffect, CheckOutputEffect, FieldEffect, OpCheckOutput;
    if op < OP_TOALTSTACK {
      ControlHolds(vm, op);
    } else if op <= OP_TUCK {
      StackHolds(vm, op);
    } else if op <= OP_CATPUSHDATA {
      BytesHolds(vm, op);
    } else if op <= OP_WITHIN {
      NumericHolds(vm, op);
    } else if op == OP_SHA256 {
      HashHolds(vm, env.crypto.sha256);
    } else if op == OP_SHA3 {
      HashHolds(vm, env.crypto.sha3);
    } else if op == OP_CHECKSIG {
      CheckSigHolds(env.crypto, vm);
    } else if op == OP_CHECKMULTISIG {
      MultiSigHolds(env.crypto, vm);
    } else if op == OP_TXSIGHASH || op == OP_BLOCKHASH {
      HashFieldHolds(env, vm);
    } else if op == OP_CHECKOUTPUT {
      CheckOutputHolds(env, vm);
    } else {
      FieldHolds(env, vm, op);
    }
  }

  /** The whole step of an opcode that is not CHECKPREDICATE. */
  ghost predicate StepAgrees(vm: VM, len: nat, r: Res<VM>, e: Effect)
  {
    match e
    case Refuses(err, need) => r.Stop? && r.err == (if vm.runLimit < need then RunLimitExceeded else err)
    case Does(take, give, alt, jump, fee, need) =>
      if vm.runLimit < need then r.Stop? && r.err == RunLimitExceeded
      else
        && take <= |vm.dataStack|
        && var stack := vm.dataStack[..|vm.dataStack| - take] + give;
           var limit := vm.runLimit - fee + StackCost(vm.dataStack) + StackCost(vm.altStack) - StackCost(stack) - StackCost(alt);
           if limit < 0 then r.Stop? && r.err == EndCharge
           else
             && r.Go? && r.value.dataStack == stack && r.value.altStack == alt && r.value.runLimit == limit
             && r.value.pc == (if jump.Some? then jump.value else vm.pc + len)
  }

  lemma {:induction false} ExpansionHolds(vm: VM, inst: Instruction)
    requires vm.runLimit >= 0
    ensures StepAgrees(vm, inst.len, ExpansionStep(vm, inst), ExpansionEffect(vm.expansionReserved, vm.altStack))
  {
    hide StackCost;
    assert vm.dataStack[..|vm.dataStack|] + [] == vm.dataStack;
  }

  /**
   * A step: the opcode's effect on the stacks, and a run limit lower by its fee and by what the stacks are now worth
   * more than before; refused where the limit is below what the opcode needs, and where that would leave less than none.
   */
  lemma {:induction false} StepHolds(env: Env, vm: VM, k: nat)
    requires CanRun(vm) && ParseOp(vm.program, vm.pc).Value? && ParseOp(vm.program, vm.pc).value.op != OP_CHECKPREDICATE
    ensures var inst := ParseOp(vm.program, vm.pc).value;
      && Step(env, vm, k).Done?
      && StepAgrees(vm, inst.len, Step(env, vm, k).r, EffectOf(env, inst.op, inst.data, vm.expansionReserved, vm.dataStack, vm.altStack))
  {
    hide ParseOp, ExecLeaf, StackCost, IsExpansion, ControlEffect, StackEffect, BytesEffect, NumericEffect, HashEffect, CheckSigEffect,
      MultiSigEffect, CheckOutputEffect, FieldEffect, ExpansionEffect, ExpansionStep, StepAgrees;
    var inst := ParseOp(vm.program, vm.pc).value;
    if IsExpansion(inst.op) {
      ExpansionHolds(vm, inst);
    } else {
      LeafStep(env, vm, inst);
    }
  }

  lemma {:induction false} LeafStep(env: Env, vm: VM, inst: Instruction)
    requires CanRun(vm) && !IsExpansion(inst.op) && inst.op != OP_CHECKPREDICATE && vm.pc + inst.len < TWO_32
    requires inst.op == OP_JUMP || inst.op == OP_JUMPIF ==> |inst.data| == 4
    ensures StepAgrees(vm, inst.len, Finish(ExecLeaf(env, Begin(vm, inst), inst.op)),
                       EffectOf(env, inst.op, inst.data, vm.expansionReserved, vm.dataStack, vm.altStack))
  {
    hide ExecLeaf, EffectOf, StackCost;
    LeafHolds(env, Begin(vm, inst), inst.op);
  }
}
