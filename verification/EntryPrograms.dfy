/** The programs that mapTx itself attaches to entries, on the machine: TRUE of a mux, and the program of a nonce. */
module EntryPrograms {
  import opened Basics
  import opened VmTypes
  import opened Opcodes
  import opened Machine
  import opened Assembly
  import opened Scripts
  import opened DataOps
  import opened Interpreter
  import opened Outcomes
  import opened Metering
  import opened Straightline
  import opened Constraints
  import opened Witness
  import opened Programs
  import X = CryptoEffects

  /** Without arguments, verification is the run of the initial machine. */
  lemma {:induction false} VerifyIsRun(env: Env)
    requires env.vmVersion == 1 && env.arguments == []
    ensures CanRun(Initial(env)) && Start(env) == Go(Initial(env))
    ensures Verify(env) == (match Outcome(env, Initial(env)) case None => NeverReturns case Some(r) => Judge(r))
  {
    hide Outcome, Judge, StackCost;
  }

  /** The program [TRUE], which is the mux's. */
  lemma {:induction false} TrueProgramPasses(env: Env)
    requires env.vmVersion == 1 && env.code == [OP_TRUE] && env.arguments == []
    ensures Verify(env) == Accepted
  {
    hide Outcome, EncodeAll, Encode, Instr, StackCost, AsBool;
    VerifyIsRun(env);
    var items := [Int(1)];
    EncodeOne(Int(1));
    TrueIsOne();
    OneIsTrue();
    StartLoads(Initial(env), items);
    var w := RunPush(env, Initial(env), items);
    assert items[1..] == [];
    Finished(env, w);
    BoolReads(true);
  }

  /** A program that begins with FAIL is refused, whatever the arguments and the context. */
  lemma {:induction false} UnspendableNeverPasses(env: Env)
    requires env.code != [] && env.code[0] == OP_FAIL && |env.code| < TWO_32
    ensures Verify(env).Rejected?
  {
    hide Outcome, StackCost, PushAll, Step, StepOutcome;
    if env.vmVersion == 1 && Start(env).Go? {
      var vm := Start(env).value;
      FailStops(env, vm);
      StepOutcomeIs(env, vm, 0);
      OutcomeUnfolds(env, vm);
    }
  }

  lemma {:induction false} FailStops(env: Env, vm: VM)
    requires CanRun(vm) && vm.pc < |vm.program| && vm.program[vm.pc] == OP_FAIL
    ensures Step(env, vm, 0).Done? && Step(env, vm, 0).r.Stop?
  {
    hide StackCost, ExecLeaf;
    if |vm.program| <= MAX_INT32 {
      var inst := ParseOp(vm.program, vm.pc).value;
      X.StepHolds(env, vm, 0);
    }
  }

  /** <nonce> DROP ASSET <asset> EQUAL */
  function NonceItems(nonce: bytes, asset: Hash): seq<Item>
  {
    [Data(nonce), Plain(OP_DROP), Plain(OP_ASSET), Data(asset), Plain(OP_EQUAL)]
  }

  function NonceCode(nonce: bytes, asset: Hash): bytes
  {
    PushdataBytes(nonce) + [OP_DROP] + [OP_ASSET] + PushdataBytes(asset) + [OP_EQUAL]
  }

  lemma {:induction false} NonceCodeIs(nonce: bytes, asset: Hash)
    ensures EncodeAll(NonceItems(nonce, asset)) == NonceCode(nonce, asset)
  {
    hide EncodeAll, PushdataBytes;
    EncodeNone();
    EncodeThree([], Data(nonce), Plain(OP_DROP), Plain(OP_ASSET));
    var three := [] + [Data(nonce), Plain(OP_DROP), Plain(OP_ASSET)];
    EncodeSnoc(three, Data(asset));
    EncodeSnoc(three + [Data(asset)], Plain(OP_EQUAL));
    assert three + [Data(asset)] + [Plain(OP_EQUAL)] == NonceItems(nonce, asset);
  }

  /** The longest nonce that the initial run limit pays to push and to drop. */
  const MAX_NONCE := 9990

  /** A nonce program passes exactly when its nonce is not too long and the context shows its asset. */
  lemma {:induction false} NonceProgramPasses(env: Env, nonce: bytes, asset: Hash)
    requires env.vmVersion == 1 && env.code == NonceCode(nonce, asset) && env.arguments == []
    ensures Verify(env) == Accepted <==> |nonce| <= MAX_NONCE && env.assetID == Some(asset)
  {
    hide Outcome, EncodeAll, Encode, Instr, StackCost, NonceCode;
    VerifyIsRun(env);
    var vm := Initial(env);
    if |env.code| > MAX_INT32 {
      LongProgramFails(env, vm);
      NonceLength(nonce, asset);
    } else {
      NonceCodeIs(nonce, asset);
      StartLoads(vm, NonceItems(nonce, asset));
      DataItem(nonce);
      if |nonce| > MAX_NONCE {
        NonceTooLong(env, vm, nonce, asset);
      } else {
        NonceRuns(env, vm, nonce, asset);
      }
    }
  }

  lemma {:induction false} NonceLength(nonce: bytes, asset: Hash)
    ensures |NonceCode(nonce, asset)| <= |nonce| + 43
  {
    hide LittleEndian;
  }

  lemma {:induction false} LongProgramFails(env: Env, vm: VM)
    requires CanRun(vm) && |vm.program| > MAX_INT32 && vm.dataStack == []
    ensures Outcome(env, vm).Some? && !Succeeds(Outcome(env, vm).value)
  {
    hide Outcome;
    OutcomeUnfolds(env, vm);
  }

  lemma {:induction false} NonceTooLong(env: Env, vm: VM, nonce: bytes, asset: Hash)
    requires Loaded(vm, NonceItems(nonce, asset)) && |nonce| > MAX_NONCE && vm.runLimit == INITIAL_RUN_LIMIT
    ensures Fails(env, vm)
  {
    hide Outcome, EncodeAll, Encode, Instr, StackCost, WellFormed, ExecLeaf;
    var items := NonceItems(nonce, asset);
    DataItem(nonce);
    if |nonce| > MAX_NONCE + 1 {
      RunPushFails(env, vm, items);
    } else {
      var w := RunPush(env, vm, items);
      assert items[1..] == [Plain(OP_DROP), Plain(OP_ASSET), Data(asset), Plain(OP_EQUAL)];
      PlainInstruction(OP_DROP);
      var begun := Begun(w, Plain(OP_DROP));
      DropFails(env, begun);
      var _ := RunPlain(env, w, items[1..], OP_DROP, ExecLeaf(env, begun, OP_DROP));
    }
  }

  lemma {:induction false} DropFails(env: Env, vm: VM)
    requires Fresh(vm) && vm.runLimit == 0
    ensures ExecLeaf(env, vm, OP_DROP).Stop?
  {
    hide StackCost;
  }

  lemma {:induction false} NonceRuns(env: Env, vm: VM, nonce: bytes, asset: Hash)
    requires Loaded(vm, NonceItems(nonce, asset)) && vm.dataStack == [] && |nonce| <= MAX_NONCE && vm.runLimit == INITIAL_RUN_LIMIT
    ensures Outcome(env, vm).Some?
    ensures Succeeds(Outcome(env, vm).value) <==> env.assetID == Some(asset)
  {
    hide Outcome, EncodeAll, Encode, Instr, StackCost, WellFormed;
    var items := NonceItems(nonce, asset);
    DataItem(nonce);
    DataItem(asset);
    var w1 := RunPush(env, vm, items);
    assert items[1..] == [Plain(OP_DROP), Plain(OP_ASSET), Data(asset), Plain(OP_EQUAL)];
    var w2 := RunDrop(env, w1, items[1..], [], nonce);
    assert items[1..][1..] == [Plain(OP_ASSET), Data(asset), Plain(OP_EQUAL)];
    AssetEqual(env, w2, asset);
  }

  /** ASSET <asset> EQUAL */
  lemma {:induction false} AssetEqual(env: Env, vm: VM, asset: Hash)
    requires Loaded(vm, [Plain(OP_ASSET), Data(asset), Plain(OP_EQUAL)]) && vm.dataStack == [] && vm.runLimit >= 200
    ensures Outcome(env, vm).Some?
    ensures Succeeds(Outcome(env, vm).value) <==> env.assetID == Some(asset)
  {
    hide Outcome, EncodeAll, Encode, Instr, StackCost, WellFormed, AsBool;
    var items := [Plain(OP_ASSET), Data(asset), Plain(OP_EQUAL)];
    DataItem(asset);
    var w1 := RunField(env, vm, items, OP_ASSET);
    if env.assetID.Some? && 9 + |env.assetID.value| <= vm.runLimit {
      var d := env.assetID.value;
      assert items[1..] == [Data(asset), Plain(OP_EQUAL)];
      if w1.runLimit < 41 {
        RunPushFails(env, w1, items[1..]);
      } else {
        var w2 := RunPush(env, w1, items[1..]);
        assert items[1..][1..] == [Plain(OP_EQUAL)];
        var w3 := RunEqual(env, w2, items[1..][1..], [], d, asset);
        if w2.runLimit >= 1 + Min(|d|, |asset|) {
          assert items[1..][1..][1..] == [];
          Finished(env, w3);
          BoolReads(d == asset);
        }
      }
    }
  }
}
