/** core/txbuilder/witness.go: the program a signature commits to, and the arguments a witness becomes. */
module Witness {
  import opened Basics
  import opened VmTypes
  import opened Opcodes
  import opened Machine
  import opened Assembly
  import opened Scripts
  import opened Interpreter
  import opened Outcomes
  import opened Straightline
  import opened Constraints

  datatype TxOutput = TxOutput(asset: Hash, amount: uint64, program: bytes, refData: bytes)

  /** What buildSigProgram reads of a template and one of its inputs. */
  datatype Template = Template(
    allowAdditional: bool,
    sigHash: Hash,
    minTime: uint64,
    maxTime: uint64,
    spentOutput: Option<Hash>,
    refData: bytes,
    inputRefData: bytes,
    outputs: seq<TxOutput>)

  function PayFor(sha3: bytes -> Hash, i: nat, out: TxOutput): Constraint
  {
    Pay(i, out.asset, out.amount, out.program, if |out.refData| > 0 then Some(sha3(out.refData)) else None)
  }

  function PayAll(sha3: bytes -> Hash, outputs: seq<TxOutput>): (r: seq<Constraint>)
    ensures |r| == |outputs| && forall i :: 0 <= i < |outputs| ==> r[i] == PayFor(sha3, i, outputs[i])
  {
    seq(|outputs|, i requires 0 <= i < |outputs| => PayFor(sha3, i, outputs[i]))
  }

  /**
   * What an open transaction commits to: the times, the spent output if it spends one, the transaction's
   * reference data if it has any, the input's reference data, and every output.
   */
  function Commitments(sha3: bytes -> Hash, t: Template): (cs: seq<Constraint>)
    ensures cs != []
  {
    [Time(t.minTime, t.maxTime)]
    + (if t.spentOutput.Some? then [OutputID(t.spentOutput.value)] else [])
    + (if |t.refData| > 0 then [RefData(t.refData, true)] else [])
    + [RefData(t.inputRefData, false)]
    + PayAll(sha3, t.outputs)
  }

  function SigItems(sha3: bytes -> Hash, t: Template): seq<Item>
  {
    if t.allowAdditional then JoinItems(sha3, Commitments(sha3, t))
    else [Data(t.sigHash), Plain(OP_TXSIGHASH), Plain(OP_EQUAL)]
  }

  // ---------------------------------------------------------------- joining the codes

  lemma {:induction false} JoinSnoc(sha3: bytes -> Hash, cs: seq<Constraint>, c: Constraint)
    requires cs != []
    ensures JoinItems(sha3, cs + [c]) == JoinItems(sha3, cs) + [Plain(OP_VERIFY)] + CodeItems(sha3, c)
  {
    hide CodeItems;
    if |cs| == 1 {
      assert cs + [c] == [cs[0], c];
      assert (cs + [c])[1..] == [c];
    } else {
      JoinSnoc(sha3, cs[1..], c);
      assert (cs + [c])[1..] == cs[1..] + [c];
    }
  }

  /** The loop that joins the codes. */
  method JoinCodes(sha3: bytes -> Hash, cs: seq<Constraint>) returns (program: bytes)
    requires cs != [] && forall i :: 0 <= i < |cs| && cs[i].Pay? ==> cs[i].index <= MAX_INT64
    ensures program == EncodeAll(JoinItems(sha3, cs))
  {
    hide EncodeAll, Encode, CodeItems, JoinItems;
    program := [];
    for i := 0 to |cs|
      invariant i == 0 ==> program == []
      invariant 0 < i < |cs| ==> program == EncodeAll(JoinItems(sha3, cs[..i]) + [Plain(OP_VERIFY)])
      invariant i == |cs| ==> program == EncodeAll(JoinItems(sha3, cs))
    {
      var code := Code(sha3, cs[i]);
      ghost var before := program;
      program := program + code;
      assert cs[..i + 1] == cs[..i] + [cs[i]];
      JoinStep(sha3, cs[..i], cs[i], before);
      if i < |cs| - 1 {
        program := program + [OP_VERIFY];
        EncodeSnoc(JoinItems(sha3, cs[..i + 1]), Plain(OP_VERIFY));
        VerifyCode();
      } else {
        assert cs[..i + 1] == cs;
      }
    }
  }

  lemma {:induction false} VerifyCode()
    ensures Encode(Plain(OP_VERIFY)) == [OP_VERIFY]
  {
  }

  lemma {:induction false} JoinStep(sha3: bytes -> Hash, done: seq<Constraint>, c: Constraint, program: bytes)
    requires if done == [] then program == [] else program == EncodeAll(JoinItems(sha3, done) + [Plain(OP_VERIFY)])
    ensures program + EncodeAll(CodeItems(sha3, c)) == EncodeAll(JoinItems(sha3, done + [c]))
  {
    hide EncodeAll, CodeItems;
    if done == [] {
      assert done + [c] == [c];
    } else {
      JoinSnoc(sha3, done, c);
      EncodeConcat(JoinItems(sha3, done) + [Plain(OP_VERIFY)], CodeItems(sha3, c));
    }
  }

  // ---------------------------------------------------------------- what the program decides

  /** The machine is at the start of the given program, which has a size the machine accepts. */
  ghost predicate AtStart(vm: VM, items: seq<Item>)
  {
    vm.program == EncodeAll(items) && |vm.program| <= MAX_INT32 && vm.pc == 0 && vm.runLimit >= 0
  }

  lemma {:induction false} StartLoads(vm: VM, items: seq<Item>)
    requires AtStart(vm, items) && forall i :: 0 <= i < |items| ==> WellFormed(items[i])
    ensures Loaded(vm, items)
  {
    assert vm.program[0..] == vm.program;
  }

  lemma {:induction false} CodeWellFormed(sha3: bytes -> Hash, c: Constraint)
    ensures forall i :: 0 <= i < |CodeItems(sha3, c)| ==> WellFormed(CodeItems(sha3, c)[i])
  {
  }

  ghost predicate AllWellFormed(items: seq<Item>)
  {
    forall i :: 0 <= i < |items| ==> WellFormed(items[i])
  }

  lemma {:induction false} JoinWellFormed(sha3: bytes -> Hash, cs: seq<Constraint>)
    ensures AllWellFormed(JoinItems(sha3, cs))
    decreases |cs|
  {
    hide CodeItems;
    if cs != [] {
      CodeWellFormed(sha3, cs[0]);
      JoinWellFormed(sha3, cs[1..]);
    }
  }

  /** Everything in the template that goes through a signed integer fits one. */
  predicate TemplateInRange(t: Template)
  {
    && t.minTime <= MAX_INT64 && t.maxTime <= MAX_INT64 && |t.outputs| <= MAX_INT64
    && forall i :: 0 <= i < |t.outputs| ==> t.outputs[i].amount <= MAX_INT64
  }

  /**
   * The program of an open transaction, run from any stack with enough run limit, leaves true on that stack
   * exactly when the transaction the machine looks at keeps every commitment; otherwise it fails or leaves
   * false.
   */
  lemma {:induction false} OpenProgramDecides(env: Env, vm: VM, t: Template)
    requires t.allowAdditional && TemplateInRange(t) && TimesInRange(env)
    requires AtStart(vm, SigItems(env.crypto.sha3, t)) && vm.runLimit >= NeedAll(Commitments(env.crypto.sha3, t))
    ensures DecidesAll(vm, AllHold(env, Commitments(env.crypto.sha3, t), vm.expansionReserved), Outcome(env, vm))
  {
    hide Outcome, EncodeAll, JoinItems, AllHold, NeedAll;
    var cs := Commitments(env.crypto.sha3, t);
    JoinWellFormed(env.crypto.sha3, cs);
    StartLoads(vm, JoinItems(env.crypto.sha3, cs));
    forall i | 0 <= i < |cs| ensures InRange(cs[i]) {
      CommitmentInRange(env.crypto.sha3, t, i);
    }
    CompiledDecides(env, vm, cs);
  }

  lemma {:induction false} CommitmentInRange(sha3: bytes -> Hash, t: Template, i: nat)
    requires TemplateInRange(t) && i < |Commitments(sha3, t)|
    ensures InRange(Commitments(sha3, t)[i])
  {
    var pays := PayAll(sha3, t.outputs);
    var cs := Commitments(sha3, t);
    var k := |cs| - |pays|;
    if i >= k {
      assert cs[i] == pays[i - k];
    }
  }

  /** The program of a closed transaction leaves true exactly when the signature hash is the one it was built for. */
  lemma {:induction false} ClosedProgramDecides(env: Env, vm: VM, t: Template)
    requires !t.allowAdditional
    requires AtStart(vm, SigItems(env.crypto.sha3, t)) && vm.runLimit >= 400
    ensures DecidesAll(vm, env.txSigHash == Some(t.sigHash), Outcome(env, vm))
  {
    hide Outcome, EncodeAll, Encode, Instr;
    var items := [Data(t.sigHash), Plain(OP_TXSIGHASH), Plain(OP_EQUAL)];
    StartLoads(vm, items);
    DataItem(t.sigHash);
    var w1 := RunPush(env, vm, items);
    assert items[1..] == [Plain(OP_TXSIGHASH), Plain(OP_EQUAL)];
    var w2 := RunTxSigHash(env, w1, items[1..]);
    if env.txSigHash.Some? && 264 + |env.txSigHash.value| <= w1.runLimit {
      var d := env.txSigHash.value;
      assert items[1..][1..] == [Plain(OP_EQUAL)];
      var w3 := RunEqual(env, w2, items[1..][1..], vm.dataStack, t.sigHash, d);
      assert items[1..][1..][1..] == [];
      if Loaded(w3, []) { Finished(env, w3); }
    }
  }

  // ---------------------------------------------------------------- what a signature binds

  /** The transaction that the machine looks at has this output at this index. */
  predicate ShowsOutput(env: Env, j: nat, out: TxOutput, expansion: bool)
  {
    var data: bytes := if |out.refData| > 0 then env.crypto.sha3(out.refData) else [];
    OutputVerdict(env, j, data, out.amount, out.asset, 1, out.program, expansion) == Some(true)
  }

  /**
   * What a signature over the template binds of the transaction that the machine looks at: the signature hash, or,
   * if others may add to the transaction, the times, the spent output, the reference data and the template's outputs.
   */
  predicate Keeps(env: Env, t: Template, expansion: bool)
  {
    if !t.allowAdditional then env.txSigHash == Some(t.sigHash)
    else
      && (t.minTime > 0 ==> env.minTimeMS.Some? && t.minTime <= env.minTimeMS.value)
      && (t.maxTime > 0 ==> env.maxTimeMS.Some? && (0 < env.maxTimeMS.value <= t.maxTime || t.maxTime == MAX_INT64))
      && (t.spentOutput.Some? ==> env.spentOutputID == Some(t.spentOutput.value))
      && (|t.refData| > 0 ==> env.txData == Some(env.crypto.sha3(t.refData)))
      && env.entryData == Some(env.crypto.sha3(t.inputRefData))
      && forall j :: 0 <= j < |t.outputs| ==> ShowsOutput(env, j, t.outputs[j], expansion)
  }

  lemma {:induction false} PaysShow(env: Env, outputs: seq<TxOutput>, expansion: bool)
    ensures AllHold(env, PayAll(env.crypto.sha3, outputs), expansion) <==>
              forall j :: 0 <= j < |outputs| ==> ShowsOutput(env, j, outputs[j], expansion)
  {
    var pays := PayAll(env.crypto.sha3, outputs);
    forall j | 0 <= j < |outputs|
      ensures Holds(env, pays[j], expansion) <==> ShowsOutput(env, j, outputs[j], expansion)
    {
    }
  }

  lemma {:induction false} AllHoldConcat(env: Env, a: seq<Constraint>, b: seq<Constraint>, expansion: bool)
    ensures AllHold(env, a + b, expansion) <==> AllHold(env, a, expansion) && AllHold(env, b, expansion)
  {
    hide Holds;
    if AllHold(env, a + b, expansion) {
      forall i | 0 <= i < |a| ensures Holds(env, a[i], expansion) {
        assert (a + b)[i] == a[i];
      }
      forall i | 0 <= i < |b| ensures Holds(env, b[i], expansion) {
        assert (a + b)[|a| + i] == b[i];
      }
    }
  }

  lemma {:induction false} OneHolds(env: Env, c: Constraint, expansion: bool)
    ensures AllHold(env, [c], expansion) <==> Holds(env, c, expansion)
    ensures AllHold(env, [], expansion)
  {
    hide Holds;
    assert [c][0] == c;
  }

  lemma {:induction false} CommitmentsKeep(env: Env, t: Template, expansion: bool)
    requires t.allowAdditional && TemplateInRange(t)
    ensures AllHold(env, Commitments(env.crypto.sha3, t), expansion) <==> Keeps(env, t, expansion)
  {
    hide AllHold, PayAll, ShowsOutput;
    var sha3 := env.crypto.sha3;
    var time := [Time(t.minTime, t.maxTime)];
    var spent := if t.spentOutput.Some? then [OutputID(t.spentOutput.value)] else [];
    var data := if |t.refData| > 0 then [RefData(t.refData, true)] else [];
    var entry := [RefData(t.inputRefData, false)];
    AllHoldConcat(env, time, spent, expansion);
    AllHoldConcat(env, time + spent, data, expansion);
    AllHoldConcat(env, time + spent + data, entry, expansion);
    AllHoldConcat(env, time + spent + data + entry, PayAll(sha3, t.outputs), expansion);
    OneHolds(env, time[0], expansion);
    OneHolds(env, entry[0], expansion);
    if t.spentOutput.Some? { OneHolds(env, spent[0], expansion); }
    if |t.refData| > 0 { OneHolds(env, data[0], expansion); }
    PaysShow(env, t.outputs, expansion);
  }

  /** A run limit that suffices for the outputs from j on. */
  function OutputsNeed(outputs: seq<TxOutput>, j: nat := 0): nat
    requires j <= |outputs|
    decreases |outputs| - j
  {
    if j == |outputs| then 0 else 193 + |outputs[j].program| + OutputsNeed(outputs, j + 1)
  }

  function Enough(t: Template): nat
  {
    600 + OutputsNeed(t.outputs)
  }

  lemma {:induction false} NeedConcat(a: seq<Constraint>, b: seq<Constraint>)
    ensures NeedAll(a + b) == NeedAll(a) + NeedAll(b)
  {
    hide Need;
    if a == [] {
      assert a + b == b;
    } else {
      assert (a + b)[1..] == a[1..] + b;
      NeedConcat(a[1..], b);
    }
  }

  lemma {:induction false} PaysNeed(sha3: bytes -> Hash, outputs: seq<TxOutput>, j: nat)
    requires j <= |outputs|
    ensures NeedAll(PayAll(sha3, outputs)[j..]) == OutputsNeed(outputs, j)
    decreases |outputs| - j
  {
    hide PayAll;
    var pays := PayAll(sha3, outputs);
    if j < |outputs| {
      assert pays[j..][0] == PayFor(sha3, j, outputs[j]) && pays[j..][1..] == pays[j + 1..];
      PaysNeed(sha3, outputs, j + 1);
    }
  }

  lemma {:induction false} EnoughCovers(sha3: bytes -> Hash, t: Template)
    ensures NeedAll(Commitments(sha3, t)) <= Enough(t)
  {
    hide PayAll, OutputsNeed, NeedAll;
    var pays := PayAll(sha3, t.outputs);
    var cs := Commitments(sha3, t);
    var head := cs[..|cs| - |pays|];
    assert cs == head + pays && pays[0..] == pays;
    NeedConcat(head, pays);
    PaysNeed(sha3, t.outputs, 0);
    HeadNeeds(head);
  }

  lemma {:induction false} HeadNeeds(cs: seq<Constraint>)
    requires |cs| <= 4 && forall i :: 0 <= i < |cs| ==> !cs[i].Pay?
    ensures NeedAll(cs) <= 129 * |cs|
    decreases |cs|
  {
    if cs != [] { HeadNeeds(cs[1..]); }
  }

  /** The machine is at the start of the program, with at least the given run limit. */
  ghost predicate Begins(vm: VM, program: bytes, limit: nat)
  {
    vm.program == program && |program| <= MAX_INT32 && vm.pc == 0 && vm.runLimit >= limit
  }

  /**
   * The program binds what the template says: run in the context of any transaction, from any stack, it leaves true on
   * that stack if the transaction keeps what the template binds, and otherwise fails or leaves false.
   */
  ghost predicate Binds(sha3: bytes -> Hash, t: Template, program: bytes)
  {
    forall env: Env, vm: VM ::
      env.crypto.sha3 == sha3 && TemplateInRange(t) && TimesInRange(env) && Begins(vm, program, Enough(t)) ==>
        DecidesAll(vm, Keeps(env, t, vm.expansionReserved), Outcome(env, vm))
  }

  lemma {:induction false} SigProgramDecides(env: Env, vm: VM, t: Template)
    requires TemplateInRange(t) && TimesInRange(env)
    requires Begins(vm, EncodeAll(SigItems(env.crypto.sha3, t)), Enough(t))
    ensures DecidesAll(vm, Keeps(env, t, vm.expansionReserved), Outcome(env, vm))
  {
    hide Outcome, EncodeAll, Commitments, JoinItems, AllHold, NeedAll, DecidesAll;
    if t.allowAdditional {
      EnoughCovers(env.crypto.sha3, t);
      OpenProgramDecides(env, vm, t);
      CommitmentsKeep(env, t, vm.expansionReserved);
    } else {
      ClosedProgramDecides(env, vm, t);
    }
  }

  lemma {:induction false} SigProgramBinds(sha3: bytes -> Hash, t: Template)
    ensures Binds(sha3, t, EncodeAll(SigItems(sha3, t)))
  {
    hide Outcome, EncodeAll, SigItems, DecidesAll, Keeps, Enough;
    var program := EncodeAll(SigItems(sha3, t));
    forall env: Env, vm: VM
      | env.crypto.sha3 == sha3 && TemplateInRange(t) && TimesInRange(env) && Begins(vm, program, Enough(t))
      ensures DecidesAll(vm, Keeps(env, t, vm.expansionReserved), Outcome(env, vm))
    {
      SigProgramDecides(env, vm, t);
    }
  }

  /** buildSigProgram */
  method BuildSigProgram(sha3: bytes -> Hash, t: Template) returns (program: bytes)
    requires |t.outputs| <= MAX_INT64
    ensures program == EncodeAll(SigItems(sha3, t))
    ensures Binds(sha3, t, program)
  {
    hide EncodeAll, Encode, CodeItems, JoinItems, Binds;
    SigProgramBinds(sha3, t);
    if !t.allowAdditional {
      var builder := new Builder();
      builder.AddData(t.sigHash);
      builder.AddOp(OP_TXSIGHASH);
      builder.AddOp(OP_EQUAL);
      EncodeNone();
      EncodeThree([], Data(t.sigHash), Plain(OP_TXSIGHASH), Plain(OP_EQUAL));
      assert [] + [Data(t.sigHash), Plain(OP_TXSIGHASH), Plain(OP_EQUAL)] == SigItems(sha3, t);
      return builder.program;
    }
    var constraints := [Time(t.minTime, t.maxTime)];
    if t.spentOutput.Some? {
      constraints := constraints + [OutputID(t.spentOutput.value)];
    }
    if |t.refData| > 0 {
      constraints := constraints + [RefData(t.refData, true)];
    }
    constraints := constraints + [RefData(t.inputRefData, false)];
    ghost var start := constraints;
    for i := 0 to |t.outputs|
      invariant constraints == start + PayAll(sha3, t.outputs)[..i]
      invariant forall k :: 0 <= k < |constraints| && constraints[k].Pay? ==> constraints[k].index <= MAX_INT64
    {
      var out := t.outputs[i];
      var hash := None;
      if |out.refData| > 0 {
        hash := Some(sha3(out.refData));
      }
      constraints := constraints + [Pay(i, out.asset, out.amount, out.program, hash)];
      assert constraints == start + (PayAll(sha3, t.outputs)[..i] + [PayFor(sha3, i, out)]);
    }
    assert PayAll(sha3, t.outputs)[..|t.outputs|] == PayAll(sha3, t.outputs);
    assert constraints == Commitments(sha3, t);
    program := JoinCodes(sha3, constraints);
  }

  // ---------------------------------------------------------------- materialize

  /** The first `quorum` signatures that are not empty. */
  function Chosen(sigs: seq<bytes>, quorum: int): (r: seq<bytes>)
    ensures |r| <= |sigs| && (quorum >= 0 ==> |r| <= quorum)
  {
    if sigs == [] || quorum <= 0 then []
    else if |sigs[0]| > 0 then [sigs[0]] + Chosen(sigs[1..], quorum - 1)
    else Chosen(sigs[1..], quorum)
  }

  function NonEmpty(sigs: seq<bytes>): seq<bytes>
  {
    if sigs == [] then [] else if sigs[0] == [] then NonEmpty(sigs[1..]) else [sigs[0]] + NonEmpty(sigs[1..])
  }

  /** They are the signatures that are not empty, in their order, cut off at the quorum. */
  lemma {:induction false} ChosenAreFirst(sigs: seq<bytes>, quorum: nat)
    ensures Chosen(sigs, quorum) == if |NonEmpty(sigs)| <= quorum then NonEmpty(sigs) else NonEmpty(sigs)[..quorum]
    decreases |sigs|
  {
    if sigs != [] && quorum > 0 {
      ChosenAreFirst(sigs[1..], if sigs[0] == [] then quorum else quorum - 1);
    }
  }

  /** The arguments after materialize: the count of those before, the signatures, the program. */
  function Materialized(args: seq<bytes>, sigs: seq<bytes>, program: bytes): seq<bytes>
    requires |args| <= MAX_INT64
  {
    args + [Int64Bytes(|args|)] + sigs + [program]
  }

  method Materialize(args0: seq<bytes>, sigs: seq<bytes>, quorum: int, program: bytes) returns (args: seq<bytes>)
    requires |args0| <= MAX_INT64
    ensures args == Materialized(args0, Chosen(sigs, quorum), program)
  {
    hide Int64Bytes;
    args := args0 + [Int64Bytes(|args0|)];
    ghost var start := args;
    var nsigs := 0;
    var i := 0;
    while i < |sigs| && nsigs < quorum
      invariant 0 <= i <= |sigs|
      invariant args + Chosen(sigs[i..], quorum - nsigs) == start + Chosen(sigs, quorum)
    {
      assert sigs[i..][1..] == sigs[i + 1..];
      if |sigs[i]| > 0 {
        assert args + ([sigs[i]] + Chosen(sigs[i + 1..], quorum - nsigs - 1)) == args + [sigs[i]] + Chosen(sigs[i + 1..], quorum - nsigs - 1);
        args := args + [sigs[i]];
        nsigs := nsigs + 1;
      }
      i := i + 1;
    }
    assert args == start + Chosen(sigs, quorum);
    args := args + [program];
  }
}
