/** protocol/vm/crypto.go: hashes, signatures, and the greedy matching of CHECKMULTISIG. */
module CryptoOps {
  import opened Basics
  import opened VmTypes
  import opened Checked
  import opened Machine

  const PUBLIC_KEY_SIZE := 32

  /** The hash functions and the signature check, which the machine takes as given. */
  datatype Crypto = Crypto(
    sha256: bytes -> Hash,
    sha3: bytes -> Hash,
    // key, message, signature
    verify: (bytes, bytes, bytes) -> bool)

  function DoHash(vm: VM, hash: bytes -> Hash): (r: Res<VM>)
    requires Ready(vm)
    ensures Meter(vm, r)
  {
    hide Weight, ApplyCost, Pop, Push;
    var (vm, x) :- Pop(vm, false);
    var vm :- ApplyCost(vm, if |x| < 64 then 64 else |x|);
    Push(vm, hash(x))
  }

  function OpCheckSig(c: Crypto, vm: VM): (r: Res<VM>)
    requires Ready(vm)
    ensures Meter(vm, r)
  {
    hide Weight, ApplyCost, Pop, PushDeferred;
    var vm :- ApplyCost(vm, 1024);
    var (vm, key) :- Pop(vm, true);
    var (vm, msg) :- Pop(vm, true);
    var (vm, sig) :- Pop(vm, true);
    if |msg| != 32 then Stop(vm, BadValue)
    else Go(PushBool(vm, |key| == PUBLIC_KEY_SIZE && c.verify(key, msg, sig)))
  }

  /** Pop n items; the first one popped comes first. */
  function PopMany(vm: VM, n: nat): (r: Res<(VM, seq<bytes>)>)
    requires Ready(vm)
    ensures r.Go? <==> n <= |vm.dataStack|
    ensures r.Go? ==> |r.value.1| == n && |r.value.0.dataStack| == |vm.dataStack| - n
    ensures r.Go? ==> r.value.0.dataStack == vm.dataStack[..|vm.dataStack| - n]
    ensures r.Go? ==> Weight(r.value.0) == Weight(vm) && Ready(r.value.0) && SameFrame(r.value.0, vm)
    ensures r.Go? ==> r.value.0.runLimit == vm.runLimit
    ensures r.Stop? ==> Stopped(vm, r.vm) && r.err == DataStackUnderflow
    decreases n
  {
    hide Weight, Pop;
    if n == 0 then Go((vm, []))
    else
      var (vm, item) :- Pop(vm, true);
      var (vm, items) :- PopMany(vm, n - 1);
      Go((vm, [item] + items))
  }

  /** The matching loop: a key that verifies the first signature uses it up; a key is dropped either way. */
  predicate Greedy(c: Crypto, msg: bytes, keys: seq<bytes>, sigs: seq<bytes>)
    decreases |keys|
  {
    if sigs == [] then true
    else if keys == [] then false
    else Greedy(c, msg, keys[1..], if c.verify(keys[0], msg, sigs[0]) then sigs[1..] else sigs)
  }

  predicate AllKeySized(keys: seq<bytes>)
  {
    forall i :: 0 <= i < |keys| ==> |keys[i]| == PUBLIC_KEY_SIZE
  }

  /**
   * CHECKMULTISIG is the one opcode that may cost nothing: with zero keys it keeps the weight and leaves
   * the data stack two items shorter.
   */
  ghost predicate MultiSigMeter(vm: VM, r: Res<VM>)
  {
    || Meter(vm, r)
    || (r.Go? && Weight(r.value) == Weight(vm) && |r.value.dataStack| == |vm.dataStack| - 2
        && r.value.runLimit >= 0 && r.value.nextPC < TWO_32 && SameFrame(r.value, vm))
  }

  ghost predicate Counted(vm: VM, r: Res<(VM, nat, nat)>)
  {
    match r
    case Go((w, numPubkeys, numSigs)) =>
      && Ready(w) && SameFrame(w, vm)
      && numSigs <= numPubkeys && (numSigs == 0 ==> numPubkeys == 0)
      && Weight(w) == Weight(vm) - 1024 * numPubkeys && |w.dataStack| == |vm.dataStack| - 2
    case Stop(w, e) => Stopped(vm, w) && e != EndCharge
  }

  /** The two counts, with the charge for the keys. */
  function PopCounts(vm: VM): (r: Res<(VM, nat, nat)>)
    requires Ready(vm)
    ensures Counted(vm, r)
  {
    hide Weight, ApplyCost, PopInt64, AsInt64, MulInt64;
    var (vm, numPubkeys) :- PopInt64(vm, true);
    var pubCost := MulInt64(numPubkeys, 1024);
    if numPubkeys < 0 || pubCost.None? then Stop(vm, BadValue)
    else
      var vm :- ApplyCost(vm, pubCost.value);
      var (vm, numSigs) :- PopInt64(vm, true);
      if numSigs < 0 || numSigs > numPubkeys || (numPubkeys > 0 && numSigs == 0) then Stop(vm, BadValue)
      else Go((vm, numPubkeys, numSigs))
  }

  function OpCheckMultiSig(c: Crypto, vm: VM): (r: Res<VM>)
    requires Ready(vm)
    ensures MultiSigMeter(vm, r)
  {
    hide Weight, PopCounts, MultiSigTail;
    var (vm, numPubkeys, numSigs) :- PopCounts(vm);
    MultiSigTail(c, vm, numPubkeys, numSigs)
  }

  /** Keys, message and signatures, and the verdict. */
  function MultiSigTail(c: Crypto, vm: VM, numPubkeys: nat, numSigs: nat): (r: Res<VM>)
    requires Ready(vm)
    ensures MultiSigPopped(vm, numPubkeys, numSigs, r)
  {
    hide Weight, Pop, PopMany, PushDeferred, Greedy, AllKeySized;
    var (vm, keys) :- PopMany(vm, numPubkeys);
    var (vm, msg) :- Pop(vm, true);
    if |msg| != 32 then Stop(vm, BadValue)
    else
      var (vm, sigs) :- PopMany(vm, numSigs);
      Go(PushBool(vm, AllKeySized(keys) && Greedy(c, msg, keys, sigs)))
  }

  ghost predicate MultiSigPopped(vm: VM, numPubkeys: nat, numSigs: nat, r: Res<VM>)
  {
    match r
    case Go(w) =>
      && Weight(w) == Weight(vm) && |w.dataStack| == |vm.dataStack| - numPubkeys - numSigs
      && w.runLimit >= 0 && w.nextPC < TWO_32 && SameFrame(w, vm)
    case Stop(w, e) => Stopped(vm, w) && e != EndCharge
  }

  function OpTxSigHash(vm: VM, hash: Option<bytes>): (r: Res<VM>)
    requires Ready(vm)
    ensures Meter(vm, r)
  {
    hide Weight, ApplyCost, Push;
    var vm :- ApplyCost(vm, 256);
    match hash
    case None => Stop(vm, Context)
    case Some(h) => Push(vm, h)
  }

  function OpBlockHash(vm: VM, hash: Option<bytes>): (r: Res<VM>)
    requires Ready(vm)
    ensures Meter(vm, r)
  {
    hide Weight, ApplyCost, Push;
    var vm :- ApplyCost(vm, 1);
    match hash
    case None => Stop(vm, Context)
    case Some(h) => Push(vm, h)
  }
}
