# Chain Core ledger engine: a verified model

Chain Core keeps a ledger of assets. A transaction consumes outputs and issuances and makes new outputs; every one of
them is guarded by a program for a small metered stack machine. This project models the parts of that engine that
decide what is valid and what the ledger holds, and proves what they guarantee.

| part | files | main results |
|---|---|---|
| the virtual machine | Machine, DataOps, StackOps, CryptoOps, Programs, Interpreter, Outcomes, VirtualMachine, Metering, Endless, OpMeaning, MultiSig, Effects, EffectsHold, DataEffects, CryptoEffects, PredicateEffects, Disassembly | every step has exactly the effect, price and errors of a table without a machine in it; where no nested machine stops on its end-of-step charge, every step is paid for and every run ends within a bound counted in instructions; without that condition a program runs forever; the greedy multisig loop is complete |
| programs for it | Assembly, Scripts, Straightline, Constraints, Witness, Lock | parsing a built program gives back what was built; compiled constraints are decided exactly; what a signature binds is stated in the fields of the transaction; the multisig lock and its witness fit together |
| the state tree | PatriciaShape, PatriciaHistory, BitKeys, PatriciaTree, TreeRoots, Merkle | the tree is a set, its shape and root do not depend on history, the root is that of the set and fixes it, sharing and cached hashes are safe |
| validation | Entries, Validation, Checker, Balance, Links, LegacyTx, TxMapper, MapTx, MappedValid, MappedAccept, EntryContext, EntryPrograms, MachineVerdicts, TxIds, InputContext, OwnCommitments | the memoised check is the plain one; a legacy transaction maps to an acyclic graph and, with the machine's verdicts, is accepted exactly when stated conditions hold; what its identifier and its signatures commit to |
| state, replay, blocks | StateValue, Snapshot, Ledger, DoubleSpend, Replay, Generator, ApplyRules, BlockRules, ReplayProtection | conservation over any run of blocks, and the transaction that breaks it; recovery equals full replay; no nonce is used twice in a valid chain; a block is valid exactly when stated conditions hold; generated blocks lead to the generator's state exactly when no candidate fails half way |
| around it | Reservations, Reserver, Pin, Filter, FilterParser, WireCodec, WireReader, WireTx | no output is reserved twice under any interleaving; the pin height is a contiguous high-water mark; parser and printer undo each other; the wire round trip and exactly when it holds |

The code that updates things in place is imperative here too: the machine (`VirtualMachines.VirtualMachine`), the tree
and its nodes (`PatriciaTree.Node`, `PatriciaTree.Tree`), the snapshot, the validation cache, the reserver, the pin, the
parser, the reader and the program builder are classes. Each of their methods is proved equal to a function on values, and
the theorems are about those functions. Where a function is itself the code's recursion or loop, its meaning is stated
apart from it: what an opcode does by a table of stack effects, what a tree's root is by a recursion over sets, when a
block is valid, a transaction applies or a nonce is held by conditions on their fields. Hash functions, signature checks, the database and the clock are parameters.

What the model calls *owned* is the machine's run limit plus the price of everything on its two stacks. Pushing and
popping keep it, instructions lower it, and a nested machine borrows part of it and gives the rest back. A machine that
cannot pay the charge at the end of a step stops with the unpaid item on its stack; where that machine is nested, the
item is refunded to its parent. The bounds on the machine hold for the runs in which that does not happen
(`Metering.NoNestedEndCharge`).

## Model

| member | source | states |
|---|---|---|
| `Metering.StepLowers` | protocol/vm/vm.go:97-141 | if no nested machine stops on its end-of-step charge, every successful step leaves the run limit at zero or more and lowers what the machine owns, except CHECKMULTISIG, which may keep it and then shortens the data stack by two; CHECKPREDICATE costs at least 64; and what is left is such a run again |
| `Metering.EveryReachedStateIsPaidFor` | protocol/vm/vm.go:87-141 | in every state such a run passes through, run limit and stacks stay within what the machine started with, and the steps taken so far are at most twice what was owned plus the stack depth |
| `Metering.CleanRunsEnd` | protocol/vm/vm.go:87-95 | every such run ends, and what it comes to is within the bound: steps plus potential never grew |
| `Metering.VerifyIsBounded` | protocol/vm/vm.go:43-78 | if no nested machine stops on its end-of-step charge, verification returns and begins at most 21251 instructions, counting those of all nested machines, and a successful run ends owning at most the initial 10000 |
| `Metering.NoPredicateIsClean` | protocol/vm/control.go:30-79 | a program without the byte of CHECKPREDICATE meets that condition |
| `Endless.VerifyNeverReturns` | protocol/vm/control.go:71-79 | without the condition the bound is false: verification of a certain program of 62 bytes never returns |
| `Endless.LoopGoesOn` | protocol/vm/vm.go:87-95 | the run of that program has a state after every number of steps |
| `Endless.Turn` | protocol/vm/control.go:71-79 | six steps, all successful, bring it back to the same stack and the same run limit |
| `Outcomes.OutcomeUnfolds` | protocol/vm/vm.go:87-95 | what a run comes to, however long it takes, is what the loop says: done at the end of the program, otherwise a step and then the rest, and nothing if the step never ends |
| `Outcomes.OutcomeIs` | protocol/vm/vm.go:87-95 | whoever waits long enough sees that outcome |
| `Outcomes.ForeverHasNoOutcome` | protocol/vm/vm.go:87-95 | a run with a state after every number of steps has no outcome |
| `Metering.PredicateStepExact` | protocol/vm/control.go:30-79 | a child starts at least 280 below its parent; whatever state the child ends in, the step costs 64 plus what the child used; it lowers what is owned if and only if the child hands back less than 64 more than it got |
| `Metering.EndChargeKeepsTheItem` | protocol/vm/vm.go:120-131 | a child that stops on the charge at the end of a step keeps the item it could not pay for, so its end can own more than its start |
| `Metering.PushAll` | protocol/vm/vm.go:65-71 | the arguments are pushed exactly when the run limit covers their price; what is owned stays, and exactly the arguments are appended |
| `CryptoEffects.StepHolds` | protocol/vm/vm.go:97-141 | for every byte but that of CHECKPREDICATE, a step has the effect of a table of stack effects: which items go, which come in their place, where execution goes on; the run limit falls by the fee and by what the stacks are now worth more; and it is refused, with the error named, exactly when stated |
| `CryptoEffects.LeafHolds` | protocol/vm/ops.go:224-330 | the same of the operation alone: for every opcode the items taken and given, the alternative stack, the jump, the fee, the run limit below which it is refused, and its errors in their order |
| `EffectsHold.StackHolds` | protocol/vm/stack.go:5-312 | the opcodes that move items: each puts on top the items at the depths listed, for the price listed |
| `EffectsHold.ControlHolds` | protocol/vm/control.go:7-105 | pushes, NOP, jumps, VERIFY and FAIL |
| `DataEffects.BytesHolds` | protocol/vm/splice.go:5-170 | CAT, SUBSTR, LEFT, RIGHT, SIZE, INVERT, the bitwise opcodes and the comparisons of strings, with the order in which operands are taken and looked at |
| `DataEffects.NumericHolds` | protocol/vm/numeric.go:9-459 | the numeric opcodes: operand order, bad operands, fees and results |
| `CryptoEffects.CheckSigHolds` | protocol/vm/crypto.go:42-66 | CHECKSIG takes signature, message and key from the bottom up, wants a message of 32 bytes, and pushes the verdict for 1024 units |
| `CryptoEffects.MultiSigHolds` | protocol/vm/crypto.go:68-127 | CHECKMULTISIG with all its errors and its price; the verdict is that the signatures match keys in the order pushed |
| `CryptoEffects.CheckOutputHolds` | protocol/vm/introspection.go:5-54 | CHECKOUTPUT hands its six operands to the context in the right places, and is refused for each bad one in the order they are popped |
| `CryptoEffects.FieldHolds` | protocol/vm/introspection.go:56-209 | the other introspection opcodes each push their own field of the context, or are refused where it is absent |
| `PredicateEffects.PredicateOpens` | protocol/vm/control.go:30-69 | CHECKPREDICATE starts a fresh machine, one level deeper, with exactly the program, the limit (zero lends all that is left) and the items named; the parent keeps the rest; and each way it is refused |
| `Interpreter.OpenPredicate` | protocol/vm/control.go:30-69 | what parent and child own together is what there was less 64, and their stacks together the old stack less the three operands |
| `Interpreter.Settle` | protocol/vm/control.go:71-79 | the parent gets back all the child still owns, and one boolean on its stack |
| `Interpreter.ExecLeaf` | protocol/vm/ops.go:224-330 | every other opcode gives up at least one unit and one for each item by which it deepens the stack; stopped, it owns no more than before |
| `Interpreter.OpJump` | protocol/vm/control.go:81-89 | jumps to the four-byte little-endian address, exactly when a unit can be paid |
| `Interpreter.OpJumpIf` | protocol/vm/control.go:91-105 | pops the condition and jumps there exactly when it is true |
| `Machine.ApplyCost` | protocol/vm/vm.go:199-205 | refused exactly when the cost is above the run limit |
| `Machine.PushDeferred` | protocol/vm/vm.go:143-155 | a deferred push keeps weight and run limit |
| `Machine.Push` | protocol/vm/vm.go:143-155 | an immediate push keeps the weight, and is refused exactly when the limit is too low |
| `Machine.Pop` | protocol/vm/vm.go:165-180 | pop undoes push and keeps the weight |
| `Machine.PopInt64` | protocol/vm/vm.go:182-189 | succeeds exactly on a top item of at most eight bytes and reads it as an integer |
| `Machine.ComputeStackCost` | protocol/vm/vm.go:211-217 | the loop computes the sum over the stack of eight plus the length of each item |
| `Machine.StackCostConcat` | protocol/vm/vm.go:211-217 | the cost of stacks is additive |
| `VirtualMachines.VirtualMachine.Step` | protocol/vm/vm.go:97-141 | the step in place, for those who wait k steps of nested machines, leaves the machine and the error that the step on values gives |
| `VirtualMachines.VirtualMachine.Run` | protocol/vm/vm.go:87-95 | so does the run loop |
| `VirtualMachines.VirtualMachine.OpCheckPredicate` | protocol/vm/control.go:30-79 | so does CHECKPREDICATE, which runs a fresh child object and settles whatever way it ended; a panic unwinds |
| `VirtualMachines.VirtualMachine.Refund` | protocol/vm/control.go:71-79 | the three refunds and the verdict |
| `VirtualMachines.VirtualMachine.OpCheckMultiSig` | protocol/vm/crypto.go:68-127 | so does CHECKMULTISIG, with its popping loops and the key-size loop |
| `VirtualMachines.VirtualMachine.OpOr` | protocol/vm/bitwise.go:64-107 | OR and XOR in place, with their byte loop |
| `VirtualMachines.VirtualMachine.OpAnd` | protocol/vm/bitwise.go:28-54 | AND in place, with its byte loop |
| `VirtualMachines.VirtualMachine.OpInvert` | protocol/vm/bitwise.go:5-26 | INVERT in place, with its byte loop |
| `VirtualMachines.VirtualMachine.OpJumpIf` | protocol/vm/control.go:91-105 | the conditional jump in place |
| `VirtualMachines.VirtualMachine.Push` | protocol/vm/vm.go:143-155 | the two kinds of push in place |
| `VirtualMachines.VirtualMachine.Pop` | protocol/vm/vm.go:165-180 | the two kinds of pop in place |
| `VirtualMachines.MatchSignatures` | protocol/vm/crypto.go:120-126 | the loop that shortens two slices computes the greedy matching |
| `VirtualMachines.VerifyContext` | protocol/vm/vm.go:43-78 | Verify in place: version, arguments, run, top of stack |
| `VirtualMachines.VerifyForTells` | protocol/vm/vm.go:43-78 | an answer after any number of steps is the verdict, and there is one after some number unless verification never returns |
| `MultiSig.GreedyComplete` | protocol/vm/crypto.go:120-126 | the greedy loop succeeds if and only if some order-preserving one-to-one matching of all signatures into the keys verifies, for any verification function |
| `MultiSig.MatchReversed` | protocol/vm/crypto.go:88-112 | popping both lists in reverse does not change whether they match |
| `MultiSig.TailMeaning` | protocol/vm/crypto.go:88-126 | CHECKMULTISIG pushes true exactly when all keys have the right size and the signatures match keys in the order both were pushed |
| `CryptoOps.PopMany` | protocol/vm/crypto.go:88-95 | popping n items succeeds exactly when there are n and removes exactly those |
| `CryptoOps.PopCounts` | protocol/vm/crypto.go:69-87 | the two counts: 1024 units a key, no more signatures than keys, and no keys without signatures |
| `OpMeaning.CopyUpMeaning` | protocol/vm/stack.go:63-70 | the copying loop puts a block of the stack on top, for exactly its price |
| `OpMeaning.ModMeaning` | protocol/vm/numeric.go:210-239 | MOD is the remainder of the division that rounds down, and is refused exactly for zero and for the smallest integer by minus one |
| `OpMeaning.BinaryMeaning` | protocol/vm/numeric.go:127-286 | every two-operand opcode has a result exactly when its mathematical result fits, and its item reads back as that result |
| `OpMeaning.BinaryStack` | protocol/vm/numeric.go:127-286 | run on x below y, the opcode succeeds exactly when it is paid for and defined, and pushes what it denotes |
| `OpMeaning.UnaryMeaning` | protocol/vm/numeric.go:9-125 | every one-operand opcode has a result exactly when its mathematical result fits, and its item reads back as that result |
| `OpMeaning.UnaryStack` | protocol/vm/numeric.go:9-125 | run on n, the opcode succeeds exactly when it is paid for and defined, and pushes what it denotes |
| `OpMeaning.WithinMeaning` | protocol/vm/numeric.go:441-459 | whether x is at least the lower and below the upper bound, in the order they were pushed |
| `DataOps.ComputeInverted` | protocol/vm/bitwise.go:19-24 | the loop complements every byte |
| `DataOps.ComputeConjoined` | protocol/vm/bitwise.go:50-54 | the loop takes the bytewise conjunction over the shorter length |
| `DataOps.ComputeDisjoined` | protocol/vm/bitwise.go:85-107 | the loop pads the shorter operand with zeros |
| `Checked.AddInt64` | math/checked/checked.go:16-22 | refused exactly when the sum does not fit |
| `Checked.SubInt64` | math/checked/checked.go:26-32 | refused exactly when the difference does not fit |
| `Checked.MulInt64` | math/checked/checked.go:36-44 | the four guards refuse exactly the products that do not fit |
| `Checked.DivInt64` | math/checked/checked.go:48-53 | refused exactly for zero and when the quotient does not fit |
| `Checked.LshiftInt64` | math/checked/checked.go:75-83 | refused exactly for shifts outside 0 to 63 and results that do not fit |
| `Checked.AddUint32` | math/checked/checked.go:215-220 | refused exactly when the sum needs more than 32 bits |
| `Checked.QuotientRemainder` | math/checked/checked.go:48-62 | truncated quotient and remainder belong together |
| `VmTypes.Int64RoundTrip` | protocol/vm/types.go:23-52 | every 64-bit integer reads back from its bytes unchanged |
| `VmTypes.BoolRoundTrip` | protocol/vm/types.go:7-35 | booleans read back, and an integer reads as true exactly when it is not zero |
| `VmTypes.ComputeInt64Bytes` | protocol/vm/types.go:23-35 | the trimming loop gives the shortest little-endian bytes |
| `VmTypes.ComputeAsBool` | protocol/vm/types.go:14-21 | the loop finds whether some byte is not zero |
| `Programs.ParseOp` | protocol/vm/ops.go:337-445 | a parsed instruction has at least one byte, lies inside the program and carries the opcode found there |
| `Disassembly.ParseExact` | protocol/vm/ops.go:337-445 | an instruction is parsed at a place exactly when its bytes, opcode, length and data, are written there: parsing is the inverse of writing |
| `Assembly.ParseBuilt` | protocol/vm/ops.go:447-462 | any sequence of builder pushes and dataless opcodes parses to exactly those instructions |
| `Assembly.ParseConcat` | protocol/vm/ops.go:447-462 | a program that parses, followed by another, parses to the two lists one after the other |
| `Assembly.ParseOpIsLocal` | protocol/vm/ops.go:337-445 | an instruction depends only on its own bytes, not on where they are |
| `Assembly.ParsePush` | protocol/vm/pushdata.go:35-54 | all five forms of a push parse back to their data |
| `Assembly.IntReadsBack` | protocol/vm/pushdata.go:56-64 | a pushed integer reads back unchanged from its instruction |
| `Assembly.ComputeParseProgram` | protocol/vm/ops.go:447-462 | the loop over pc computes the instruction list or its first error |
| `Scripts.BlockMultiSigProgram` | protocol/vmutil/script.go:23-35 | refused exactly for bad parameters; otherwise the program of the documented items |
| `Scripts.P2SPMultiSigProgram` | protocol/vmutil/script.go:76-95 | refused exactly for bad parameters; otherwise the program of the documented items |
| `Scripts.ComputeCollectKeys` | protocol/vmutil/script.go:65-73 | the key loop; a key of the wrong size ends it with no keys, no quorum and no error |
| `Scripts.ParseBlockMultiSigProgram` | protocol/vmutil/script.go:37-74 | the parser with its loops gives what the parser on instruction lists gives, with every error |
| `Scripts.ParseP2SPMultiSigProgram` | protocol/vmutil/script.go:97-136 | so does the parser of locks |
| `Scripts.BlockRoundTrip` | protocol/vmutil/script.go:37-74 | the block parser recovers keys and quorum from every built program |
| `Scripts.P2SPRoundTrip` | protocol/vmutil/script.go:97-136 | the lock parser recovers keys and quorum behind any program that parses, exactly when there is a key or an instruction in front |
| `Straightline.LoadedParses` | protocol/vm/vm.go:97-103 | a machine standing before built items parses the first of them |
| `Straightline.Advance` | protocol/vm/vm.go:119-132 | an operation that can pay for itself is one step of the run, and the machine then stands before the remaining items |
| `Straightline.RunPush` | protocol/vm/pushdata.go:13-21 | a built push, run, puts its data on the stack for nine units plus its length |
| `Straightline.RunCompare` | protocol/vm/numeric.go:372-401 | the comparisons the compilers emit, run on any stack |
| `Straightline.RunEqual` | protocol/vm/bitwise.go:109-150 | EQUAL, run on any stack, with the run limit at which it fails |
| `Straightline.RunField` | protocol/vm/introspection.go:89-141 | the context opcodes push their field, or fail exactly when it is absent or cannot be paid for |
| `Straightline.RunCheckOutput` | protocol/vm/introspection.go:5-54 | CHECKOUTPUT hands its six operands to the context in the right places and pushes the verdict |
| `Constraints.Code` | core/txbuilder/constraint.go:26-101 | the four compilers, through a builder, emit the items of their constraint |
| `Constraints.RunConstraint` | core/txbuilder/constraint.go:14-22 | each code consumes nothing and leaves true exactly when its constraint holds; otherwise it leaves false or fails |
| `Constraints.CompiledDecides` | core/txbuilder/witness.go:180-191 | a list of constraints compiled and joined with VERIFY, run from any stack with enough run limit, leaves that stack and true exactly when all hold; otherwise it fails or leaves false |
| `Witness.BuildSigProgram` | core/txbuilder/witness.go:141-191 | the program built for a template, run in the context of any transaction, leaves true exactly if that transaction keeps what the template binds: the signature hash, or the time bounds, the spent output, the reference data where there is any, the input data, and each output at its index; stated over the bytes returned and the fields of template and context |
| `Witness.OpenProgramDecides` | core/txbuilder/witness.go:149-191 | the program of an open transaction decides exactly whether the transaction at hand keeps every compiled commitment |
| `Witness.SigProgramDecides` | core/txbuilder/witness.go:141-191 | what the commitments come to, field by field, for open and closed templates |
| `Witness.CommitmentsKeep` | core/txbuilder/witness.go:149-183 | all commitments hold if and only if the times, the spent output, both reference data and all outputs do |
| `Witness.ClosedProgramDecides` | core/txbuilder/witness.go:142-148 | the program of a closed transaction decides exactly whether the signature hash is the one it was built for |
| `Witness.Materialize` | core/txbuilder/witness.go:193-209 | the arguments become themselves, their count, the first signatures that are not empty up to the quorum, and the program |
| `Witness.ChosenAreFirst` | core/txbuilder/witness.go:200-206 | the signatures taken are those that are not empty, in their order, cut off at the quorum |
| `Lock.LockFitsWitness` | protocol/vmutil/script.go:76-95 | run on a witness with exactly the required signatures and enough run limit, the lock succeeds if and only if the keys have the right size, the signatures match keys in order over the hash of the predicate, and the predicate succeeds on its arguments with the run limit that is left |
| `Lock.VerifyLock` | core/txbuilder/witness.go:193-209 | the same through Verify, from the initial run limit |
| `Lock.RunPredicate` | protocol/vm/control.go:30-79 | CHECKPREDICATE with limit zero lends everything and pushes whether the child succeeded; it never ends if the child never ends, and unwinds if the child panics |
| `Lock.RunMultiSig` | protocol/vm/crypto.go:68-127 | CHECKMULTISIG run on counts, keys, message and signatures, with the exact run limit after it |
| `PatriciaShape.InsertMeaning` | protocol/patricia/patricia.go:127-171 | insert adds exactly the key, keeps the tree well formed, and fails exactly when the key is a proper prefix or extension of an item |
| `PatriciaShape.DeleteMeaning` | protocol/patricia/patricia.go:181-207 | delete removes exactly the key and keeps the tree well formed |
| `PatriciaShape.LookupMeaning` | protocol/patricia/patricia.go:86-104 | lookup decides membership |
| `PatriciaShape.Canonical` | protocol/patricia/patricia.go:127-207 | two well-formed trees with the same items are the same tree |
| `PatriciaShape.PrefixFree` | protocol/patricia/patricia.go:127-171 | no item is a proper prefix of another |
| `PatriciaShape.WalkVisitsEachOnce` | protocol/patricia/patricia.go:47-66 | the walk lists every item exactly once |
| `PatriciaHistory.TreeIsASet` | protocol/patricia/patricia.go:69-207 | on equal-length items Contains, Insert and Delete are membership, union and removal, and Insert never fails |
| `PatriciaHistory.TreeHoldsSet` | protocol/patricia/patricia.go:107-207 | after any edits of equal-length items the tree holds exactly the set they make |
| `PatriciaHistory.HistoryIndependent` | protocol/patricia/patricia.go:107-216 | two histories that make the same set end in the same tree and the same root |
| `PatriciaHistory.SaveThenRebuild` | protocol/patricia/patricia.go:47-66 | inserting what the walk lists, in that order, rebuilds the tree |
| `PatriciaHistory.SavedHistoryRebuilds` | protocol/patricia/patricia.go:47-66 | whatever edits of equal-length items a tree comes from, inserting what the walk lists gives it back, and the walk lists nothing twice |
| `BitKeys.ByteKeyBitKey` | protocol/patricia/patricia.go:220-242 | byteKey undoes bitKey |
| `BitKeys.ComputeBitKey` | protocol/patricia/patricia.go:220-229 | the bit loop, most significant bit first |
| `BitKeys.ComputeByteKey` | protocol/patricia/patricia.go:231-242 | the byte loop |
| `PatriciaTree.InsertNode` | protocol/patricia/patricia.go:127-171 | path copying builds the inserted tree out of old and fresh nodes only, and every cached hash stays right |
| `PatriciaTree.DeleteNode` | protocol/patricia/patricia.go:181-207 | path copying builds the tree without the key, and every cached hash stays right |
| `PatriciaTree.LookupNode` | protocol/patricia/patricia.go:86-104 | finds the leaf of the key, if there is one |
| `PatriciaTree.WalkNode` | protocol/patricia/patricia.go:54-66 | lists the items in order |
| `PatriciaTree.Node.CalcHash` | protocol/patricia/patricia.go:273-289 | fills every empty hash below with the hash recomputed from the structure, which is that of the set of items (`TreeRoots.RootIsOfSet`), and changes nothing else |
| `PatriciaTree.CommonPrefixLen` | protocol/patricia/patricia.go:244-253 | the loop finds the longest common prefix |
| `PatriciaTree.Tree.Contains` | protocol/patricia/patricia.go:69-83 | decides membership; only caches may change |
| `PatriciaTree.Tree.Insert` | protocol/patricia/patricia.go:107-125 | the tree object moves to the inserted tree; trees that share its nodes keep their value |
| `PatriciaTree.Tree.Delete` | protocol/patricia/patricia.go:173-179 | the tree object moves to the tree without the item; trees that share its nodes keep their value |
| `PatriciaTree.Tree.RootHash` | protocol/patricia/patricia.go:210-216 | the root hash of the structure, which fixes the items held (`TreeRoots.RootCommits`) |
| `TreeRoots.RootIsOfSet` | protocol/patricia/patricia.go:210-289 | the root of a tree is that of its set of items, by a recursion over bits that knows no trees: zero for none, the item's hash for one, otherwise the two halves at the first bit where items differ, the zeros first |
| `TreeRoots.RootCommits` | protocol/patricia/patricia.go:273-289 | where the hash function does not collide on what is hashed for two trees, and gives none of it the zero hash, their roots agree if and only if they hold the same items, and then the trees are equal |
| `TreeRoots.PrefixesSeparate` | protocol/patricia/patricia.go:112-119 | the prefixes 0 and 1 keep leaves and inner nodes apart: a collision there is one of SHA3 itself |
| `TreeRoots.RootFixesOutputs` | protocol/patricia/patricia.go:210-216 | so the root of a ledger state fixes its unspent outputs |
| `Merkle.RootIsLevelByLevel` | protocol/bc/merkle.go:16-50 | the recursive Merkle root of a block's transactions is the top of the tree built level by level, an odd node going up as it is |
| `Merkle.MerkleCommits` | protocol/bc/merkle.go:16-50 | without collisions, equal roots mean the same transaction identifiers in the same order, whatever the lengths |
| `Merkle.PrevPowerOfTwo` | protocol/bc/merkle.go:52-64 | a power of two below n and at least half of it |
| `PatriciaTree.Tree.Walk` | protocol/patricia/patricia.go:47-52 | the items in order |
| `Checker.ValidationState.CheckValid` | protocol/validation/validation.go:59-67 | with the shared cache, whatever sound verdicts it holds, the verdict is that of the cache-free recursion |
| `Checker.ValidationState.CheckCases` | protocol/validation/validation.go:69-314 | each kind of entry is checked as the cache-free recursion checks it |
| `Checker.ValidationState.CheckSrc` | protocol/validation/validation.go:323-384 | so is a source and the destination it must agree with |
| `Checker.ValidationState.ValidateTx` | protocol/validation/validation.go:517-526 | the memoised validator accepts exactly what the plain one accepts |
| `Checker.ComputeParity` | protocol/validation/validation.go:122-148 | the loops over the parity map give the verdict of the plain sums |
| `Balance.ParityExact` | protocol/validation/validation.go:122-148 | the parity check passes exactly when every partial sum fits, every destination asset has a source and every asset balances |
| `Links.SourcesPointBack` | protocol/validation/validation.go:323-384 | in an accepted mux every source and the destination it reads point at each other with equal position and value |
| `Links.NoSourceTwice` | protocol/validation/validation.go:323-384 | so no entry feeds an accepted mux twice |
| `TxMapper.MapEntries` | protocol/bc/legacy/map.go:65-216 | the loops that fill the entry map build exactly the entries that the closed forms describe |
| `MapTx.MapTx` | protocol/bc/legacy/map.go:12-63 | the mapped transaction lists spent outputs, nonces and inputs as the closed forms say |
| `MappedValid.MappedIsGraph` | protocol/bc/legacy/map.go:65-216 | every mapped transaction is an acyclic graph keyed by entry ids |
| `MappedAccept.ValidateExact` | protocol/validation/validation.go:69-314 | for any verdicts on programs, a mapped transaction is valid if and only if its times are in order, it has outputs (or another version than 1), and, with outputs, the programs of the mux, of every input and of every nonce pass, the inputs are known, not repeated and anchored, and the values balance |
| `MachineVerdicts.ValidateWithMachine` | protocol/validation/validation.go:69-314 | the same with the machine's own verdicts on the contexts of the entries: there the mux's program is no condition, and a nonce's is one on its length |
| `MachineVerdicts.MuxPasses` | protocol/bc/legacy/map.go:165 | the program of a mux always passes |
| `MachineVerdicts.NoncePasses` | protocol/bc/legacy/map.go:128-132 | the program of a nonce passes exactly when the nonce has at most 9990 bytes and the entry it anchors issues its asset |
| `EntryPrograms.NonceProgramPasses` | protocol/bc/legacy/map.go:128-132 | the same on the machine alone, for every context and every nonce |
| `EntryPrograms.TrueProgramPasses` | protocol/vm/vm.go:43-78 | the one-byte program TRUE is accepted in every context |
| `EntryPrograms.UnspendableNeverPasses` | protocol/vm/control.go:22-28 | a program that begins with FAIL is refused, whatever its arguments and context |
| `MachineVerdicts.UnspendableIsNeverSpent` | protocol/bc/legacy/map.go:181-193 | so no transaction that spends an unspendable output is accepted |
| `MachineVerdicts.CheckOutputMeans` | protocol/validation/vmcontext.go:131-205 | seen from an input of a mapped transaction, checkOutput says whether the transaction has that output at that index, a retirement counting as an output of version 0 without a program, or with any where expansion is reserved; beyond the last output it is an error |
| `MachineVerdicts.SpendSeesOutputs` | protocol/validation/vmcontext.go:25-122 | so does CHECKOUTPUT in the context of a spend |
| `MachineVerdicts.IssuanceSeesOutputs` | protocol/validation/vmcontext.go:25-122 | and in the context of an issuance |
| `TxIds.TxIdCommits` | protocol/bc/legacy/map.go:65-216 | without collisions, two legacy transactions have the same identifier if and only if they agree on version, times, data, every output (of a retirement, all but its program) and, if there are outputs, every input (all but its arguments) |
| `TxIds.MuxCommits` | protocol/bc/legacy/map.go:156-172 | the identifier of the mux fixes the inputs, and their order |
| `TxIds.SpendNamesOutput` | protocol/bc/legacy/map.go:87-96 | an input spends a given output of a given transaction if and only if it names that transaction's mux, the position, and the output's value, program and data |
| `InputContexts.SpendContextIs` | protocol/validation/vmcontext.go:25-122 | every field of the context of a spend: program, arguments, identifiers, version, times, data, value, position, spent output and signature hash |
| `InputContexts.IssuanceContextIs` | protocol/validation/vmcontext.go:25-122 | every field of the context of an issuance, with its anchor |
| `InputContexts.SigHashBinds` | protocol/validation/vmcontext.go:76-93 | two contexts have the same signature hash if and only if the identifiers of their entries and of their transactions agree, where SHA3 does not collide on the two strings |
| `InputContexts.ClosedSignatureBinds` | core/txbuilder/witness.go:142-148 | the program of a closed template for one input, run in the context of any entry of any transaction, leaves true exactly for that entry of that transaction |
| `OwnCommitments.ClosedSignatureFixesTx` | core/txbuilder/witness.go:142-148 | so it passes only in a transaction with the same header, outputs and inputs |
| `OwnCommitments.OpenSignatureBinds` | core/txbuilder/witness.go:149-191 | what an open template of one transaction binds of another: the times, the output spent, the data, and every output of the template at its place, spendable and of version 1 |
| `OwnCommitments.OwnCommitmentsHold` | core/txbuilder/witness.go:149-191 | in the context of one of its inputs a transaction keeps what is bound of it if and only if none of its outputs is a retirement and all have VM version 1 |
| `StateValue.ApplyMeaning` | protocol/state/snapshot.go:73-116 | an applied transaction removes exactly its spent outputs, which were there, and adds exactly its outputs |
| `StateValue.IdsDetermineTree` | protocol/state/snapshot.go:40-50 | equal sets of output ids mean equal trees |
| `ApplyRules.ApplyTxExact` | protocol/state/snapshot.go:73-116 | a transaction applies if and only if its nonces are new, distinct and have a time range and its spent outputs are there and distinct; otherwise which of the three errors it gives; its nonces are then held until the end of their time range |
| `ApplyRules.NoncesStop` | protocol/state/snapshot.go:74-92 | the loop over the nonces stops at the first that cannot be recorded, with the error for it, having recorded those before it |
| `ApplyRules.BlockNonces` | protocol/state/snapshot.go:61-92 | after a block the nonces held are those that do not expire before its timestamp and those it names; it names none of the former and none twice |
| `ReplayProtection.HeldExactly` | protocol/state/snapshot.go:29-92 | after any run of blocks a nonce is held, with a given expiry, if and only if it was named with it and no later block is later than it |
| `ReplayProtection.RefusedWhileHeld` | protocol/state/snapshot.go:74-79 | while no block is later than its expiry, every transaction that names a nonce again fails as a conflicting nonce, and so does every block with such a transaction |
| `ReplayProtection.UsesSetApart` | protocol/state/snapshot.go:29-92 | two uses of a nonce are set apart by a block later than the expiry of the first |
| `ReplayProtection.NoReplay` | protocol/validation/validation.go:472-485 | in a chain of valid blocks no two transactions of the legacy form name the same nonce |
| `ReplayProtection.MappedNonceExpires` | protocol/bc/legacy/map.go:125-140 | the nonces of a mapped transaction expire at its own maximum time |
| `Snapshots.Snapshot.ApplyTx` | protocol/state/snapshot.go:73-116 | the three loops in place do what applying does on values, also when they stop half way |
| `Snapshots.Snapshot.ApplyBlock` | protocol/state/snapshot.go:61-70 | pruning and applying in order, stopping at the first error; what that makes of the nonces is `ApplyRules.BlockNonces` |
| `Snapshots.Snapshot.PruneNonces` | protocol/state/snapshot.go:29-36 | a nonce stays, with its expiry, exactly when the timestamp is not later than the expiry |
| `Ledger.TxConserves` | protocol/state/snapshot.go:73-116 | an applied, valid transaction changes the value of every asset by issued minus retired plus what repeated spends claim |
| `Ledger.TxConservesExactly` | protocol/validation/validation.go:99-148 | that is issued minus retired if and only if no output of positive value is spent twice in the transaction |
| `Ledger.LedgerConserves` | protocol/state/snapshot.go:61-116 | the law over any run of blocks, from empty |
| `Ledger.LedgerHoldsWhatWasIssued` | protocol/state/snapshot.go:61-116 | if no transaction of the run spends an output twice, the outputs in the tree are worth exactly what was issued and not retired, for every asset |
| `DoubleSpend.SpendOneTwice` | protocol/bc/legacy/map.go:12-63 | a complete instance: a transaction that spends an output worth one under two reference data is valid and applies, and the tree then holds two, though nothing was issued |
| `DoubleSpend.SpendingTwiceMakesValue` | protocol/state/snapshot.go:73-116 | every such transaction is valid and applies wherever its prevout is, and makes its amount once more |
| `DoubleSpend.MachinePassesTrue` | protocol/validation/validation.go:270-303 | with the machine's verdicts its programs pass |
| `Replay.Save` | core/txdb/snapshot.go:48-66 | what is stored encodes the state: the walked items and every nonce |
| `Replay.Decode` | core/txdb/snapshot.go:19-43 | decoding rebuilds the tree that inserting the listed items makes, or fails where an insertion does, and the listed nonces |
| `Replay.Load` | core/txdb/snapshot.go:19-43 | decoding what Save stored gives the saved state back |
| `Replay.Recover` | protocol/recover.go:18-70 | recovery succeeds if and only if the remaining blocks apply with the roots they declare, and then its state is that of replaying every block from empty |
| `Generator.GeneratorAgrees` | protocol/block.go:51-159 | a block generated after the previous one from version-1 candidates none of which fails half way is valid, in the sense of `BlockRules.ValidateBlockExact`, applies, and both sides reach the same state |
| `Generator.GeneratorAgreesExactly` | protocol/block.go:51-159 | where no included transaction creates an output already in the replayed tree, the generated block leads the validator to the generator's own state if and only if no candidate failed half way |
| `Generator.AgreementExact` | protocol/block.go:97-118 | the same of the selected transactions and the state they lead to |
| `Generator.GeneratedBlockRefused` | protocol/block.go:105-115 | one candidate that spends a present and a missing output: the generated block is empty and the validator refuses it |
| `Generator.CleanFailure` | protocol/state/snapshot.go:73-116 | a failing transaction leaves the state unchanged if and only if it fails at its very first step |
| `Generator.FailureLeavesTrace` | protocol/block.go:105-115 | a candidate that spends a present and a missing output fails and still takes the present one out |
| `Generator.GenerateBlock` | protocol/block.go:65-130 | the loop selects and applies as stated, on a copy; the chain's own snapshot keeps its contents and root |
| `Generator.ApplyToCopy` | protocol/block.go:149-159 | applied to a copy, accepted exactly when the root agrees; the chain's own snapshot keeps its contents and root |
| `BlockRules.ValidateBlockExact` | protocol/validation/validation.go:455-515 | a block is valid if and only if, above height 1, it follows the previous block in version, height, identifier and time, it has no extension in version 1, every transaction in it is valid, of version 1 in a version-1 block and inside its own time bounds, and its root is that of its transactions |
| `BlockRules.RefusedForAReason` | protocol/validation/validation.go:455-515 | the error of a refused block names something that is wrong with it |
| `BlockRules.RootFixesTransactions` | protocol/validation/validation.go:488-495 | valid blocks that declare the same transactions root hold the same transactions in the same order |
| `BlockRules.AcceptedIffOutputsAgree` | protocol/block.go:149-159 | a block that declares the root of a set of outputs is accepted if and only if it applies and leads to that set |
| `BlockRules.HonestIffOutputsAgree` | protocol/recover.go:48-66 | and recovery accepts it exactly then |
| `BlockRules.HalfFailedBlockRefused` | protocol/block.go:105-115 | the block of a candidate that failed half way is refused wherever the hash function does not collide |
| `BlockRules.SelectionExact` | protocol/block.go:84-118 | the generator takes a candidate at its turn exactly when fewer than ten thousand are taken and the candidate is valid, in time, and its nonces and spent outputs suit the state the candidates before it left; what is taken stays |
| `Reservations.EveryInterleavingIsSafe` | core/account/reserve.go:121-237 | in every state of every interleaving of the critical sections the invariant holds and no output is in two live reservations |
| `Reservations.StepKeeps` | core/account/reserve.go:121-237 | each critical section keeps the invariant |
| `Reservations.MarkHasOneOwner` | core/account/reserve.go:294-360 | every mark belongs to exactly one reservation, which is being recorded, recorded or being cancelled, and only one of these |
| `Reservations.NoDoubleReservation` | core/account/reserve.go:294-360 | two live reservations that hold the same output are the same |
| `Reservers.Choose` | core/account/reserve.go:294-332 | where the cached outputs together are worth less than 2^64 the choice succeeds exactly when the free ones cover the amount, and the error says whether reserved ones would have; the total is the value chosen, modulo 2^64 always and exactly for amounts below 2^63 |
| `Reservers.LargeTotalsWrap` | core/account/reserve.go:316-321 | beyond that the 64-bit total can be short of the value chosen |
| `Reservers.Reserver.ReserveFromCache` | core/account/reserve.go:121-149 | a successful reservation is worth amount plus change (exactly for amounts below 2^63, modulo 2^64 otherwise), marks free outputs only, and is the Mark step |
| `Reservers.Reserver.ReserveUTXO` | core/account/reserve.go:341-352 | succeeds exactly when the output is not marked |
| `Reservers.Reserver.RecordReservation` | core/account/reserve.go:140-143 | is the Record step |
| `Reservers.Reserver.TakeReservation` | core/account/reserve.go:194-202 | is the Take step of the recorded reservation, if there is one |
| `Reservers.Reserver.TakeExpired` | core/account/reserve.go:211-224 | takes exactly the expired reservations, in whatever order they are visited |
| `Reservers.Reserver.ClearMarks` | core/account/reserve.go:354-360 | is the Clear step |
| `Reservers.Reserver.RefillCache` | core/account/reserve.go:378-386 | is the Refill step |
| `Pins.Pin.Complete` | core/pin/pin.go:227-268 | the height never passes an unfinished block; after a successful call it is the end of the longest contiguous run of finished blocks; after a failed database write nothing is lost |
| `Pins.Pin.Notify` | core/pin/pin.go:170-175 | a valid notification only raises the height, and not past an unfinished block |
| `Pins.Scan` | core/pin/pin.go:234-246 | the scan finds the end of the run and keeps every finished block above it |
| `Pins.SortMeaning` | core/pin/pin.go:231-232 | sorting is a sorted permutation |
| `Pins.RunEndIsUnique` | core/pin/pin.go:234-246 | the end of the longest run is one number |
| `Filter.ParsePrintParse` | core/query/filter/parser.go:147-247 | for every accepted token list, printing the tree gives the tokens back, parsing them again gives the same tree, and the tree associates left with OR below AND below = |
| `Filter.PrintParse` | core/query/filter/expr.go:14-67 | a tree prints to tokens that parse to it if and only if it is so shaped |
| `Filter.TighterIsCont` | core/query/filter/parser.go:164-170 | the inner loop is the outer loop one precedence higher |
| `Filter.ContAccounts` | core/query/filter/parser.go:154-174 | the climbing loop loses no token and leaves no operator it should have taken |
| `Filter.ParseCont` | core/query/filter/parser.go:154-174 | terminates on every token list, consuming a token for each operator |
| `FilterParser.Parser.ParseExprCont` | core/query/filter/parser.go:154-174 | the loop on the parser object builds that tree, leaves those tokens and counts its placeholders |
| `FilterParser.Parser.ParseOperand` | core/query/filter/parser.go:184-221 | so does the operand parser, on every token |
| `FilterParser.ParsePredicate` | core/query/filter/parser.go:83-102 | the whole parse, with the number of parameters the tree takes |
| `WireCodec.VarintRoundTrip` | encoding/blockchain/blockchain.go:62-159 | a written varint reads back, with any rest |
| `WireCodec.VarstrRoundTrip` | encoding/blockchain/blockchain.go:84-98 | so does a string |
| `WireCodec.VarstrListRoundTrip` | encoding/blockchain/blockchain.go:102-120 | so does a list of strings |
| `WireReader.Reader.ReadUvarint` | encoding/blockchain/blockchain.go:62-82 | the byte loop of the reader computes the value and leaves the rest |
| `WireReader.Reader.ReadVarstr31` | encoding/blockchain/blockchain.go:84-98 | reads a string and advances the buffer past it |
| `WireReader.Reader.ReadVarstrList` | encoding/blockchain/blockchain.go:102-120 | reads a list and advances the buffer past it |
| `WireTx.TxBack` | protocol/bc/legacy/transaction.go:128-268 | reading the written bytes, whatever follows, gives the transaction with twice-written suffixes doubled, and exactly what followed |
| `WireTx.WireRoundTrip` | protocol/bc/legacy/transaction.go:128-268 | for everything that can be written the round trip holds if and only if typed inputs go with asset version 1, version-1 commitments have VM version 1, spend and output commitment suffixes and output witness suffixes are empty, and outputs of other asset versions have an empty commitment |
| `WireTx.WhatIsReadIsReadable` | protocol/bc/legacy/txinput.go:92-202 | whatever the bytes, a transaction that is read has a typed input exactly for asset version 1, and VM version 1 commitments |
| `WireTx.InputBack` | protocol/bc/legacy/txinput.go:92-302 | an input of any kind reads back, up to the doubled suffix of its spend commitment |
| `WireTx.OutputBack` | protocol/bc/legacy/txoutput.go:40-88 | an output reads back, up to its doubled commitment suffix and its dropped witness suffix |
| `WireTx.SpendCommitmentBack` | protocol/bc/legacy/spend.go:64-141 | the suffix of a spend commitment is written twice and comes back twice |
| `WireTx.OutputCommitmentBack` | protocol/bc/legacy/output_commitment.go:21-71 | so is that of an output commitment |

Where the code and its documentation or evident purpose disagree, the model follows the code:

- `Tree.Insert` is documented to return an error for a key that is a prefix of an item; for a proper prefix that is not
  the key of an inner node the code indexes out of range instead. The model has both outcomes.
- The parsers of multisig programs return no keys, no quorum and no error for a key of the wrong size.
- A spend or output commitment suffix is written both by the commitment and by the extensible string around it.
- A transaction may spend one output twice under different reference data; it is valid, applies, and makes value.
- Verification need not end: the run limit bounds only runs in which no nested machine stops on its end-of-step charge.
- A constraint compiled from a retirement output can never hold, since CHECKOUTPUT gives a retirement version 0.
- `GenerateBlock` goes on after a candidate fails, with whatever that candidate had already removed from its copy.

## Left out

- Interpreter.Run: the run limit and the deferred cost are unbounded integers; in a run in which a nested machine stops on its end-of-step charge they can grow past 64 bits, and the wrap-around is not modelled.
- Interpreter.ExecLeaf: states the account of the opcodes (what each does is `CryptoEffects.LeafHolds`); the opcodes without loops or control flow are functions on the machine's value, whose result is loaded into the machine object, and that CAT appends into a slice that may be shared is not captured.
- Programs.ParseOp: for a program of more than 2^31 - 1 bytes it fails, but which of the possible errors the source reports is not modelled.
- VirtualMachines.VerifyContext: tracing, and the program and arguments that wrapErr attaches to an error, are not modelled.
- MachineVerdicts.ValidateWithMachine: where NewTxVMContext would dereference nil the machine counts as refusing; the source panics there. Mapped transactions never come to it.
- Reservers.Reserver.ReserveFromCache: client tokens and their idempotency group, the query behind a refill and the wrap-around of the reservation counter are not modelled; an output's row is assumed never to change.
- Pins.Pin.Complete: worker goroutines, retries of a failing callback, the store of pins and its waiters are not modelled; heights are unbounded.
- Filter.ParsePrintParse: is about tokens; that the printed text scans to those tokens is not modelled, nor are error positions, type checking and SQL.
- WireTx.WireRoundTrip: the readers and writers of the structures are functions on bytes, with the primitives alone on a reader object and their own records beside those of LegacyTx, which have no suffixes; writers that fail half way and reading with other serialisation flags are not modelled.
- Generator.GeneratorAgrees: the first block, the block's signatures, the issuance window, the cache of valid transactions and CommitAppliedBlock are not modelled; the Merkle root is a parameter there, and in Merkle the function.
- Generator.GenerateBlock: the source leaves its loop when the block is full; the model's loop skips the remaining candidates, with the same result.
- Merkle.PrevPowerOfTwo: the exponent is exact; the source takes it from a floating-point logarithm, which is exact for lists that fit in memory.
- TreeRoots.RootCommits: requires that the hash function does not collide on what is hashed for the two trees at hand, since no function into 32 bytes is injective on everything; so do MerkleCommits, TxIdCommits and the signature hash.
- PatriciaTree.Tree.Delete: requires, like Contains, that the item does not properly extend an item of the tree; the source dereferences nil there. All ledger items have 32 bytes.
- Replay.Recover: protobuf, the database and the asynchronous queue of snapshots are not modelled; a snapshot is its list of items and nonces.
- TxMapper.MapEntries: requires that the hash function does not collide on the entries of the transaction at hand.
- Key derivation, ed25519, SHA-256 and SHA3 are parameters.
- The HTTP API, authentication, query execution, raft, and the rest of the services around the ledger.
