# Verified core of the uwvm2 benchmark and release tooling

The benchmark directory of uwvm2 generates self-checking WebAssembly fixtures, computes what they
must return, accounts for every object a collector reclaims, and decides whether a release run
counts. This project models those programs in Dafny and proves, for every legal parameter, what
the scripts themselves establish only for a few sampled ones.

- **General object families.** `Families` says what one allocation group holds and what an
  iteration does to it. `Fragments`, `Generator`, `Instructions` and `ModuleBuild` are the code
  generator: an instruction list and a byte buffer that grow together, and the six framed sections
  around them. `Machine` is a small WebAssembly machine (operand stack, locals, globals, tables, a
  heap of structs and arrays, structured control, calls, exceptions). `Layout` to `RunProofs` prove
  that the emitted stream runs to a halt with the specified checksums, `OperationCounts` that the
  published closed forms count its heap instructions exactly. `Oracle`, `FlatReference` and
  `GraphModel` are the three independent models: a ring of records, flat arrays, and a real pointer
  graph; `BrokenRestore` is the graph model's negative control.
- **Bytes.** `Codec` has the LEB128 and section encoders with the strict decoders of the checker,
  `CodeSize` the length of the emitted functions, and `ModuleCheck` the checker's assertions.
  `Loader` reads a module from its bytes alone, and `EndToEnd` proves that a built module, loaded
  that way and invoked through its exports, behaves as specified.
- **Generator algebra.** `Lcg`, `Period` and `CastTrace`: affine powers modulo 2^32, the full period
  of the low bits, and the tally that relies on it. `Swizzle` and `EhLeaf` are the SIMD and the
  exception guest with their scalar oracles.
- **Root rings.** `ObjectStore` is a store seen through what its clients can check: opaque tokens
  that are never issued twice, and a collection that removes exactly what the roots do not reach.
  `RingHeap`, `SweepRing`, `TableChain`, `ReferenceCosts` and `CompactRing` are the programs on top;
  `CostForms` has the closed forms of the reference-cost run.
- **Subtyping.** `JumpPointers` and `Subtype`: interned types and the jump-pointer ancestor search.
  `TypeRelation` applies them to the two stores of the reference-cost run.
- **Release gate and schedule.** `ReleaseGate`, `MatrixRun` and `EngineOrder`.

Modelling decisions. Integers are unbounded in the model, so every 32-bit wrap is written out; `&`,
`^` and `|` on naturals are defined digit by digit, and a mask `2^k - 1` is reduction modulo `2^k`.
Exceptions and failed checks are `Failure` results. The random generator of the subtype model, the
outcomes of external processes, and the diagnostics recognised in their output are parameters.
An assertion a program makes about what is modelled is kept as a branch that fails, and the contract
says that the branch is not taken. The negative control of the graph model is the one place where a
reader could expect such a branch to fire and it does not: the check that B leads back to A passes
even if A is never restored, and what differs is the root checksum. A store's collector is given a
plain marking body so that its contract is proved and not postulated.

`dafny verify dfyconfig.toml` checks the project.

## Model

| member | source | states |
|---|---|---|
| Lcg.Endpoint | benchmark/0004.wasm3-core/generate.py:33-43 | binary exponentiation of the masked affine step gives the state after exactly `total` steps from the seed, for every count; the same loop stands in the table-chain plan, the table-chain program and the managed-ring checker |
| Lcg.Jump | benchmark/0004.wasm3-core/check_gc_compact_collection_ring.py:13-23 | the variant that composes in the other order equals `total` steps from any given state |
| Lcg.PendingRound | benchmark/0004.wasm3-core/generate.py:36-42 | one round keeps "steps taken + power times steps left = total" under masking, for odd and even counts |
| Lcg.IterateIsPower | benchmark/0004.wasm3-core/generate.py:33-43 | n steps of the masked generator are the n-th affine power reduced once |
| Lcg.IterateAdd | benchmark/0004.wasm3-core/check_gc_compact_collection_ring.py:28-29 | m + n steps are m steps followed by n steps |
| Lcg.Xor32Bits | benchmark/0004.wasm3-core/generate_general_gc.py:137 | bit by bit the 32-bit xor is the parity of the two bits, and it is the only word that is |
| Period.ReturnsIff | benchmark/0004.wasm3-core/generate.py:75-77 | multiplier 1 mod 4 and odd increment: a state returns modulo 2^k after n steps if and only if 2^k divides n, for every k |
| Period.OrbitDistinct | benchmark/0004.wasm3-core/generate.py:75-77 | within one period of 2^k no residue repeats |
| Period.OrbitVisits | benchmark/0004.wasm3-core/generate.py:75-77 | within one period every residue is visited |
| Period.HalfPeriod | benchmark/0004.wasm3-core/generate.py:76-78 | 2^k steps add exactly 2^k modulo 2^(k+1) |
| Period.PeriodSum | benchmark/0004.wasm3-core/generate.py:75-77 | the 2^k states of one period modulo 2^k, from any state, add up to 2^(k-1) modulo 2^k |
| Period.IterateReturnsIff | benchmark/0004.wasm3-core/generate_native_eh_leaf_benchmark.py:23-24 | the masked 32-bit generator has the same exact return times for every k up to 32 |
| CastTrace.HalfPeriodComplements | benchmark/0004.wasm3-core/generate.py:76-78 | over two consecutive half periods bit k is set as often as it is clear |
| CastTrace.WholePeriods | benchmark/0004.wasm3-core/generate.py:79-80 | whole periods contribute 2^k set bits each, whatever remainder follows |
| CastTrace.GcCastTrace | benchmark/0004.wasm3-core/generate.py:72-86 | the period-plus-remainder tally equals direct simulation of every iteration from the seed, for every count |
| Families.After | benchmark/0004.wasm3-core/generate_general_gc.py:97-131 | the state after n iterations has one well-shaped group per allocation |
| Families.SetUp | benchmark/0004.wasm3-core/generate_general_gc.py:97-100 | the mutate phase's set-up makes n well-shaped groups and leaves the generator n steps from the seed |
| Families.ResultBits | benchmark/0004.wasm3-core/generate_general_gc.py:137 | bit k of the combined checksum is the parity of bit k of the step and the root checksum, for every family, phase and count |
| Families.SaltedCell | benchmark/0004.wasm3-core/generate_general_gc.py:118-122 | the selected cell is bit by bit the state xor the salt, the one after it the state plus the step, and the other six stay |
| Oracle.OracleStep | benchmark/0004.wasm3-core/generate_general_gc.py:101-131 | one iteration on the mutable ring of records follows the history in which no group is ever overwritten |
| Oracle.RootChecksum | benchmark/0004.wasm3-core/generate_general_gc.py:132 | the sum over the ring slots is the sum over the newest group of each slot |
| Oracle.ScalarOracle | benchmark/0004.wasm3-core/generate_general_gc.py:73-146 | accepts exactly 1024 to 2000000 iterations and reports the specified checksums and allocation counts |
| FlatReference.Arrays.Touch | benchmark/0004.wasm3-core/check_general_gc_generator.py:107-125 | the flat arrays after the writes still stand for the written group, and the unreduced observation is congruent to it |
| FlatReference.Arrays.Step | benchmark/0004.wasm3-core/check_general_gc_generator.py:100-126 | one step with a single late reduction agrees with the specified iteration |
| FlatReference.Arrays.ScalarReference | benchmark/0004.wasm3-core/check_general_gc_generator.py:73-128 | the flat-array reference returns the same step, root, combined and last-state values as the record oracle |
| GraphModel.Graph.Create | benchmark/0004.wasm3-core/check_managed_general.py:21-37 | a new group of fresh objects in one slot: A leads to B, B leads to A, all cells refer to A; other slots untouched |
| GraphModel.Graph.RetainedAt | benchmark/0004.wasm3-core/check_managed_general.py:48-58 | reading through the references gives the retained checksum of the group; it fails if and only if the slot is empty, an array has not eight cells, or A does not lead to a node that leads back |
| GraphModel.TouchCycle | benchmark/0004.wasm3-core/check_managed_general.py:70-75 | redirect, read and restore leave the cycle whole and observe 2A + B; it fails if and only if the node A led to does not lead back |
| GraphModel.TouchNodes | benchmark/0004.wasm3-core/check_managed_general.py:80-86 | the two selected cells are redirected and the values behind them observed; it fails if and only if the node A leads to does not lead back |
| GraphModel.Graph.Touch | benchmark/0004.wasm3-core/check_managed_general.py:66-86 | a step's writes change only the objects of its own slot and match the specified group |
| GraphModel.Graph.Step | benchmark/0004.wasm3-core/check_managed_general.py:62-87 | one step keeps every slot's cycle and cells and follows the specified iteration |
| GraphModel.Graph.RootsSum | benchmark/0004.wasm3-core/check_managed_general.py:88 | the root sum over all slots; fails exactly if the ring was never filled |
| GraphModel.GraphRun | benchmark/0004.wasm3-core/check_managed_general.py:13-91 | the pointer graph returns the oracle's checksums and counts every object, and its cycle assertion never fires |
| BrokenRestore.BrokenTouch | benchmark/0004.wasm3-core/check_managed_general.py:70-75 | without the restore A is observed three times, ends as a self-loop, and the check that B leads back still passes |
| BrokenRestore.BrokenStep | benchmark/0004.wasm3-core/check_managed_general.py:60-86 | one broken step fails no assertion, for a fresh pair, a set-up pair or a self-loop |
| BrokenRestore.BrokenRun | benchmark/0004.wasm3-core/check_managed_general.py:13-90 | the broken model fails no assertion for any count; it fails only on a slot that was never filled, and its totals have these closed forms |
| BrokenRestore.IntactGroups | benchmark/0004.wasm3-core/check_managed_general.py:60-75 | the closed form of every group of the intact run, in both phases |
| BrokenRestore.BrokenDiffers | benchmark/0004.wasm3-core/check_managed_general.py:101-113 | for both phases and every count of at least 1024 the broken root checksum is wrong: it differs from the specified one by exactly 512 modulo 1024 |
| Machine.OutcomeUnique | benchmark/0004.wasm3-core/generate_general_gc.py:289-358 | a run reaches at most one final configuration, with one instruction count |
| Straight.Runs | benchmark/0004.wasm3-core/generate_general_gc.py:185-190 | loop-free code inside a function body runs on the machine as it evaluates and executes each watched instruction as often |
| Straight.Traps | benchmark/0004.wasm3-core/generate_general_gc.py:185-190 | where loop-free code evaluates to a trap, the machine reaches the trap |
| Straight.LoopTurn | benchmark/0004.wasm3-core/generate_general_gc.py:284-287 | one turn of a loop: a non-zero flag returns to the head, a zero flag leaves it with a balanced stack |
| FragmentProofs.LcgStepRuns | benchmark/0004.wasm3-core/generate_general_gc.py:215-217 | the emitted generator step stores the next state |
| GroupProofs.LoadRootRuns | benchmark/0004.wasm3-core/generate_general_gc.py:222-234 | the emitted load finds the group of the slot: all casts and the null check succeed |
| GroupProofs.CreateRuns | benchmark/0004.wasm3-core/generate_general_gc.py:236-255 | the emitted allocation appends the fresh group to the heap and roots it |
| GroupProofs.RetainedRuns | benchmark/0004.wasm3-core/generate_general_gc.py:263-279 | the emitted readback leaves the group's retained checksum; the length and cycle checks pass |
| GroupProofs.TouchRuns | benchmark/0004.wasm3-core/generate_general_gc.py:305-339 | the emitted writes produce the written group and leave what was observed on the stack |
| TurnProofs.SetUpTurn | benchmark/0004.wasm3-core/generate_general_gc.py:290-293 | one turn of the set-up loop adds one group |
| TurnProofs.MainTurn | benchmark/0004.wasm3-core/generate_general_gc.py:294-341 | one turn of the main loop takes the store from one history to the next |
| TurnProofs.FinalTurn | benchmark/0004.wasm3-core/generate_general_gc.py:344-345 | one turn of the final loop adds one slot to the root sum |
| RunProofs.MainLoop | benchmark/0004.wasm3-core/generate_general_gc.py:294-341 | the main loop runs all its turns and leaves the history after n iterations |
| RunProofs.FinalLoop | benchmark/0004.wasm3-core/generate_general_gc.py:344-346 | the final traversal runs all 1024 turns and leaves the root checksum |
| RunProofs.ProgramHalts | benchmark/0004.wasm3-core/generate_general_gc.py:192-358 | for every family, phase and 32-bit n of at least 1024 the emitted program halts: no trap, no invalid step, empty stack, both globals hold the specified checksums, and heap and tables hold the groups of the history |
| RunProofs.ProgramOutcome | benchmark/0004.wasm3-core/generate_general_gc.py:347-357 | whatever four constants are embedded, the program halts if they are the specified ones and traps if any of them differs |
| RunProofs.ProgramNeverTraps | benchmark/0004.wasm3-core/generate_general_gc.py:347-358 | at no point of any such run is the configuration trapped or stuck |
| RunProofs.RunReturns | benchmark/0004.wasm3-core/generate_general_gc.py:351-353 | called directly, `run` returns exactly the oracle's combined checksum, which is bit by bit the xor of the two globals |
| CountProofs.MainTurnCount | benchmark/0004.wasm3-core/prepare_general_gc_hot_path.py:63-67 | how often one turn of the main loop executes any class of instructions |
| OperationCounts.HitsByTotals | benchmark/0004.wasm3-core/prepare_general_gc_hot_path.py:63-76 | a whole run executes an instruction class as often as groups, displaced groups, loads and readbacks weigh it |
| OperationCounts.FormulasAreExact | benchmark/0004.wasm3-core/prepare_general_gc_hot_path.py:63-103 | every closed form equals the number of executions of that heap operation in the one run of the emitted program, for every family, phase and n |
| OperationCounts.AllocationsAgree | benchmark/0004.wasm3-core/prepare_general_gc_hot_path.py:98-103 | the formulas' allocation totals are the oracle's planned, grouped, overwritten and main-loop counts |
| Codec.EncodeUleb | benchmark/0004.wasm3-core/generate_general_gc.py:24-33 | the loop produces the canonical encoding and refuses values outside u32 |
| Codec.UlebUnique | benchmark/0004.wasm3-core/check_general_gc_generator.py:20-33 | at one offset at most one value is encoded, whatever surrounds it |
| Codec.ReadUleb | benchmark/0004.wasm3-core/check_general_gc_generator.py:20-33 | succeeds if and only if a canonical u32 encoding starts at the offset, and returns its value and end |
| Codec.ReadSection | benchmark/0004.wasm3-core/check_general_gc_generator.py:42-49 | returns the only section that can be framed at the offset |
| Codec.Sections | benchmark/0004.wasm3-core/check_general_gc_generator.py:36-52 | succeeds exactly on modules framed in the required layout and recovers their six payloads |
| Codec.ReadExport | benchmark/0004.wasm3-core/check_general_gc_generator.py:59-67 | returns the only export that can be encoded at the offset |
| Codec.ExportRecords | benchmark/0004.wasm3-core/check_general_gc_generator.py:55-70 | succeeds exactly on payloads that encode an export list and recovers the list |
| Instructions.EncodeSleb | benchmark/0004.wasm3-core/generate_general_gc.py:36-44 | the loop produces the shortest signed encoding |
| Instructions.ParseSleb | benchmark/0004.wasm3-core/generate_general_gc.py:36-44 | every integer is read back from its signed encoding with any bytes after it |
| Instructions.ParseEncoded | benchmark/0004.wasm3-core/generate_general_gc.py:155-174 | every generated instruction is read back from its bytes with any bytes after it |
| Instructions.DecodeEncoded | benchmark/0004.wasm3-core/generate_general_gc.py:155-174 | the bytes of an instruction stream determine the stream |
| Generator.Code.Emit | benchmark/0004.wasm3-core/generate_general_gc.py:155-158 | appends one instruction to the list and its bytes to the buffer, which stays the encoding of the list |
| Generator.Code.I32 | benchmark/0004.wasm3-core/generate_general_gc.py:160-162 | appends a constant congruent to the value modulo 2^32 |
| Generator.Code.Gc | benchmark/0004.wasm3-core/generate_general_gc.py:173-174 | prefix, opcode and immediates are the bytes of the named heap instruction |
| Generator.EmitTrapUnlessEqual | benchmark/0004.wasm3-core/generate_general_gc.py:185-190 | appends the comparison and the guarded trap |
| Generator.EmitLoadRoot | benchmark/0004.wasm3-core/generate_general_gc.py:222-234 | the branches on references and arrays append the family's load |
| Generator.EmitCreate | benchmark/0004.wasm3-core/generate_general_gc.py:236-255 | the branches append the family's allocation and rooting |
| Generator.EmitRetained | benchmark/0004.wasm3-core/generate_general_gc.py:263-279 | the branches and the unrolled element loop append the family's readback |
| Generator.EmitTouch | benchmark/0004.wasm3-core/generate_general_gc.py:305-339 | the branches append the family's writes and observations |
| Generator.EmitMainLoop | benchmark/0004.wasm3-core/generate_general_gc.py:294-341 | appends the main loop of the phase |
| Generator.EmitRun | benchmark/0004.wasm3-core/generate_general_gc.py:289-353 | the buffer of `run` is the encoding of the instruction stream whose run is proved |
| Generator.EmitStart | benchmark/0004.wasm3-core/generate_general_gc.py:354-357 | the same for `_start` |
| ModuleBuild.Build | benchmark/0004.wasm3-core/generate_general_gc.py:192-378 | accepts exactly 1024 to 2000000 iterations; the binary is the framing of the six sections with the encoded functions, is shorter than 2048 bytes, and comes with the oracle's report |
| ModuleBuild.TypesDeclared | benchmark/0004.wasm3-core/generate_general_gc.py:197-212 | the declared type bytes are the encodings of the heap types the machine uses, followed by the two function types |
| CodeSize.BriefSize | benchmark/0004.wasm3-core/generate_general_gc.py:155-174 | an instruction with the generator's immediates takes at most six bytes |
| CodeSize.RunSize | benchmark/0004.wasm3-core/generate_general_gc.py:289-353 | `run` has fewer than 300 instructions in every family and phase, for every iteration count and any embedded constants |
| CodeSize.FunctionSizes | benchmark/0004.wasm3-core/check_general_gc_generator.py:144 | so the two functions take at most 1800 bytes |
| ModuleBuild.LayoutMet | benchmark/0004.wasm3-core/check_general_gc_generator.py:49-51 | with bodies of that size the module is in the required layout and shorter than 2048 bytes |
| ModuleCheck.NoTruncation | benchmark/0004.wasm3-core/check_general_gc_generator.py:194-201 | a module in the required layout has one framing, and no proper prefix of it is in the layout |
| ModuleCheck.CheckBodies | benchmark/0004.wasm3-core/check_general_gc_generator.py:161-167 | true if and only if the code section holds two sized bodies that end in `end` and nothing more |
| ModuleCheck.CheckModule | benchmark/0004.wasm3-core/check_general_gc_generator.py:143-167 | true if and only if the module is shorter than 2048 bytes, framed in the required layout, with the checker's own literal export list, the family's table count and two closed bodies |
| ModuleCheck.ExportsListed | benchmark/0004.wasm3-core/check_general_gc_generator.py:149-152 | the exports the generator builds are that list, byte for byte |
| ModuleCheck.BuiltPasses | benchmark/0004.wasm3-core/check_general_gc_generator.py:143-167 | every built module meets that condition |
| ModuleCheck.BuildAndCheck | benchmark/0004.wasm3-core/check_general_gc_generator.py:136-172 | for every accepted parameter the flat reference confirms the reported checksums, the module passes and the allocation counts agree |
| Loader.VectorReadBack | benchmark/0004.wasm3-core/generate_general_gc.py:52-53 | a vector is read back, whatever follows, if its items are |
| Loader.HeapTypeReadBack | benchmark/0004.wasm3-core/generate_general_gc.py:197-212 | every heap type is read back from its code, whatever follows |
| Loader.LocalsDeclared | benchmark/0004.wasm3-core/generate_general_gc.py:358-366 | the declared runs expand to nine locals with the types and initial values the functions use |
| Loader.SectionsReadBack | benchmark/0004.wasm3-core/generate_general_gc.py:61-62 | the sections are read back from their frames |
| Loader.LoadBuilt | benchmark/0004.wasm3-core/generate_general_gc.py:192-378 | the types, functions, locals, instructions, tables, globals and exports read from the bytes of a built module are the program, the initial store and the exports it was built for |
| EndToEnd.BuiltModuleRuns | benchmark/0004.wasm3-core/generate_general_gc.py:192-378 | a built module, loaded from its bytes and started at its export `_start`, halts without a trap; its exports `checksum` and `root_checksum` hold the specified values, `roots` holds the newest group of every slot and `node_roots` its node A |
| EndToEnd.BuiltRunReturns | benchmark/0004.wasm3-core/generate_general_gc.py:351-373 | the export `run` of the loaded module returns a word that is bit by bit the xor of the two exported checksums, with the same tables |
| JumpPointers.Ancestor | benchmark/0004.wasm3-core/prepare_gc_reference_costs_20261003.py:53-58 | terminates at the only ancestor with the target depth, within b(b+1)/2 iterations for bit length b; a shallow node is returned as it is |
| JumpPointers.IterationBound | benchmark/0004.wasm3-core/prepare_gc_reference_costs_20261003.py:53-58 | the search from depth d to any depth takes at most b(b+1)/2 iterations |
| JumpPointers.ClearsLowestBit | benchmark/0004.wasm3-core/prepare_gc_reference_costs_20261003.py:83-84 | `d & (d - 1)` removes exactly the lowest set bit |
| JumpPointers.UpUp | benchmark/0004.wasm3-core/prepare_gc_reference_costs_20261003.py:53-58 | going up in two stages is going up |
| Subtype.Registry.Intern | benchmark/0004.wasm3-core/prepare_gc_reference_costs_20261003.py:78-82 | equal keys share an identity, different keys never do, and parents come first with the same kind |
| Subtype.Registry.BuildModule | benchmark/0004.wasm3-core/prepare_gc_reference_costs_20261003.py:71-86 | every node is linked one level under its parent, jumps to the right ancestor and conforms to its canonical type |
| Subtype.IdentityIsStructure | benchmark/0004.wasm3-core/prepare_gc_reference_costs_20261003.py:64-65 | two types of any modules share an identity if and only if kind and all shapes up to the root agree |
| Subtype.BuildModules | benchmark/0004.wasm3-core/prepare_gc_reference_costs_20261003.py:69-87 | both modules are well formed over one canonical list, and across them identities are equal exactly for equal structures |
| Subtype.ParentWalk | benchmark/0004.wasm3-core/prepare_gc_reference_costs_20261003.py:92-98 | the walk finds the target if and only if it lies on the canonical parent chain |
| Subtype.CandidateIsSubtype | benchmark/0004.wasm3-core/prepare_gc_reference_costs_20261003.py:92-102 | the owner-local test holds if and only if the canonical chain contains the target |
| Subtype.Compare | benchmark/0004.wasm3-core/prepare_gc_reference_costs_20261003.py:88-104 | no comparison between two modules ever disagrees |
| Subtype.LocalDepthJumpModel | benchmark/0004.wasm3-core/prepare_gc_reference_costs_20261003.py:61-104 | whatever was chosen, the model succeeds and compares every ordered pair of types of both modules |
| TypeRelation.Declare | benchmark/0004.wasm3-core/gc_reference_costs_20261003.cc:65-125 | the two stores share base, derived and holder types at different local indices, and the derived type is a proper subtype of the base |
| TypeRelation.RelationHolds | benchmark/0004.wasm3-core/gc_reference_costs_20261003.cc:126-152 | under each of the three relations the allocated type matches the expected base type and not the holder type, and it is another type exactly for the foreign subtype |
| TypeRelation.TypeMatches | benchmark/0004.wasm3-core/gc_reference_costs_20261003.cc:149-152 | the owner-local test holds if and only if the expected type is on the canonical chain |
| ObjectStore.ReachableIsLeast | benchmark/0004.wasm3-core/gc_explicit_sweep_ring.cc:128-136 | what the roots reach is the least set that has the roots and is closed under edges |
| ObjectStore.Store.New | benchmark/0004.wasm3-core/gc_explicit_sweep_ring.cc:103-110 | the new token was never issued before |
| ObjectStore.Store.Mark | benchmark/0004.wasm3-core/gc_explicit_sweep_ring.cc:128-136 | marking ends in exactly the reachable set, cycles included |
| ObjectStore.Store.Collect | benchmark/0004.wasm3-core/gc_explicit_sweep_ring.cc:128-144 | removes and counts exactly the unreachable; a root that does not resolve changes nothing |
| RingHeap.CollectTo | benchmark/0004.wasm3-core/gc_explicit_sweep_ring.cc:334-342 | under roots that cover the newest objects a collection keeps exactly those |
| SweepRing.AllocateChunk | benchmark/0004.wasm3-core/gc_explicit_sweep_ring.cc:319-333 | after a chunk every slot names the newest object of its residue, and the sample is the first overwritten token |
| SweepRing.VerifyRoots | benchmark/0004.wasm3-core/gc_explicit_sweep_ring.cc:284-299 | succeeds if and only if every root resolves to its tracked payload, and sums the payloads |
| SweepRing.Chunk | benchmark/0004.wasm3-core/gc_explicit_sweep_ring.cc:319-357 | a chunk's collection reclaims allocated minus reclaimed minus initialized, the roots read back, and the overwritten token is rejected |
| SweepRing.FieldTraffic | benchmark/0004.wasm3-core/gc_explicit_sweep_ring.cc:371-382 | every dynamic write is observed and tracked, and the tokens stay |
| SweepRing.PayloadIs | benchmark/0004.wasm3-core/gc_explicit_sweep_ring.cc:371-382 | a slot ends with the state of the last step whose ten bits from bit 20 select it, or else of its newest object |
| SweepRing.ChunkIs | benchmark/0004.wasm3-core/gc_explicit_sweep_ring.cc:316-318 | a chunk is not empty, passes neither the interval nor the allocation count nor a multiple of a million, and is the largest such |
| SweepRing.Fill | benchmark/0004.wasm3-core/gc_explicit_sweep_ring.cc:314-369 | no check of the chunk loop fails, and the store never holds more than the ring and one interval of objects |
| SweepRing.WholeBlocks | benchmark/0004.wasm3-core/gc_explicit_sweep_ring.cc:314-318 | the number of chunks from any million on: the started intervals of each whole million and of the rest |
| SweepRing.EvenIntervals | benchmark/0004.wasm3-core/gc_explicit_sweep_ring.cc:314-318 | if the interval divides a million, the fill collects exactly once per started interval |
| SweepRing.Ring | benchmark/0004.wasm3-core/gc_explicit_sweep_ring.cc:301-403 | for legal parameters no check fails, the last release reclaims 1024, the total reclaimed is the allocations, and the collections are the started intervals, counted anew after each million, and the last release |
| TableChain.TableCovers | benchmark/0004.wasm3-core/gc_immutable_table_chain_20261003.cc:215-218 | with the descending index the 1024 slots hold exactly the 1024 newest objects |
| TableChain.Step | benchmark/0004.wasm3-core/gc_immutable_table_chain_20261003.cc:206-239 | one step publishes, loads and continues; a timed collection reclaims the predicted number |
| TableChain.ReadBack | benchmark/0004.wasm3-core/gc_immutable_table_chain_20261003.cc:245-254 | slot s reads the state after count - ((s + 1023) mod 1024) steps |
| TableChain.Qualify | benchmark/0004.wasm3-core/gc_immutable_table_chain_20261003.cc:255-270 | the pending and the final collection reclaim what is left; the first object survives the first only if count is 1024 |
| TableChain.Measure | benchmark/0004.wasm3-core/gc_immutable_table_chain_20261003.cc:198-271 | in both modes and for every legal count no check fails and timed plus qualification reclaims are the count |
| TableChain.Plan | benchmark/0004.wasm3-core/prepare_gc_immutable_table_chain_20261003.py:40-52 | the plan's oracle predicts exactly that measurement |
| TableChain.Control | benchmark/0004.wasm3-core/prepare_gc_immutable_table_chain_20261003.py:60-67 | the direct loop over the descending index ends in the closed form of every slot, for every count |
| TableChain.ManagedOracle | benchmark/0004.wasm3-core/check_managed_immutable_ring_20261003.py:34-48 | replaying only the last 1024 steps gives the same slots, and their xor is the root checksum |
| TableChain.XorAllBits | benchmark/0004.wasm3-core/check_managed_immutable_ring_20261003.py:44-46 | bit k of the root checksum is the parity of the number of slots that have bit k |
| ReferenceCosts.ScalarCosts | benchmark/0004.wasm3-core/prepare_gc_reference_costs_20261003.py:24-50 | the in-place oracle reports the specified checksums and the number of distinct targets |
| CostForms.TotalIs | benchmark/0004.wasm3-core/prepare_gc_reference_costs_20261003.py:30-45 | the checksum of every mode is the wrapped sum of what its steps add, in closed form from the generator |
| CostForms.TargetIs | benchmark/0004.wasm3-core/prepare_gc_reference_costs_20261003.py:41 | a holder points at the source selected by bits 10 to 19 of the last step that wrote it |
| CostForms.KeptIs | benchmark/0004.wasm3-core/prepare_gc_reference_costs_20261003.py:44 | so the kept sources are exactly those the last 1024 steps selected |
| CostForms.ScalarIs | benchmark/0004.wasm3-core/prepare_gc_reference_costs_20261003.py:37-39 | a source holds the state of the last step that selected it, or its initial value |
| CostForms.Untouched | benchmark/0004.wasm3-core/prepare_gc_reference_costs_20261003.py:28-42 | only set32 changes scalars and only set-reference changes targets |
| CostForms.AllKept | benchmark/0004.wasm3-core/prepare_gc_reference_costs_20261003.py:44-47 | without reference writes all 1024 sources are kept and the first collection reclaims nothing |
| ReferenceCosts.HoldersReach | benchmark/0004.wasm3-core/gc_reference_costs_20261003.cc:245-247 | with the holders as roots exactly the holders and the targeted sources are reachable |
| ReferenceCosts.SurvivorCount | benchmark/0004.wasm3-core/gc_reference_costs_20261003.cc:243-247 | they number 1024 plus the distinct targets |
| ReferenceCosts.Fixture.Matches | benchmark/0004.wasm3-core/gc_reference_costs_20261003.cc:149-152 | a live reference matches if and only if the expected type is on its canonical chain; a retired one never does |
| ReferenceCosts.Fixture.Perform | benchmark/0004.wasm3-core/gc_reference_costs_20261003.cc:185-226 | one unit of any mode and relation succeeds through the store, type match and typed write included, and follows the specified update |
| ReferenceCosts.Fixture.Census | benchmark/0004.wasm3-core/gc_reference_costs_20261003.cc:229-237 | every holder still points at its tracked target, and exactly the targets are marked |
| ReferenceCosts.Fixture.Sweep | benchmark/0004.wasm3-core/gc_reference_costs_20261003.cc:245-258 | the first collection reclaims 1024 minus kept, exactly the targeted sources survive, the second reclaims 1024 plus kept |
| ReferenceCosts.Measure | benchmark/0004.wasm3-core/gc_reference_costs_20261003.cc:114-260 | for every relation, mode and legal unit count no check fails and the report is the oracle's |
| CompactRing.Interval | benchmark/0004.wasm3-core/check_gc_compact_collection_ring.py:28-33 | a jump and 1024 summed states give the ring sum at the end of the interval |
| CompactRing.StoredSum | benchmark/0004.wasm3-core/check_gc_compact_collection_ring.py:61 | summing the slots is summing the last 1024 states, wherever the ring has turned |
| CompactRing.AccountFor | benchmark/0004.wasm3-core/check_gc_compact_collection_ring.py:25-40 | accepts exactly the supported parameters and accounts for every object: all reclaimed, the ring by the last collection, with the specified tally |
| CompactRing.NaiveRing | benchmark/0004.wasm3-core/check_gc_compact_collection_ring.py:54-65 | the ring that stores every state gives the same last state, last sum and accumulated checksum |
| EhLeaf.Leaf | benchmark/0004.wasm3-core/generate_native_eh_leaf_benchmark.py:41-46 | the leaf throws its result if the four low bits of its argument are zero and returns it otherwise |
| EhLeaf.Turn | benchmark/0004.wasm3-core/generate_native_eh_leaf_benchmark.py:52-66 | one turn of the protected loop, thrown or returned, advances the state and counts what was caught |
| EhLeaf.GuestOutcome | benchmark/0004.wasm3-core/generate_native_eh_leaf_benchmark.py:41-72 | the guest halts with both counts published if both embedded constants are right, and traps if either is wrong |
| EhLeaf.ThrowsAre | benchmark/0004.wasm3-core/generate_native_eh_leaf_benchmark.py:23-31 | among the first i states exactly the i/16 rounded up with index divisible by 16 throw |
| EhLeaf.SelfChecks | benchmark/0004.wasm3-core/generate_native_eh_leaf_benchmark.py:47-72 | for every legal count n/16 exceptions are caught and the composed checksum is published; any other checksum constant traps |
| EhLeaf.NeverTraps | benchmark/0004.wasm3-core/generate_native_eh_leaf_benchmark.py:68-71 | at no point of the run has the guest trapped or left valid behaviour |
| EhLeaf.Contract | benchmark/0004.wasm3-core/generate_native_eh_leaf_benchmark.py:11-31 | accepts exactly the multiples of 16 below 2^31; the affine composition from zero and n/16; the low-bit cycle check never fails |
| EhLeaf.Build | benchmark/0004.wasm3-core/generate_native_eh_leaf_benchmark.py:34-73 | the built guest passes its checks, and the variant with a flipped checksum bit is caught by them |
| Swizzle.Rotates | benchmark/0004.wasm3-core/generate.py:163-164 | two shifts, an or and a mask rotate a sixteen-bit string |
| Swizzle.EnginesAgree | benchmark/0004.wasm3-core/generate.py:525-540 | the indices always lie in the vector, so relaxed and strict results coincide |
| Swizzle.LanesAreFeedback | benchmark/0004.wasm3-core/generate.py:534-540 | for every state the sixteen-lane sequence equals the rotated and conditionally inverted pattern |
| Swizzle.SwizzleEndpoint | benchmark/0004.wasm3-core/generate.py:151-168 | the scalar loop computes the feedback state after any count |
| Swizzle.FedBackBits | benchmark/0004.wasm3-core/generate.py:161-167 | one iteration bit by bit: a low bit flips if bit 7 differs from the rotated pattern's bit, the high half stays |
| Swizzle.RelaxedIsStrict | benchmark/0004.wasm3-core/generate.py:522-555 | after any number of iterations every allowed engine is in the state of the strict one |
| Swizzle.Guest | benchmark/0004.wasm3-core/generate.py:522-555 | on every allowed engine the guest's loop ends in the oracle's state and its check passes exactly for that state; a zero count wraps around |
| ReleaseGate.CountCase | tools/wasmtime_full_backend_matrix.py:744-939 | the branch a case takes and the counter it bumps |
| ReleaseGate.CaseLoop | tools/wasmtime_full_backend_matrix.py:717-939 | the loop's counters are the tallies of the cases it recorded |
| ReleaseGate.TallyCases | tools/wasmtime_full_backend_matrix.py:451-483 | the gate's four tallies are exact and every skip is marked; an unrecognised case stops the summary, and nothing else does |
| ReleaseGate.Totals | tools/wasmtime_full_backend_matrix.py:485-487 | executed plus skipped is selected, and excused plus unexcused is skipped |
| ReleaseGate.CountersAgree | tools/wasmtime_full_backend_matrix.py:717-728 | the loop's counters and the gate's tallies agree for every status |
| ReleaseGate.Summarize | tools/wasmtime_full_backend_matrix.py:440-560 | the gate is qualified if and only if every case passed or is an excused skip, enough ran, and as many were selected as expected; otherwise it lists each violation with its exact numbers |
| MatrixRun.Select | tools/wasmtime_full_backend_matrix.py:681-700 | the selected inputs up to the limit; the numbers filtered, excluded and without entry are exact, and with the selected ones they add up to all fixtures |
| MatrixRun.ChosenInOrder | tools/wasmtime_full_backend_matrix.py:681-696 | the chosen inputs are those of the selectable fixtures, each once and in their order |
| MatrixRun.CheckSettings | tools/wasmtime_full_backend_matrix.py:640-655 | accepts exactly the settings the command line accepts |
| MatrixRun.ByReports | tools/wasmtime_full_backend_matrix.py:243-251 | whether a case ran, is excused or failed, as a condition on return codes, time-outs, recognised traps and output bytes alone |
| MatrixRun.Unforgiven | tools/wasmtime_full_backend_matrix.py:243-251 | an input that reached the engines with different output, a time-out, a signal, an unknown code or different codes fails every run |
| MatrixRun.QualifiesByReports | tools/wasmtime_full_backend_matrix.py:440-560 | in strict mode the gate's condition on the cases is a condition on raw process fields: as many inputs as expected, enough reached the engines, all of those ended alike with the same output, and every other one has an allowed deterministic reason |
| MatrixRun.ExitCode | tools/wasmtime_full_backend_matrix.py:636-703 | 2 if and only if an argument is refused or no fixture can be selected; strict 0 if and only if the raw reports deserve it; otherwise 0 if and only if no input that reached the engines failed |
| EngineOrder.OrderForPair | benchmark/0004.wasm3-core/run.py:84-93 | the rotated and, on odd pairs, reversed order; no engines are refused |
| EngineOrder.OrderPermutes | benchmark/0004.wasm3-core/run.py:89-92 | every order is a permutation of the engines |
| EngineOrder.Balanced | benchmark/0004.wasm3-core/run.py:87-93 | in any window of 2n consecutive pairs an engine takes a position exactly twice, once forward and once reversed |
| EngineOrder.EnginesBalanced | benchmark/0004.wasm3-core/run.py:84-93 | the same for the orders themselves, for any distinct engines |

## Left out

- The collector, leases, admission and the native stores: only the contract their clients check is modelled. The two stores of a cohort share one token space; an object records its store and its type there.
- The monotonic build of the sweep ring (no collector) and its `proof` scenario.
- WAT text and the checker's searches in it, manifests, SHA-256 pins, receipts and file output: equality checks on external bytes.
- UTF-8: names are byte strings.
- Clocks, resident memory and throughput: measured quantities.
- Process launching, the regular expressions over paths and tool output, and the resolution of executables: their results are inputs.
- The other fixture cases of `generate.py` (memories, tables, tail calls, atomics) and their endpoints: they would repeat the loop proofs.
- WebAssembly validation: the machine reports an ill-typed step as stuck, and the runs are proved never to be stuck.
- The 64-bit checksums of the sweep ring are unbounded sums here; they stay far below 2^64 for legal parameters.
- Loader.Load: reads the sections, types and instructions of generated modules only; other WebAssembly is refused.
- Subtype.LocalDepthJumpModel: takes the random choices as parameters and does not model the random generator.
- Swizzle.Guest: models the vector instructions as functions on sixteen lanes and not on the machine.
