# Verified models of asm.js

asm.js compiles JavaScript to native code and to WebAssembly. This project models the parts of it that rewrite a stream
of virtual instructions or lay out code, and proves that they keep its meaning.

- **The recorder and its register allocator** (`vm/index.js`). `VRegs`, `Machine` and `Plans` give an abstract machine
  with registers, frame slots, stack, labels, jumps and calls, and what a plan (promoted slots, rewritten push/pop pairs,
  extended save lists) may contain. `Recorder` is the recorder as a class, and `endRecord`'s analysis as loops; it always
  arrives at a valid plan. `Promotion` proves that any valid plan keeps the meaning of the record, by a lockstep simulation
  over all runs; `Compaction` removes what the replay drops; `EndToEnd` puts the three together. `Exactness` says when
  promotion is faithful (if and only if every run stores a promoted slot before loading it). `Liveness` has a check of the
  record under which borrowed registers are safe too, and a record that fails it and is miscompiled. `FrameMemory` is a
  machine in which the frame can be reached through its address, by callees too: there the scan's giving up is what makes
  the analysis safe. `Frame` and `Context` put save area and local cells into one memory.
- **The two emission windows** (`vm/index.js`, `backend/arm64.js`). `Windows` proves that store-to-load forwarding and the
  undoing of push/pop are jointly sound over all runs, although both compare buffer lengths and one shrinks the buffer,
  with one exception that it characterizes.
- **The segmented WebAssembly CPU** (`backend/wasm32.js`, `asm/wasm32.js`, `binary/wasm.js`). `WasmCore` has structured
  control as in section 4.4.5 of WebAssembly Core Specification 1.0, `Ladder` the nested blocks, `Segments` the refinement
  of a flat label machine by segment functions and trampoline, `Wasm32Asm` the assembler with its fixups, `WasmWriter` the
  writer's loops, `Wasm32Bytes` the assembler's buffer byte by byte, and `Leb128` the integer encodings against the
  decoder of section 5.2.2.
- **x64 lowering** (`backend/x64.js`). `X64Lowering`: division, remainder and shifts on fixed registers.
- **Eval fragments** (`engine/compile.js`, `lang/analysis/closure.js`, `lang/analysis/blockscope.js`). `A64`,
  `X64Code` and `FragmentLinker`: relocation on arm64 and x64, by decoding what is emitted; `EvalCapture`: captured
  variables. `Scoping` and `Binding` have syntax
  trees with the scoping rules of the language; `BlockScope` is the renaming of block scopes that every parsed program
  goes through, and when it keeps what identifiers refer to; `ClosureNames` is the walk that tells which captured
  variables closures use, and when it is right.
- **Object files** (`binary/coff_object.js`, `binary/macho_object.js`, `binary/static_linker.js`). `ArArchive` and
  `CoffObject`: writers against readers; `ArFormats` and `CoffFiles`: archives and objects as other tools write them,
  described by their formats, against the same readers; `StaticLink`: symbols of linked libraries.
- **Module graph** (`compiler/index.js`). `ModuleGraph`: order and require cycles; `ExportGraph`: live bindings through
  cyclic re-exports, and their index.

Meanings of arithmetic, comparisons, calls and memory are parameters, so that a theorem holds for all of them.

## What the recorder is assumed to be given

The code does not check these; `Plans.WellFormed`, `Plans.ViewFits`, `Recorder.UniqueLabels` and `Promotion.Disciplined`
state them:

- labels of a record are unique, and the record starts with its one prologue; its list and that of every epilogue is
  S0-S3, as at the five places that record (`compiler/index.js:1962`, `:2780`, `compiler/functions/closures.js:309`,
  `compiler/functions/statements.js:2539`, `:3108`);
- the operands of `prepareCall`, which the scan does not look into (`vm/index.js:219-227`), contain no saved register;
- a callee depends neither on saved registers the function never names nor on arm64's V5-V7;
- every run stores a promoted slot before loading it, and does not read V5-V7 after a pair has borrowed them. The first
  half is exactly what faithfulness needs (`Exactness.PromotionIsExact`); both can be checked on the record
  (`Liveness.FlowIsFaithful`);
- different frame offsets are different cells below the save area [FP-48, FP), as `allocLocal` hands them out
  (`Context.CellsApart`, `Frame.FrameIsSafe`; the scan itself would let -48 pass);
- FP and SP are not what a store stores, what a load loads, nor an operand of `prepareCall`, none of which the scan looks
  for (`vm/index.js:202-227`; `FrameMemory.KeepsFrame`). All other uses it gives up on by itself.

Three facts of the code contradict its comments, and the models follow the code. `backend/x64.js:609-610` says shifts are
immune to all clashes with R10 and R11, but S5 is fetched into these before the other operand is read
(`X64Lowering.ClashShows`). `backend/arm64.js:141` calls V0 an alias of X0, but the map has it on X8 (line 76).
`lang/analysis/blockscope.js:8` says the renaming misses nothing; it misses default values within patterns and `var` in
blocks that declare the name by `catch` (`BlockScope.PatternIsMissed`, `BlockScope.CaughtIsMissed`), and in the syntax modelled nothing else.

## Model

| member | source | states |
|---|---|---|
| `VRegs.UnaliasedIsAlone` | backend/x64.js:40-79 | a register the allocator may hand out (S0-S5 anywhere, V5-V7 on arm64) shares its physical register with no other virtual register, on any of the three targets |
| `Machine.FindLabel` | vm/index.js:1055-1059 | a jump goes to the first position that carries the label, and nowhere if none does |
| `Plans.FindProm` | vm/index.js:424 | the promotion a slot access is rewritten by is the first for its offset |
| `Plans.FindPair` | vm/index.js:411 | the pair a push or pop is rewritten by is the first that contains it |
| `Promotion.SameLabels` | vm/index.js:407-459 | the rewriting puts a label where the record has one and nowhere else, so that every jump lands at the same position in record and replay |
| `Promotion.NeverBack` | vm/index.js:244-265 | a run that has left a widened interval never steps back into it, whatever the control flow |
| `Promotion.RegionIsStraight` | vm/index.js:365-371 | inside a push/pop region control only moves to the next op, and enters it only through the push |
| `Promotion.TopMatches` | vm/index.js:354-362 | at a pop, the entry dynamically on top of the stack was pushed by the push that the linear matching paired with this pop, and entries of other pairs are never taken for it |
| `Promotion.FreeAtPush` | vm/index.js:381-394 | at a virtual push nothing live is in the register it takes: no promoted slot and no open pair |
| `Promotion.PooledIsUsable` | vm/index.js:278-287 | every register the plan uses is unnamed by the body, kept by its calls, and saved by the prologue that is replayed |
| `Promotion.RestoredIsEntry` | backend/x64.js:1010-1078 | an epilogue puts back exactly the entry values of the registers its list names and touches no other; by `Frame.SaveAreaFits` each of them has a place in the save area |
| `Promotion.ExtendedHas` | vm/index.js:442-456 | the extended list has the original registers, the added ones, and at most the pad besides; its length is bounded by `Frame.SaveAreaFits` |
| `Frame.SaveAreaFits` | compiler/core/context.js:6-13 | the list a replayed prologue saves is even, takes at most the 48 bytes of the save area, and has S5 on arm64 only, so that each of its registers has one place of eight bytes |
| `Frame.EmitSaves` | backend/arm64.js:466-473 | the prologue's loop, by pairs on arm64 and wasm32 and one by one without S5 on x64, emits a save of every register of the list in order |
| `Frame.EmitLoads` | backend/arm64.js:487-495 | the epilogue's loop emits the matching loads in reverse order |
| `Frame.RestoresSaved` | backend/x64.js:1015-1074 | whatever happens to registers in between, the loads bring back what the saves stored and put the stack pointer back, as long as the save area has been left alone |
| `Frame.StoresHold` | compiler/core/context.js:127-132 | stores to local cells keep each cell's last value and leave the save area alone |
| `Frame.FrameIsSafe` | compiler/core/context.js:6-13 | prologue, any stores to local cells, epilogue, in one memory of bytes: save area and cells never overlap, every cell holds what was stored last, every register of the list and the stack pointer come back |
| `Promotion.ExitEntry` | vm/index.js:443-456 | at an exit, with the list extended or not, every register of the recorded list and every saved register the body never names has its entry value in both runs |
| `Promotion.ExitValue` | vm/index.js:438-456 | at an exit every register other than the pad and dead borrowed ones is the same in both runs: the pad never hits RET, on x64 aliasing either |
| `Promotion.StepPromotedLoad` | vm/index.js:422-428 | a load of a promoted slot and the move (or nothing) that replaces it keep the simulation |
| `Promotion.StepPromotedStore` | vm/index.js:430-436 | a store to a promoted slot and the move that replaces it keep the simulation, other slots and pairs included |
| `Promotion.StepVirtualPush` | vm/index.js:412-414 | a push replaced by a move keeps the simulation, with the shorter stack of the replay |
| `Promotion.StepVirtualPop` | vm/index.js:415-418 | a pop replaced by a move keeps the simulation |
| `Promotion.StepCall` | vm/index.js:228-232 | a call, which may overwrite every caller-saved register, sees the same arguments and world in both runs and keeps the simulation |
| `Promotion.StepSimulates` | vm/index.js:405-459 | every op of the alphabet, rewritten or not, keeps the simulation |
| `Promotion.ReplaySimulates` | vm/index.js:163-460 | main theorem: for every valid plan, all meanings of the ops, all initial states and any number of disciplined steps, the replay is at the same position with the same status, the same world and unpromoted slots, promoted slots in their registers, and the recorded stack less the virtual entries |
| `Promotion.CallerSeesNoDifference` | vm/index.js:163-460 | the replayed function returns exactly when the recorded one does, with the same result and effects, and hands back S0-S3 and every saved register it never named |
| `Compaction.LabelMoves` | vm/index.js:414-416 | dropping ops moves every label to the position its code has moved to |
| `Compaction.CompactRun` | vm/index.js:414-427 | the program without the dropped ops runs through the same states, skipping only steps that did nothing |
| `Recorder.Scan` | vm/index.js:174-242 | the scan gives, for each frame slot, exactly its accesses' first and last position and their number, the saved registers named, whether there are calls and indirect jumps, and one edge for every jump to a label already seen, to the latest one of that name; or it gives up on exactly the records that touch SP, the frame address or offsets above -48 |
| `Recorder.SeenLabel` | vm/index.js:237-239 | the search backwards finds the latest position of a label among those seen so far, or that there is none |
| `Recorder.Sweep` | vm/index.js:253-262 | one sweep only merges loops into intervals that meet them, and reports no change exactly when every interval holds or avoids every loop |
| `Recorder.Widen` | vm/index.js:244-265 | the widening terminates and yields for each slot the least interval around its accesses that contains every loop it meets; the whole function if there is an indirect jump |
| `Recorder.MergeWidens` | vm/index.js:257-260 | merging a loop into an interval stays inside every closed interval around the original one |
| `Recorder.Pool` | vm/index.js:278-287 | the pool has exactly the saved registers not named by the body, S5 only in arm64 leaves, in the order S3, S2, S1, S0, S4, S5 |
| `Recorder.ByStart` | vm/index.js:291-299 | the selection sort gives a permutation of the slots in order of interval start |
| `Recorder.LinearScan` | vm/index.js:289-320 | every slot gets the first register of the pool for which it is accessed often enough and which no other slot holds where its interval starts, and stays in memory only if there is none; slots sharing a register have disjoint intervals; the extra list has exactly the S4 and S5 handed out, each once |
| `Recorder.ScanRegion` | vm/index.js:365-371 | a region is accepted exactly if no op in it controls flow, and its calls are noticed |
| `Recorder.IsFree` | vm/index.js:383-391 | a candidate is free exactly if no op in the region names it and no earlier claim on it overlaps |
| `Recorder.Choose` | vm/index.js:372-395 | the register chosen is the first candidate that is free across the pair, and none is chosen only if the region is not straight or no candidate is free |
| `Recorder.MatchPairs` | vm/index.js:324-403 | the loop computes the matching that `PairsAreFirstFit` is about, and its pairs are well nested, region by region, with registers no other pair or slot claims at the same time |
| `Recorder.PairsAreFirstFit` | vm/index.js:324-403 | in a balanced record every push and the pop that takes it back, unless adjacent, go through the first register that is free around the promotions and the pairs that end earlier, and stay on the stack only if there is none or the region is not straight; in a record whose pushes and pops do not balance nothing is paired |
| `Recorder.MatchDepth` | vm/index.js:354-403 | the matching gives up exactly if some prefix of the record has more pops than pushes |
| `Recorder.LeftInMemory` | vm/index.js:276-322 | a slot stays in memory only if for every usable register it is accessed too rarely, or another promotion of the register is in the way of every closed interval around its accesses |
| `Recorder.AllocatedIsValid` | vm/index.js:276-322 | the linear scan over widened intervals meets every condition the simulation needs of promotions |
| `Recorder.Decide` | vm/index.js:163-403 | the analysis yields the plan that scan, widening, linear scan and first-fit matching determine, valid for every record with unique labels; for a record it gives up on, the empty plan; why it gives up is in `FrameMemory.DecideWithAddresses` |
| `Recorder.VirtualMachine.constructor` | vm/index.js:105-126 | a new machine is in direct mode with nothing issued |
| `Recorder.VirtualMachine.Issue` | vm/index.js:597-600 | an op is buffered while there is room and else passed on behind everything buffered: no op is lost, doubled or reordered, also beyond the capacity |
| `Recorder.VirtualMachine.FlushRecordVerbatim` | vm/index.js:153-161 | a flush passes on exactly the buffered ops in order and leaves direct mode on |
| `Recorder.VirtualMachine.BeginRecord` | vm/index.js:133-151 | a nested beginRecord passes the outer record on unchanged and starts an empty one |
| `Recorder.VirtualMachine.EndRecord` | vm/index.js:163-460 | what reaches the backend is the compact replay under the plan the analysis yields for the record, valid if labels are unique, and empty if the record was given up; outside a record nothing happens |
| `Recorder.VirtualMachine.ReplayAll` | vm/index.js:405-460 | the replay loop emits the rewriting of each op in order and nothing for dropped ones |
| `EndToEnd.EmptyPlanIsVerbatim` | vm/index.js:153-161 | with no promotion and no pair the replay makes exactly the recorded calls |
| `EndToEnd.EmittedCodeIsFaithful` | vm/index.js:163-460 | recorded and emitted function compared directly: same status, corresponding position, and on return same result, effects and saved registers |
| `FrameMemory.StepTogether` | vm/index.js:202-227 | a machine in which the frame is memory that any register, callee or operation may reach through an address: while FP and SP are used for local cells only, a step does what it does without addresses, and no address gets into a register, the stack, a slot or memory |
| `FrameMemory.RunTogether` | vm/index.js:202-227 | the same over whole runs |
| `FrameMemory.ReplayFramed` | vm/index.js:405-460 | the replay, save list extended or not, uses FP and SP no more than the record |
| `FrameMemory.SafeThere` | vm/index.js:163-460 | in that machine a valid plan is as faithful as in the one without addresses |
| `FrameMemory.NotInVain` | vm/index.js:202-227 | the scan gives up no record that uses FP and SP for local cells only |
| `FrameMemory.DecideWithAddresses` | vm/index.js:163-403 | main result of the giving up: whatever operations do that get at the frame, the emitted function behaves like the recorded one; if the analysis has rewritten anything, no address in the frame is ever held by anything but FP and SP; and a record that uses them for local cells only is analysed |
| `FrameMemory.AddressPlanIsValid` | vm/index.js:219-226 | for a record that takes the frame address, as a function with direct eval does (`compiler/functions/functions.js:1610`), the plan that promotes its slot is valid but for the scan's giving up, ... |
| `FrameMemory.AddressIsLost` | vm/index.js:219-226 | ... and unfaithful: the recorded function returns what the callee has written into the slot, the emitted one the argument as it was |
| `Exactness.EarlyLoadShows` | vm/index.js:422-428 | a run that loads a promoted slot before storing it: some state with another initial value of the slot makes record and replay differ |
| `Exactness.PromotionIsExact` | vm/index.js:244-322 | for plans without borrowed registers the replay is faithful on all initial states if and only if every run stores each promoted slot before loading it |
| `Liveness.FlowIsFaithful` | vm/index.js:372-395 | plans with borrowed registers: if a solution of the data flow equations for slots not yet stored and registers that may be dead exists under which no op reads any of them, the replay is faithful for every meaning of the ops, every initial state and every number of steps |
| `Liveness.FlowDisciplines` | vm/index.js:372-395 | that check, made before the run, covers every run, over all jumps |
| `Liveness.UnreadFits` | vm/index.js:372-375 | in particular it passes if no slot is promoted and no op reads a borrowed register |
| `Liveness.AnalysisTakesV7` | vm/index.js:354-395 | for the two records of the next rows the analysis yields the pair through V7 and nothing else |
| `Liveness.LiveRegisterIsLost` | vm/index.js:372-386 | false without the check: the plan the analysis makes for a record returns V0 instead of 5 where V7 is live across the pair, because only the region between push and pop is searched for it |
| `Liveness.DisciplineIsNotNeeded` | vm/index.js:372-386 | why the check is one direction only: where V7 happens to hold the pushed value the plan breaks the rule and still returns the same |
| `Windows.Emitter.constructor` | vm/index.js:111-116 | both windows start closed |
| `Windows.Emitter.Mov` | backend/arm64.js:140-147 | a move between two names of one physical register emits nothing and is equivalent to the plain move |
| `Windows.Emitter.Store` | vm/index.js:634-645 | a store to a frame slot opens the window for its offset and register at the end of the code, with the slot equal to the register wherever control comes by |
| `Windows.Emitter.StoreElsewhere` | vm/index.js:641-651 | a store through any other base closes the window |
| `Windows.Emitter.Load` | vm/index.js:615-625 | a load inside the window is replaced by a move or nothing; the emitted code stays equivalent to the plain code, also when the buffer has been shrunk in between, if and only if it is not a load of [FP-1] with the window closed by a label right behind the store |
| `Windows.Emitter.Label` | vm/index.js:1055-1059 | a label closes both windows, so that nothing is forwarded or undone across a point control may come to from elsewhere |
| `Windows.Emitter.Push` | backend/arm64.js:546-551 | a push opens the undo window at exactly its own instruction, for its register |
| `Windows.Emitter.Pop` | backend/arm64.js:553-565 | a pop right behind its push takes the push back and moves, equivalent to both; the forwarding window, if open, lies wholly before what was taken back |
| `Windows.Emitter.PopBytes` | backend/arm64.js:560 | taking instructions back restores the buffer as it was at the push |
| `Windows.ForwardMove` | vm/index.js:619-622 | where slot and register agree, a move from the register is equivalent to the load |
| `Windows.ForwardNothing` | vm/index.js:620 | and nothing at all if the register is the destination |
| `Windows.UndonePush` | backend/arm64.js:556-562 | code without the push followed by a move is equivalent to push and pop |
| `Windows.FallThroughAgrees` | backend/base.js:201-205 | block by block equivalence adds up: the whole emitted code and the whole plain code agree on every fall-through run, including every state an unknown instruction is given |
| `Windows.SentinelIsNotASlot` | vm/index.js:114 | -1 marks the closed window and is also an offset: store, label, load of [FP-1] ends with code that is not equivalent to the plain code |
| `Windows.MisfireShows` | vm/index.js:619-622 | at the start of a block a load of [FP-1] is not equivalent to a move from any register, nor to nothing |
| `Windows.WalkIs` | backend/base.js:201-205 | where a pass through a block leaves it by a jump is determined by the states its instructions are given |
| `Windows.RunsAgree` | vm/index.js:1055-1059 | whole runs: from any label, for every meaning of the other instructions and over every jump they take, emitted and plain code are after any number of blocks at the same label in the same state and have shown the same |
| `Windows.EmittedRuns` | vm/index.js:615-651 | which holds of what the emitter has emitted at any time |
| `Ladder.EndsClose` | binary/wasm.js:216-243 | the end in front of slice i, counted d levels out, is the one in front of slice i + d, then that of the loop and of the outer block |
| `Ladder.BlocksClose` | binary/wasm.js:186-191 | the k-th block opened closes in front of slice n - 1 - k; loop and outer block close last |
| `Ladder.FromStart` | binary/wasm.js:186-193 | from the start of a function all blocks are opened and the dispatch reached with the full control stack |
| `Ladder.BranchLands` | binary/wasm.js:207-214 | entry i of the table leads right behind the end of block i, the default behind everything |
| `Ladder.LoopDepth` | asm/wasm32.js:401-411 | inside slice i the depth n - 1 - i is that of the dispatch loop |
| `Ladder.FallOut` | binary/wasm.js:216-224 | running off slice j opens slice j + 1 |
| `Ladder.FallOff` | binary/wasm.js:226-243 | running off the last slice leaves loop and outer block |
| `Segments.SegOf` | binary/wasm.js:70-71 | label i is in segment number i / segSize, at a place inside its length, ... |
| `Segments.OnlySeg` | binary/wasm.js:70-71 | ... and in no other one |
| `Segments.Wraps` | binary/wasm.js:193-209 | pc - first as an i32 is the label's place for the segment's own labels and beyond them for every other pc, wrapped ones included |
| `Segments.HubCalls` | binary/wasm.js:247-283 | the trampoline calls segment pc / segSize and will come back behind that call |
| `Segments.HubTraps` | binary/wasm.js:276-285 | a pc without a segment traps |
| `Segments.Dispatches` | binary/wasm.js:193-214 | a dispatch inside a segment reaches exactly the slice of its pc, in this segment directly and in another by way of the trampoline, with registers and memory unchanged; a pc that is no label ends at the trampoline |
| `Segments.HubRoutes` | binary/wasm.js:247-283 | the trampoline brings every label to its slice, through the table and the call |
| `Segments.OpMoves` | backend/wasm32.js:198-224 | the tokens of one operation carry out that operation: on to the next, or to a dispatch with pc written for it |
| `Segments.FallsThrough` | binary/wasm.js:216-224 | falling off a slice inside a segment goes on at the next label |
| `Segments.LeavesSegment` | binary/wasm.js:226-243 | falling off a segment's last slice gives the trampoline the next label's index |
| `Segments.StepSimulated` | binary/wasm.js:177-288 | each step of the flat label machine is one or more steps of the module that keep the relation |
| `Segments.RunSimulated` | binary/wasm.js:177-288 | the module refines the flat machine over every run, from any related pair, with at least as many steps |
| `Segments.ModuleRefines` | binary/wasm.js:62-151 | from power-on, for every number of labels and every segment size, the module is where the flat machine is |
| `Segments.NeverTraps` | binary/wasm.js:177-288 | the module does not stop as long as the flat machine stays in its program |
| `Segments.LostExactly` | binary/wasm.js:267-285 | a pc that is no label traps if it has no segment and otherwise makes the module go round for ever without touching registers or memory |
| `Segments.OffTheEnd` | binary/wasm.js:226-243 | running off the last label traps if and only if the segment size divides the number of labels |
| `Segments.PcIsNotObserved` | backend/wasm32.js:216-224 | the pc an untaken branch leaves behind plays no part: with any other value there the module goes on to the same states |
| `Segments.CallComesBack` | backend/wasm32.js:529-570 | a call, also one through the link register itself, reaches its target, and a return through an intact link register comes back to the label it named |
| `Wasm32Asm.LastIndex` | asm/wasm32.js:391-395 | a name defined twice stands for its last definition |
| `Wasm32Asm.LastBefore` | asm/wasm32.js:441-455 | the label a byte belongs to is the last one at or before it, with coinciding labels too |
| `Wasm32Asm.DepthFits` | asm/wasm32.js:59-66 | the depth of every branch behind a label fits the bytes set aside for it, so that nothing of it is cut off |
| `Wasm32Asm.SlicePatched` | asm/wasm32.js:387-436 | a slice with all its fixups filled in is the code of the resolved operations at their depth |
| `Wasm32Asm.HasFixup` | asm/wasm32.js:259-277 | every open immediate has its fixup, ... |
| `Wasm32Asm.HasPosition` | asm/wasm32.js:259-277 | ... and every fixup its open immediate |
| `Wasm32Asm.Wasm32Assembler.constructor` | asm/wasm32.js:48-67 | an empty assembler for a segment size |
| `Wasm32Asm.Wasm32Assembler.Label` | asm/wasm32.js:232-238 | a label opens a new slice at the current position |
| `Wasm32Asm.Wasm32Assembler.Jump` | backend/wasm32.js:211-214 | adds a jump to the current slice |
| `Wasm32Asm.Wasm32Assembler.JumpIf` | backend/wasm32.js:437-450 | adds a conditional jump, pc being written in either case |
| `Wasm32Asm.Wasm32Assembler.JumpIndirect` | backend/wasm32.js:554-570 | adds a jump through a register, or a return |
| `Wasm32Asm.Wasm32Assembler.Call` | backend/wasm32.js:529-537 | adds a call that links a fresh return label, which opens the next slice |
| `Wasm32Asm.Wasm32Assembler.CallIndirect` | backend/wasm32.js:539-552 | likewise through a register, read before the link register is written |
| `Wasm32Asm.SegmentOf` | asm/wasm32.js:441-455 | the binary search finds the label a position belongs to; 0 before the first label or without labels |
| `Wasm32Asm.LabelIndex` | asm/wasm32.js:391-396 | the index map has exactly the defined names, with the place of the last definition |
| `Wasm32Asm.Wasm32Assembler.FixupAll` | asm/wasm32.js:387-436 | fails exactly if some label asked for is undefined; otherwise every immediate holds what its label's place in the module requires; on tokens, for bytes see `Wasm32Bytes` |
| `WasmWriter.BuildSegmentBody` | binary/wasm.js:177-244 | the loops produce the ladder of the segment's slices, cut out of the resolved code, the last one going on to the next label |
| `WasmWriter.BuildTrampolineBody` | binary/wasm.js:247-288 | the loops produce the trampoline for any number of segments |
| `WasmWriter.SlicesAreResolved` | binary/wasm.js:217-224 | the bytes between two labels are the code of the operations asked for between them, resolved |
| `WasmWriter.Generate` | binary/wasm.js:62-151 | refuses exactly the programs whose first label is not _start at offset 0; otherwise the module is the segmented form of the resolved program, to which ModuleRefines applies |
| `WasmWriter.ReturnsBehindItself` | backend/wasm32.js:529-552 | a call's return label resolves to the slice right behind the call, unless a later label repeats its name |
| `Wasm32Bytes.ByteAssembler.constructor` | asm/wasm32.js:14-67 | an empty buffer for a segment size |
| `Wasm32Bytes.ByteAssembler.AddField` | asm/wasm32.js:259-277 | opcode, a field of the right width that reads as 0, and a fixup at its byte offset |
| `Wasm32Bytes.ByteAssembler.Label` | asm/wasm32.js:232-238 | a label is at the byte its next token will start with |
| `Wasm32Bytes.SameLabel` | asm/wasm32.js:441-455 | the label found for a field's byte offset is that of its token, though the field stands behind its opcode |
| `Wasm32Bytes.ByteAssembler.FixupAll` | asm/wasm32.js:387-436 | fails exactly if some label asked for is undefined; otherwise every field of the buffer holds its number in its width, and every other byte is as before |
| `Wasm32Bytes.FieldSpells` | asm/wasm32.js:398-436 | a patched field reads back, in the decoder of the WebAssembly specification, as the resolved number: i32 index, i64 address, u32 depth |
| `Wasm32Bytes.BufferIsCode` | asm/wasm32.js:387-436 | the patched bytes are, token by token and each up to the next, the resolved code that `Wasm32Asm.Wasm32Assembler.FixupAll` arrives at and `WasmWriter.Generate` lays out |
| `Leb128.SlebIsShortest` | asm/wasm32.js:116-133 | no encoding of the same integer is shorter than the one sleb writes |
| `Leb128.PushedReadBack` | asm/wasm32.js:96-139 | what uleb and sleb write reads back wherever it stands: all 32-bit integers, and all 64-bit ones by the ten-byte path of sleb too |
| `Leb128.Sleb32ReadsBack` | asm/wasm32.js:173-180 | a patched label index reads back as the 32-bit value |
| `Leb128.Sleb64ReadsBack` | asm/wasm32.js:206-221 | a patched 10-byte field reads back for every 64-bit integer, a 5-byte one for every address below 2^32 |
| `Leb128.DepthReadsBack` | asm/wasm32.js:192-199 | a patched branch depth reads back in the width chosen for the segment size, which is at most 5 bytes |
| `Leb128.WideEnough` | asm/wasm32.js:69-79 | the number of bytes _ulebLen counts is enough for its argument |
| `Leb128.RefillIsArithmetic` | asm/wasm32.js:206-215 | masking and refilling makes either host shift the arithmetic one on all 64-bit patterns |
| `Leb128.CodeBuffer.PushUleb` | asm/wasm32.js:96-107 | the loop appends the encoding of the value as u32 |
| `Leb128.CodeBuffer.PushSleb` | asm/wasm32.js:116-139 | the shortest encoding for numbers that are 32-bit integers, and for all others ten bytes of the value cut to 64 bits |
| `Leb128.CodeBuffer.EmitPadN` | asm/wasm32.js:152-159 | a field of w bytes that reads as 0 |
| `Leb128.CodeBuffer.PatchUlebN` | asm/wasm32.js:192-199 | replaces exactly the w bytes of the field |
| `Leb128.CodeBuffer.PatchSleb32` | asm/wasm32.js:173-180 | replaces exactly the 5 bytes of the field |
| `Leb128.CodeBuffer.PatchSlebW` | asm/wasm32.js:206-217 | replaces exactly the w bytes of the field with those of the value cut to 64 bits, the same whatever the host's shift does |
| `Leb128.CutTo64` | asm/wasm32.js:206-208 | a 64-bit value is kept by that, and any other reduced to the one it is congruent to |
| `X64Lowering.DividesSigned` | backend/x64.js:424-438 | cqo and idiv divide the 64-bit value in RAX, truncating, and trap exactly on zero and on the overflowing quotient |
| `X64Lowering.CoreRuns` | backend/x64.js:413-438 | the divisor survives the setting up of RDX:RAX also where it was in one of them, and the stack ends as it was |
| `X64Lowering.DivRuns` | backend/x64.js:398-452 | div and mod leave the result in dest, change nothing else but S5's temporaries, restore the stack, and trap exactly where the division does |
| `X64Lowering.InPlaceRuns` | backend/x64.js:622-637 | a shift not into RCX changes only its destination, with RCX restored and src read back from the stack if it was there |
| `X64Lowering.OnStackRuns` | backend/x64.js:612-621 | a shift into RCX changes only RCX |
| `X64Lowering.ShiftRuns` | backend/x64.js:584-638 | shl, shr and sar by a register compute the shift of the operands as fetched and change only dest |
| `X64Lowering.LoweringIsRight` | backend/x64.js:398-498 | for all dest, a and b, clashes with RAX, RDX and RCX included: the right value, or the trap, and nothing else changed |
| `X64Lowering.ClashShows` | backend/x64.js:404-405 | false where an operand is S5 and the other one lives in the temporary it is fetched into: a state on which the wrong value comes out, contrary to the comment at lines 609-610 |
| `X64Lowering.LoweringExactly` | backend/x64.js:398-498 | right on all states if and only if there is no such clash |
| `X64Lowering.X64Backend.Div` | backend/x64.js:398-452 | emits the code those results are about |
| `X64Lowering.X64Backend.Mod` | backend/x64.js:454-498 | emits the code those results are about |
| `X64Lowering.X64Backend.ShiftBy` | backend/x64.js:659-713 | emits the code those results are about, for each of the three shifts |
| `ModuleGraph.Compiler.ResolveImports` | compiler/index.js:2331-2411 | visiting an entered module puts it into the order, with everything newly entered reachable from it, every dependency before its dependent unless it leads back to it, and nothing left open that was not before |
| `ModuleGraph.OrderModules` | compiler/index.js:1906-1908 | the order has each module reachable from the entry exactly once and no other, and a dependency that does not lead back comes first, on cyclic graphs too |
| `ModuleGraph.Reach` | compiler/index.js:2498-2505 | the search with a shared seen set answers whether target is reachable, and what it leaves in seen after a failure is closed |
| `ModuleGraph.InCycle` | compiler/index.js:2506-2511 | a module is in a cycle exactly if some successor leads back to it, itself included |
| `ModuleGraph.MarkCjsRequireCycles` | compiler/index.js:2484-2523 | a module becomes lazy if and only if it is a CommonJS module that a chain of requires from CommonJS module to CommonJS module leads back to |
| `ModuleGraph.LocalCycles` | compiler/index.js:2484-2523 | a cycle in the subgraph of local edges is such a chain, and the other way round |
| `ExportGraph.ResolveSound` | compiler/index.js:961-1018 | what resolution returns is where the chain of re-exports and imports ends |
| `ExportGraph.ResolveComplete` | compiler/index.js:964-968 | a chain that ends never meets a key it has seen |
| `ExportGraph.ResolveExactly` | compiler/index.js:961-1018 | resolution terminates and returns a reference if and only if the chain from the export ends in it; a chain in a circle gives nothing |
| `ExportGraph.ResolvesToWhatItDenotes` | compiler/index.js:961-1018 | resolution returns a variable or namespace if and only if the export denotes it by the rules of the language: its own variable, what a local name was imported as, or, for a re-export, the export of the imported name, over any number of modules |
| `ExportGraph.CellIsLive` | compiler/index.js:1004-1010 | a resolved cell is a variable of the module it is said to be in |
| `ExportGraph.PropagationIs` | compiler/index.js:1082-1094 | an export is among the targets of a variable if and only if it is listed, in another module, and denotes that variable, and none is there twice |
| `ExportGraph.LiveBindings.BuildIndex` | compiler/index.js:1079-1095 | the index answers for every variable as the scan of all modules does |
| `ExportGraph.LiveBindings.GetResolvedExportPropagationTargets` | compiler/index.js:1072-1109 | the cached index gives the full scan's answer, in its order, at the first and every later call: exactly the listed exports of other modules that denote the variable, each once |
| `A64.PageReads` | engine/compile.js:560-565 | adrp and add give base + target for every page-aligned base, across pages |
| `A64.BCondReads` | engine/compile.js:460-464 | a patched conditional branch keeps its condition and reaches its label from any base |
| `A64.CbzReads` | engine/compile.js:465-468 | a patched cbz or cbnz keeps its register and reaches its label from any base |
| `FragmentLinker.DoneStays` | engine/compile.js:413-567 | a site that has been patched, and what it refers to, stays as it is while other sites are patched and the buffer grows |
| `FragmentLinker.Linker.Trampoline` | engine/compile.js:420-437 | one trampoline for each symbol, aligned, with a slot of its own; what it does when run is in `FragmentLinker.SiteMeans` |
| `FragmentLinker.JumpDecodes` | engine/compile.js:424-428 | the trampoline's bytes on x64 decode to a load relative to RIP and a jump through the register loaded, ... |
| `FragmentLinker.Tramp64Runs` | engine/compile.js:420-446 | ... so that a call of it reaches what its slot is filled with, at every base |
| `X64Code.SiteDecodes` | engine/compile.js:493-507 | an lea site with its displacement filled in reads as that lea, with the opcode 8b as a load into the same register, REX prefix and register field kept |
| `FragmentLinker.Linker.PatchCalls` | engine/compile.js:413-446 | every runtime call is patched to its symbol's trampoline; fails only on a symbol or fixup type that is not supported |
| `FragmentLinker.Linker.PatchBranches` | engine/compile.js:449-471 | every local branch is patched to its label, keeping opcode, condition and register; on x64 a rel32 to a label that is no symbol |
| `FragmentLinker.Linker.PatchData` | engine/compile.js:479-567 | every address site, adrp or rip32, is patched to its data, string, code or host slot, on x64 with the opcode of a load for the latter; fails only on a label that cannot be resolved |
| `FragmentLinker.Linker.Link` | engine/compile.js:411-573 | on either target: fails only on an unresolvable label or, on arm64, beyond 256 KB, and otherwise has dealt with every fixup |
| `FragmentLinker.SiteMeans` | engine/compile.js:411-567 | on either target, at every page-aligned base and for all host addresses filled into the slots, as the processor decodes the bytes: a call reaches its symbol through its trampoline, which loads a register from its slot and jumps through the same one; a branch reaches its label, an address site its data, string, singleton value or code, in the register it named; a host variable site loads the host's address |
| `FragmentLinker.LinkFragment` | engine/compile.js:369-573 | fails exactly beyond 262144 bytes on arm64 or where some label cannot be resolved; otherwise the same for every fixup of every fragment, with code outside the sites unchanged and slots disjoint and in order, on arm64 also aligned |
| `FragmentLinker.OneTrampoline` | engine/compile.js:419-437 | two calls lead to the same trampoline if and only if they are of the same symbol |
| `Context.CellsApart` | compiler/core/context.js:13 | frame cells are distinct and wholly below the area the prologue saves registers in |
| `EvalCapture.FragmentCompiler.AllocLocal` | compiler/core/context.js:127-132 | each call gives the next cell |
| `EvalCapture.FragmentCompiler.EmitEntry` | engine/compile.js:243-275 | the loop emits the copy-in of every capture in order and marks exactly the boxed names, those the caller has boxed and those closures use |
| `EvalCapture.SlotsFit` | engine/compile.js:243-275 | the slots it lays out are what the captures call for: shared if and only if the caller has boxed the variable, with a box if that or a closure uses it |
| `EvalCapture.FragmentCompiler.EmitExit` | engine/compile.js:308-326 | the loop emits the copy-out of every capture between saving and restoring the completion value |
| `EvalCapture.CopiesAll` | engine/compile.js:243-275 | after copy-in every capture has its value, a new box with the value, or the caller's box; the caller's frame and boxes are as before, on each target's register aliasing |
| `EvalCapture.EventsRefine` | engine/compile.js:228-326 | every read by the fragment or a closure sees the latest write by any of them |
| `EvalCapture.CopiesOut` | engine/compile.js:308-326 | copy-out writes exactly the captures that are not shared |
| `EvalCapture.EvalIsTransparent` | engine/compile.js:228-326 | main theorem, over the captures as the caller describes them: for every layout and every run of accesses, through a box exactly where the names so marked say, direct eval behaves as if fragment, its closures and the caller's shared one cell per variable; boxes stay in their slots and the completion value comes through |
| `EvalCapture.LateWrites` | engine/compile.js:225-226 | after an eval, a closure of the fragment that outlives it and writes a boxed variable through the box it was given is seen by the caller if and only if the caller had boxed it |
| `EvalCapture.BoxedByInnerClosure` | engine/compile.js:152-175 | the parsed fragment's block scopes are renamed (`compiler/index.js:1237`), then the walk returns exactly the captured names it finds; if the program is clear, every access that a closure of the program as written makes to a name not overlooked is one `EvalIsTransparent` covers, and a name returned without being over-reported, and not declared by the program, is used by a closure |
| `EvalCapture.WalkIsEnough` | engine/compile.js:152-175 | which joins the walk over the renamed program to the closures of the program as written, name by name |
| `ClosureNames.CollectLocals` | lang/analysis/closure.js:87-160 | the loops collect what is declared by plain names in all blocks of a function, but not behind a label nor in nested functions |
| `ClosureNames.CollectReferenced` | lang/analysis/closure.js:163-203 | the identifiers outside nested functions, labels and declared names among them |
| `ClosureNames.CollectOwn` | lang/analysis/closure.js:44-67 | what a function mentions in body, parameters and default values; all its parameters, and those that are plain identifiers |
| `ClosureNames.CollectNested` | lang/analysis/closure.js:206-262 | what nested functions mention without declaring it in the walk's sight, at any depth; of their parameters only plain identifiers count as declared |
| `ClosureNames.AnalyzeCaptured` | lang/analysis/closure.js:44-84 | the outer names, built-ins and those every object inherits excepted, that a function mentions at any depth without declaring them in the walk's sight |
| `ClosureNames.Visit` | engine/compile.js:154-172 | the names so found for the outermost functions of a program |
| `ClosureNames.NothingMissed` | lang/analysis/closure.js:206-262 | if no function is overlooked, every name that is free in a closure is found |
| `ClosureNames.NothingElse` | lang/analysis/closure.js:206-262 | if nothing is over-reported, every name found is free in a closure |
| `ClosureNames.WalkIsExact` | lang/analysis/closure.js:206-262 | the analysis is right about every function of a program if and only if none is overlooked (uses the name while declaring it, or in nothing but functions within default values) and none over-reported (what binds the name is a parameter with a default or in a pattern, its own name, or behind a label, or the name is but a label) |
| `ClosureNames.CapturedIsExact` | lang/analysis/closure.js:44-84 | at an outermost function the same, except that all its parameters are in sight |
| `ClosureNames.ClosuresFound` | engine/compile.js:152-175 | what the whole walk finds, by the same two conditions |
| `ClosureNames.OnlyInDefaults` | lang/analysis/closure.js:60-67 | after the renaming of block scopes a name is overlooked if and only if it is used in default values only: while the body declares it, or in nothing but functions there |
| `ClosureNames.DefaultedIsReported` | lang/analysis/closure.js:211-218 | false in general: the parameter of `() => function (x = v) { x }` is reported, ... |
| `ClosureNames.LabelHides` | lang/analysis/closure.js:120-159 | ... so is the variable of `() => { l: { var x; x } }`, ... |
| `ClosureNames.DefaultHides` | lang/analysis/closure.js:60-67 | ... while the x that only a function within a default value uses is overlooked, ... |
| `ClosureNames.BodyHides` | lang/analysis/closure.js:53-54 | ... and so is that of `(a = x) => { var x; }` |
| `BlockScope.NewNameReads` | lang/analysis/blockscope.js:28-31 | a new name determines the old one and the number, so that no two names given are the same |
| `BlockScope.Renamer.NewName` | lang/analysis/blockscope.js:28-31 | counts up and gives the next name |
| `BlockScope.Renamer.Lookup` | lang/analysis/blockscope.js:51-57 | the search finds the innermost scope that has the name |
| `BlockScope.CollectHoisted` | lang/analysis/blockscope.js:143-210 | the names declared in a whole function are entered as names that stay |
| `BlockScope.Renamer.Prescan` | lang/analysis/blockscope.js:217-240 | a block's frame has its functions under their names and its let, const and catch names under new ones, the same for the same name; `__proto__` is left out |
| `BlockScope.Renamer.WalkBlock` | lang/analysis/blockscope.js:269-275 | a block becomes its renamed form under what names stand for outside, the scopes are as before, and its new names are numbered from here on |
| `BlockScope.Renamer.WalkFunction` | lang/analysis/blockscope.js:367-396 | so does a function, whose own names and top-level declarations stay; in no function reached does an inner block declare what stands outside it |
| `BlockScope.Renamer.Walk` | lang/analysis/blockscope.js:418-516 | so does every statement and expression; default values in patterns are not entered |
| `BlockScope.RenameBlockScopedBindings` | lang/analysis/blockscope.js:522-532 | the whole program |
| `BlockScope.BodyIsSeparate` | lang/analysis/blockscope.js:3-8 | a body whose inner blocks get their names later than everything around it uses none of these names outside its block |
| `BlockScope.RenamingKeeps` | lang/analysis/blockscope.js:418-516 | main theorem, for every tree and scope: every identifier refers to the same declaration after the renaming if and only if no default value in a pattern uses a name that a block around it declares and no var declares one |
| `BlockScope.ProgramKeeps` | lang/analysis/blockscope.js:522-532 | the same for whole programs |
| `BlockScope.UsesKept` | lang/analysis/blockscope.js:3-8 | then the free names of the program and those its closures use are as before |
| `BlockScope.ReachedOnlyInDefaults` | lang/analysis/closure.js:60-67 | in the functions the renaming gets to, exactly the names used in default values only are overlooked as said in `OnlyInDefaults` |
| `BlockScope.CaughtIsMissed` | lang/analysis/blockscope.js:244-263 | false in general: after `catch (x) { var x = v; }` the value has gone to another variable, ... |
| `BlockScope.PatternIsMissed` | lang/analysis/blockscope.js:68-84 | ... and the default value in `{ let y; let {a = y} = o; }` refers to nothing declared |
| `BlockScope.PatternHides` | lang/analysis/blockscope.js:68-84 | a block in such a default value keeps its name, and a closure there that uses the outer x is overlooked |
| `Binding.FreeGoesAlong` | lang/analysis/blockscope.js:3-8 | trees whose identifiers refer to the same declarations have the same free variables |
| `Binding.UseGoesAlong` | lang/analysis/blockscope.js:3-8 | and their closures use the same |
| `Binding.OneTree` | lang/analysis/blockscope.js:68-84 | a tree left as it is refers to the same in two environments if and only if these agree on what is free in it |
| `ArArchive.SizeReads` | binary/macho_object.js:436 | the member's size, printed in decimal and padded, reads back |
| `ArArchive.TrimBlanks` | binary/static_linker.js:119-120 | padding behind a name or number does not change what trimming leaves |
| `ArArchive.BsdRead` | binary/static_linker.js:127-140 | a name of the form #1/N never comes back: the data gets shorter or the member is dropped |
| `ArArchive.ItemRead` | binary/static_linker.js:114-173 | of one written member the reader makes at most one, goes on exactly behind it, and gives it back if and only if name and data are readable, as long as there has been no name table |
| `ArArchive.ArchiveReadsBack` | binary/macho_object.js:419-456 | an archive reads back as the members written into it, in order, if and only if every member has data and an ordinary name |
| `ArArchive.ParseArArchive` | binary/static_linker.js:102-177 | the reading loop, with BSD and GNU names, on every file; what it makes of archives written by GNU and BSD ar is in `ArFormats` |
| `ArArchive.ChunkRead` | binary/static_linker.js:114-173 | a member with any header name, date, owner and mode, at an even place in any file: the reader takes header and body as written and goes on behind the padding |
| `ArFormats.Gathers` | binary/static_linker.js:107-176 | of any sequence of stored members, behind anything, the reader gives what each of them says, in order, up to one it stops at |
| `ArFormats.GatheredAre` | binary/static_linker.js:107-176 | which is a given list of members if and only if each of them says just its member |
| `ArFormats.ShortSays` | binary/static_linker.js:162-170 | GNU names of up to 15 characters, `name/`: which of them come back, if and only if |
| `ArFormats.LongSays` | binary/static_linker.js:149-160 | longer ones, `/offset` into the `//` table: likewise, wherever in the table the name is |
| `ArFormats.GnuReadsBack` | binary/static_linker.js:102-177 | an archive of GNU ar, with or without symbol table `/` and name table `//`, for all names, data and headers: gives back exactly its files, in order, if and only if each has data and a name that comes back |
| `ArFormats.AheadKept` | binary/static_linker.js:125-140 | a BSD name `#1/N` in front of the data, padded with NULs, comes back if and only if it is ordinary and without NUL, also with no data behind it |
| `ArFormats.InHeaderKept` | binary/static_linker.js:114-170 | a BSD name in the header comes back if and only if it is ordinary and the member has data |
| `ArFormats.SymbolTableSays` | binary/static_linker.js:166-170 | `__.SYMDEF` and `__.SYMDEF SORTED`, in the header or in front of the data, are no members |
| `ArFormats.BsdReadsBack` | binary/static_linker.js:102-177 | an archive of BSD ar with its symbol table gives back exactly its files, in order, if and only if every name comes back, and where the name is in the header there is data |
| `ArFormats.BsdReadsBackPlain` | binary/static_linker.js:102-177 | likewise without symbol table |
| `ArArchive.ArArchiveGenerator.Generate` | binary/macho_object.js:419-456 | the writing loops produce magic and entries of the members added |
| `CoffObject.ReadsLong` | binary/static_linker.js:597-606 | a name stored in the string table reads back |
| `CoffObject.SymbolReads` | binary/static_linker.js:612-655 | a written symbol, short or long named, is kept if and only if it is external and in the text section, with its value |
| `CoffObject.SymbolsRead` | binary/static_linker.js:608-655 | the symbol loop reads the whole table |
| `CoffObject.TableMeans` | binary/coff_object.js:244-363 | the table's defined symbols are exactly the exported labels, the user's and the wrappers, and _main, each once, with their offsets; undefined names never take the place of a defined one |
| `CoffObject.SectionsRead` | binary/static_linker.js:534-579 | the section headers read back, with or without data |
| `CoffObject.PartsAt` | binary/coff_object.js:106-211 | every part of the file is where the header and the section headers say |
| `CoffObject.ObjectReadsBack` | binary/coff_object.js:106-211 | round trip: the reader gives back code, data, and exactly the exported labels and _main with their offsets, with any undefined symbols and relocations besides |
| `CoffObject.RelocationReads` | binary/coff_object.js:366-379 | entry i of the written relocation table is the i-th relocation of a known symbol: its offset, the number of the entry that has its symbol's name, and the type REL32; the code section's header says where the table is and how long |
| `CoffObject.COFFObjectGenerator.BuildSymbolTable` | binary/coff_object.js:244-363 | the loops build that table |
| `CoffObject.COFFObjectGenerator.Generate` | binary/coff_object.js:106-211 | the writing calls produce that file on an empty buffer |
| `CoffObject.ParseCoffObject` | binary/static_linker.js:519-664 | the reading loops, auxiliary symbols included, on every file |
| `CoffFiles.ForeignReads` | binary/static_linker.js:519-664 | of every AMD64 object file, described by the PE/COFF format, with any optional header, sections, auxiliary records and other symbols: the reader takes the contents of the last text and the last data section and exactly the external symbols of these two, short and long names alike, of two with one name the later one |
| `CoffFiles.EntryReads` | binary/static_linker.js:612-660 | one symbol record and its auxiliary records: kept if and only if it is external and in one of the two sections |
| `CoffFiles.OtherMachine` | binary/static_linker.js:529-532 | a file is refused if and only if it is for another machine |
| `CoffFiles.WrittenIsObject` | binary/coff_object.js:106-211 | what the writer makes is such a file, with the code and the data as its sections and the table's symbols |
| `StaticLink.StaticLinker.GetLinkedCode` | binary/static_linker.js:457-494 | code and data are the libraries' one behind the other, and each name is at its place in the last library that has it |
| `StaticLink.SymbolsLead` | binary/static_linker.js:464-474 | a symbol leads to the byte of code or data it named, provided no later library has its name |
| `StaticLink.ObjectsLink` | binary/static_linker.js:457-494 | from code and labels to linked code: if the k-th of the linked objects is what the reader makes of a written file, an exported label leads to the byte it marked, unless a later object has the name |
| `StaticLink.ForeignLinks` | binary/static_linker.js:457-494 | from any object file to linked code and data: an external symbol of its text or data section leads to the byte of the file it named, unless a later object has the name |

## Left out

- Exactness.PromotionIsExact: stated for plans that borrow no V register; for the others `Liveness.FlowIsFaithful` gives one direction, as a register read after it has been borrowed may hold the right value by chance (`Liveness.DisciplineIsNotNeeded`).
- Windows.Emitter.StoreElsewhere: a store through another base is taken to emit at least one instruction.
- Wasm32Asm.Wasm32Assembler.FixupAll: patches whole tokens; `Wasm32Bytes` lays the same tokens out as bytes and joins the two. The bytes of instructions without an open number are a parameter there.
- WasmWriter.Generate: the sections around the code, which are constant tables, are not part of the model; labels and segment size together stay below 2^31.
- Segments.CallComesBack: that a return register holds what the link wrote is a premise on the meaning of registers.
- X64Lowering.LoweringExactly: SP as an operand is not modelled, nor that S5's cell moves with FP when FP is the destination.
- FrameMemory.DecideWithAddresses: the frame is reached by slots of eight bytes; pushed entries cannot be reached through addresses.
- Windows.Emitter.Load: the scratch register X16, which the address of a far slot goes through, is not part of the states compared.
- FragmentLinker.LinkFragment: symbol ids, labels, string contents and the constant data (on x64 laid out by `engine/compile.js:354-361`) are tables given to the linker; on x64 a fragment is shorter than 2 GB.
- EvalCapture.EvalIsTransparent: the names of a layout are distinct; accesses are events on variables; that the compiled body and its closures make these accesses is a premise. Exit by an exception, which skips copy-out, is not modelled.
- ClosureNames.WalkIsExact: classes, imports and exports are not part of the syntax.
- BlockScope.RenameBlockScopedBindings: makes a new tree, while the source changes names in place; the marks for uses before the declaration are not modelled, nor computed keys in the patterns of for-of. Names of the program do not have the form name$blk$number, which the source leaves to chance (`lang/analysis/blockscope.js:19-20`), and no block declares a name both as a function and by let or const, an early error of the language.
- EvalCapture.BoxedByInnerClosure: events are those of the program as written and are covered if it is clear and the name not overlooked; what happens otherwise is in the examples of `ClosureNames` and `BlockScope`.
- ExportGraph.ResolveExactly: parsing of exports and imports into tables, and `export *` expansion, are given.
- ModuleGraph.OrderModules: resolution of paths and reading of files are given as a graph; files that do not exist do not occur in it.
- Recorder.VirtualMachine.EndRecord: the four parallel operand arrays are one array of ops, and the flat list of rewritten positions one list of pairs; ops of one shape are one constructor with the op number.
- Promotion.StepSimulates: accesses through SP, on which the recorder gives up, count as faults; on x64 the scratch use of R10 and R11 inside single ops is not modelled, nor that wasm32 refuses a `prepareCall` with more than six operands.
- `f2i`, `fcvtd2s` and `fcvts2d`, which bypass the recorder, and raw assembler calls in the middle of a record.
- The switch that turns recording off (`vm/index.js:134`) and that which sets the segment size (`asm/wasm32.js:54-57`), which is a parameter.
- Data labels, string interning and label prefixes of the wasm assembler; code addresses taken by `lea`.
- `if`/`end` inside the lowering of wasm division, which is one step of register work.
- ELF and Mach-O objects: other constants and field widths around the same structure as COFF.
- ArFormats.GnuReadsBack: thin archives and the 64-bit symbol table `/SYM64/`.
- CoffFiles.ForeignReads: sections and symbol table are whole in the file; JavaScript's property name `__proto__` is no symbol.
- CoffObject.ObjectReadsBack: files below 2^32 bytes, labels without NUL.
- ArArchive.ArchiveReadsBack: members below 10^10 bytes, names as bytes.
- The parser, code generation from syntax trees, the runtime library and the garbage collector.
- Floating point, bit patterns of instructions other than those relocation patches, and executable headers.
