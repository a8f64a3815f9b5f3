# Drob: a verified model

Drob decodes a function of x86-64 machine code into a control flow graph of superblocks, analyses it, rewrites it and
writes new machine code. This project is a Dafny model of that optimizing compiler and proves that its analyses are
sound, that its passes preserve what the code does, and that layout and encoding are exact.

`dafny verify dfyconfig.toml` checks everything.

## How it is built

A graph runs (`Machine`): instructions are opaque, with a predicate and a transformer on machine states and the register
masks the analyses use. Two systems are compared (`Simulation`) by what they execute, in which states, and how they end,
over runs of every length and in both directions.

| modules | what they are about |
|---|---|
| `Liveness`, `LivenessPass`, `DeadWrite`, `DeadWritePass` | strong liveness as a worklist, its least solution and termination; dead write elimination |
| `ProgramState`, `Precision`, `StateRuns`, `MergeElements`, `MergeLeast`, `ElementArrays`, `StackState`, `StateJoin`, `StateLeast`, `ProgramStateMerge`, `JoinTermination`, `EndlessAnalysis` | the byte domain of immediates, pointers with tails and taint: specification, loops over arrays, join, two-sided stack, the join of whole states and the analysis with it, when it ends |
| `StackAnalysis`, `Generated`, `StackAnalysisPass`, `Predicates`, `DeadCode`, `Cleaned`, `DeadCodePass`, `DeadRegisters`, `BranchKills` | the forward worklist over any sound domain, predictions of predicates, dead code elimination, registers marked dead when liveness says so |
| `Surgery`, `Unrolling`, `UnrollShape`, `Ir`, `IrOps`, `IrSplit`, `FunctionIr`, `IrGraph`, `IrLoops`, `UnrollingPass`, `BlockLayout`, `FirstExecuted`, `LayoutEntry`, `LayoutEnds`, `LayoutChains`, `BlockLayoutPass`, `ClosedChain` | rewrites of graphs, the same on blocks with edge lists and links changed in place, loop unrolling and block layout on top |
| `Emission`, `Chains`, `Traversal`, `CodeLayout`, `BranchCode`, `Padding`, `CodeGenerationPass`, `TightLayout`, `LinearCode`, `LayoutEmission` | order of emission and when its traversal ends, two-pass layout with short branches and alignment, bytes in memory and a machine that reads them, block layout and code generation together |
| `Encoder`, `ModRMEncoding`, `BinaryPool`, `Division` | memory operands as bytes and back, the pool of code and constants |
| `Reconstruction`, `DecodedRuns`, `ICFGReconstructionPass` | decoding with splitting of blocks, against a processor that reads memory |
| `DynamicValues`, `BestValues`, `MemoryOperandOptimizationPass`, `Specialize` | arithmetic on described values, folding of memory operands, 64-bit specialization |

A thrown exception or failed assertion of the program is a failure result, and properties read "if it does not fail".

## Where the code does something else than it seems meant to

The model does what the code does. What follows from that is proved with an input that shows it and the exact condition
under which the intended property holds.

- Three-valued "and" keeps True when the other side is Unknown (`src/Utils.hpp:45-52`): `Predicates.BranchPredictionSoundIff`
  says which conditions are predicted wrongly.
- Marking bytes unknown clears tails from the start of the range, not from the head that was found
  (`src/ProgramState.cpp:183`): `ProgramState.SetExact`, `ProgramState.OrphansLeft`, `MergeElements.StoreHidesTails`.
- Marking that begins with a tail takes the first byte in front that is no tail for its head. If that is a tainted byte,
  it becomes Unknown and its taint is lost (`src/ProgramState.cpp:163-177`): `ProgramState.TaintGetsLost` is a run that
  gets there, `ProgramState.SetSoundIff` and `ProgramState.MoveSoundIff` are the exact condition, and by
  `StateRuns.RunValues` values are not affected.
- Within one array the copy loop reads bytes it has already written if the destination begins inside the source range
  (`src/ProgramState.cpp:355-425`): `ProgramState.SoundWithinIff`.
- A join leaves equal tails under differing heads (`src/ProgramState.cpp:694-710`): `MergeElements.MergeWellFormedIff`,
  `MergeElements.JoinHidesTails`.
- A join turns Unknown into Dead unreported and Dead into Unknown reported (`src/ProgramState.cpp:711-740`):
  `EndlessAnalysis.AnalysisNeverEnds`. `StateJoin.StateReportIff` says exactly what is reported besides a loss of rank, and
  `StateJoin.RankedJoinDescends` that without those reports the analysis ends and is still sound.
- The registers alive behind a branch leave out those alive at its target only
  (`src/passes/LivenessAnalysisPass.hpp:210-240`), and an operand not alive behind an instruction is marked dead before the
  state is handed to the target (`src/passes/StackAnalysisPass.hpp:254-315`): `BranchKills.AliveFlagLost` is a function on
  which a tainted register is lost so, `DeadRegisters.UntrackedIff` and `DeadRegisters.KillStandsIff` are the exact condition.
- The liveness analysis starts from returning blocks only (`src/passes/LivenessAnalysisPass.hpp:390-397`):
  `DeadWritePass.SafeIffCovered`, `DeadWritePass.EndlessLoopBreaks`.
- A block may be merged into the entry block (`src/Function.cpp:105-187`): `BlockLayoutPass.EntryMergeBreaks` is a loop
  on which the layout pass does so, and `BlockLayoutPass.BlockLayoutOptimization.Run` and `LayoutEntry.LayoutKeepsIff` are
  the exact condition.
- A chain may be closed on itself (`src/passes/BlockLayoutOptimizationPass.hpp:68-78`): runs are still the same
  (`Surgery.ChainPreserves`), but the depth-first traversal goes round for ever (`src/Function.hpp:161-189`).
  `ClosedChain.LayoutNeverTraversed` is a loop on which it does, `LayoutChains.LayoutEndsIff` the exact condition on the
  function before the pass, `Traversal.TraversalEndsIff` that on the graph traversed, and `LayoutEmission.LayOutAndEmit`
  is layout and code generation together when it is met.
- A chain may be entered in its middle (`src/Function.hpp:157-192`): `Emission.MiddleFirstBreaks` is a graph on which it
  is, and `Emission.BehindIff` the exact condition on the graph.
- A forward branch short in the first pass may not fit in the second (`src/passes/CodeGenerationPass.hpp:99-126`):
  `TightLayout.TightFails`, and the reasons for failure in `CodeGenerationPass.Generate`.
- Page pointers of the pool step by one byte (`src/BinaryPool.cpp:63`, `src/BinaryPool.cpp:153`): the pool of the model
  takes the step as a parameter, 1 or a page, and `BinaryPool.Pool.AllocCode` says what each of them can serve.
- Index register 4, base 12 without index, and fixed addresses out of reach are encoded as something else
  (`src/x86/Encoder.cpp:479-646`): `Encoder.IndirectRoundTripIff`, `Encoder.DirectRoundTripIff`; and folding leads there
  (`MemoryOperandOptimizationPass.FoldMisencodesIff`).

## Model

| member | source | states |
|---|---|---|
| Liveness.InstrMonotone | src/passes/LivenessAnalysisPass.hpp:142-263 | more registers alive behind an instruction or at its branch target never means fewer alive before it, whichever of the live, dead, conditional and branching cases applies |
| Liveness.BlockMonotone | src/passes/LivenessAnalysisPass.hpp:269-361 | the live_in a block computes grows with the live_in of its successors |
| Liveness.SolvedExplains | src/passes/LivenessAnalysisPass.hpp:185-263 | a solution of the equations says of every register before every instruction why it is alive: read by the predicate, read by an instruction that matters, handed on by it, or alive behind and not sure to be written |
| LivenessPass.LivenessAnalysis.ProcessInstruction | src/passes/LivenessAnalysisPass.hpp:142-263 | an instruction keeps liveness data if and only if it is about control, may write memory, or writes a register alive behind it; what is alive before it is then, register by register, what it needs and what survives it, and otherwise what is alive behind |
| LivenessPass.LivenessAnalysis.ProcessInstructions | src/passes/LivenessAnalysisPass.hpp:300-333 | the loop over a block leaves every instruction with the data the equations give it, and computes the live_in of the block |
| LivenessPass.LivenessAnalysis.PropagateBackwards | src/passes/LivenessAnalysisPass.hpp:335-361 | exactly the predecessors that see a changed live_in, or are invalid, get queued, none twice |
| LivenessPass.LivenessAnalysis.ProcessBlock | src/passes/LivenessAnalysisPass.hpp:269-361 | one turn, the case of a next block that has no data yet included; whoever calls it has the block invalid, so the assertion on being queued twice holds |
| LivenessPass.AnalysisKeepsSolved | src/passes/LivenessAnalysisPass.hpp:269-361 | recomputing one block leaves every other valid block a solution of its own equations |
| LivenessPass.AnalysisKeepsLeast | src/passes/LivenessAnalysisPass.hpp:269-361 | the data stay below every solution of the equations, so the result is the least one |
| LivenessPass.ProcessedKeepsInv | src/passes/LivenessAnalysisPass.hpp:269-410 | the worklist invariant is kept by every turn: queued means in the queue exactly once and not valid; invalid blocks with data are queued or wait for their next block |
| LivenessPass.AnalysisDescends | src/passes/LivenessAnalysisPass.hpp:269-410 | every turn that computes lowers the termination measure: registers not yet alive, blocks without data, invalid blocks, distance of the queued blocks from the ends of their chains |
| LivenessPass.WaitDescends | src/passes/LivenessAnalysisPass.hpp:281-288 | so does a turn that only queues the next block |
| LivenessPass.QueueEmpty | src/passes/LivenessAnalysisPass.hpp:367-410 | when the queue is empty no block is left waiting: the analysed blocks are valid and are closed under predecessors of returning blocks |
| LivenessPass.LivenessAnalysis.HandleFunction | src/passes/LivenessAnalysisPass.hpp:367-410 | the worklist always ends; the analysed blocks are the smallest set containing the returning blocks and the predecessors of its members, their data are the least solution of the liveness equations, spelled out register by register, and exactly the instructions that matter behind them carry data, and none of blocks never analysed |
| DeadWrite.DeadInstrInvisible | src/passes/LivenessAnalysisPass.hpp:142-200 | a dead instruction changes neither memory, nor control flow, nor any register alive behind it |
| DeadWrite.DeadIffInvisible | src/passes/LivenessAnalysisPass.hpp:185-203 | an instruction that may execute is dead if and only if nothing that its masks allow it to do is seen in memory or in a register alive behind it |
| DeadWrite.NeededInstrAgrees | src/passes/LivenessAnalysisPass.hpp:142-263 | an instruction that is not dead, run in two states that agree on the registers alive before it, decides, stores and leaves the same, and they agree on those alive behind it |
| DeadWrite.ForwardSimulation | src/passes/DeadWriteEliminationPass.hpp:41-80 | every run of the original, of any length, through analysed blocks has exactly the events of the rest run without the removed instructions |
| DeadWrite.EveryStepOriginates | src/passes/DeadWriteEliminationPass.hpp:41-80 | and every run of the result is what remains of a run of the original, so the result does not run ahead |
| DeadWritePass.EliminationPreserves | src/passes/DeadWriteEliminationPass.hpp:41-80 | elimination preserves branch decisions, memory writes and the values of all registers a caller reads, even when dead instructions feed dead instructions only |
| DeadWritePass.SafeIffCovered | src/passes/LivenessAnalysisPass.hpp:390-397 | elimination is safe for a run if and only if the run never enters a block that the analysis, which starts from the returning blocks, did not reach |
| DeadWritePass.ReturningIsCovered | src/passes/LivenessAnalysisPass.hpp:390-410 | blocks from which a return can be reached are all analysed |
| DeadWritePass.DeadWriteElimination.Collect | src/passes/DeadWriteEliminationPass.hpp:65-80 | exactly the instructions without liveness data are collected, each once, with the block they are in |
| DeadWritePass.DeadWriteElimination.RemoveInstruction | src/SuperBlock.cpp:50-72 | the instruction is found and erased, the order of the others stays; it is an error if it is not there |
| DeadWritePass.DeadWriteElimination.Run | src/passes/DeadWriteEliminationPass.hpp:41-57 | deleting one by one leaves of each block exactly the instructions with liveness data, in order |
| DeadWritePass.EliminateDeadWrites | src/passes/DeadWriteEliminationPass.hpp:41-80 | analysis and elimination together, on a graph all of whose blocks lead to a return: what is left are exactly the instructions about control, that may write memory or write a register alive behind them, by the least solution, and every run from every block is preserved, in both directions |
| DeadWritePass.EndlessLoopBreaks | src/passes/LivenessAnalysisPass.hpp:390-397 | the condition is needed: for a function with an endless loop, every outcome of the analysis lets the elimination break the loop |
| ProgramState.MarkMeaning | src/ProgramState.cpp:154-212 | for any elements whose pointers have their tails, headless tails or not: exactly when marking a range of bytes unknown throws, and what is left if it does not: no pointer reaches into the range, pointers elsewhere are whole, and of all bytes but the first only one, a tainted byte taken for a head, can say anything else than before or less |
| ProgramState.SetSound | src/ProgramState.cpp:214-247 | storing a value leaves a state that describes the bytes the machine now has, unless a byte lost a taint that it carried |
| ProgramState.SetSoundIff | src/ProgramState.cpp:154-247 | a store is sound for all bytes the state may stand for if and only if it does not begin with a tail whose first byte in front that is no tail is tainted |
| ProgramState.SetTaint | src/ProgramState.cpp:154-247 | outside the range a store makes no other byte lose or gain that it is stack-derived |
| Precision.SetKeeps | src/ProgramState.cpp:154-247 | outside the range a byte that is no tail stays as it is and a pointer stays whole, but for what is right in front of a range that begins with a tail |
| ProgramState.TaintGetsLost | src/ProgramState.cpp:163-177 | two stores into a well-formed state that do not throw, after which a byte derived from the stack pointer is read as Unknown |
| ProgramState.ThrowsIffHeadInside | src/ProgramState.cpp:154-191 | in a well-formed state marking throws if and only if a pointer begins inside the range behind its first byte and before its last |
| ProgramState.SetExact | src/ProgramState.cpp:154-247 | exactly when a store throws; heads keep their tails in any case; and exactly when tails keep their heads: not when the last byte of the range was a head |
| ProgramState.OrphansLeft | src/ProgramState.cpp:183-183 | a store whose last byte falls on a head leaves tails without a head |
| ProgramState.GetSound | src/ProgramState.cpp:249-353 | the value that is read describes every concrete sequence of bytes the elements describe, unless headless tails are hidden behind an immediate |
| Precision.StoredIsRead | src/ProgramState.cpp:214-353 | what is stored is read back from its place: a pointer with its offset, a number up to the size stored, a plain type |
| Precision.GetWhole | src/ProgramState.cpp:249-353 | eight bytes from a head on are read as that pointer, immediates as their number, bytes of one plain type as that type |
| Precision.GetFailsIff | src/ProgramState.cpp:316-345 | a read fails if and only if it is an immediate followed by immediates and tails, of a size there is no number of |
| ProgramState.GetTaint | src/ProgramState.cpp:249-353 | a read gives StackPtr or Tainted exactly if a byte of the range is stack-derived |
| ProgramState.GetSoundIff | src/ProgramState.cpp:249-353 | a read is sound for everything the state may stand for if and only if no tails without a head are hidden in its range |
| ProgramState.WellFormedHidesNothing | src/ProgramState.cpp:249-353 | a state whose tails all have heads hides nothing, so its reads are sound |
| ProgramState.MoveSound | src/ProgramState.cpp:355-425 | moving bytes between two states, or within one, describes the bytes the machine then has, unless a byte lost a taint that it carried or the loop within one state reads what it has written |
| Precision.MoveArrives | src/ProgramState.cpp:355-425 | immediates, dead bytes and complete pointers arrive as they are where the range came from |
| Precision.MoveKeeps | src/ProgramState.cpp:355-425 | outside the range a move keeps what a store does |
| ProgramState.MoveSoundIff | src/ProgramState.cpp:355-425 | a move is sound for everything both states may stand for under the same condition as a store, on the destination |
| ProgramState.SoundWithinIff | src/ProgramState.cpp:355-425 | moves within one array are sound for every state if and only if the destination does not begin inside the source range behind its start |
| ProgramState.MoveExact | src/ProgramState.cpp:355-425 | exactly when a move throws, between two states or within one, overlapping in either direction included; heads keep their tails, and tails their heads unless the last byte of the range was a head |
| StateRuns.RunSound | src/ProgramState.cpp:154-425 | over any sequence of stores, moves and joins that does not throw, moves no bytes onto ones still to be read, and takes no taint from a byte that carries it: the states describe the bytes of the machine |
| StateRuns.RunKeepsHeads | src/ProgramState.cpp:154-744 | over any sequence of stores, moves and joins that does not throw every pointer head keeps its seven tails |
| StateRuns.RunReads | src/ProgramState.cpp:249-353 | after such a run a read is sound for everything the state may stand for if and only if no tails are hidden in its range, and a read that touches a byte derived from the stack pointer gives StackPtr or Tainted in any case |
| StateRuns.RunValues | src/ProgramState.cpp:154-744 | the values of the bytes hold after the run whatever taint was lost on the way |
| ElementArrays.MarkUnknown | src/ProgramState.cpp:154-191 | the loop over the array has the specified effect, and fails where the code throws |
| ElementArrays.StoreElements | src/ProgramState.cpp:214-247 | storing in place is SetElements on the contents of the array, conditional stores included |
| ElementArrays.LoadElements | src/ProgramState.cpp:249-353 | the counting loop, which skips the tails of pointers, computes the specified value |
| ElementArrays.MoveBytes | src/ProgramState.cpp:355-425 | copying in place is MoveElements, and throws when that does; between two arrays or within one, whatever the ranges |
| ElementArrays.MergeArrays | src/ProgramState.cpp:681-744 | the merge loop over both arrays computes the join and the report of a change; the result stands for all that either side did, and whatever else does stands for all that it does |
| MergeElements.MergeJoins | src/ProgramState.cpp:681-744 | the joined state describes every concrete state that either side described |
| MergeLeast.MergeLeast | src/ProgramState.cpp:681-744 | and nothing is forgotten that both sides know: any elements that describe all that either side does describe all that the join does, values and taint |
| MergeLeast.MergeKeepsAgreed | src/ProgramState.cpp:690-710 | the same immediate on both sides stays, and so does the same pointer, whole |
| MergeLeast.MergeItself | src/ProgramState.cpp:681-744 | joining a state to itself changes nothing and reports nothing |
| MergeElements.MergeTaint | src/ProgramState.cpp:681-744 | a byte is stack-derived after the join exactly when it was on one of the sides |
| MergeElements.MergeReports | src/ProgramState.cpp:681-744 | no byte says more than before; a change is reported exactly if some byte says less or a dead byte became unknown; without a report the left side is the same up to Unknown turned Dead |
| MergeElements.MergeWellFormedIff | src/ProgramState.cpp:694-710 | the join of two well-formed states is well formed if and only if wherever both have equal tails they have heads of one kind there |
| MergeElements.StoreHidesTails | src/ProgramState.cpp:183-183 | a store on the head of a user pointer makes eight bytes read as one immediate although seven of them can be anything |
| MergeElements.JoinHidesTails | src/ProgramState.cpp:694-710 | so does a store after the join of a user pointer with a return pointer |
| StackState.WindowWellFormed | src/ProgramState.cpp:499-534 | growing the array on either side with dead bytes leaves every pointer with its tails and every tail with its head |
| StackState.Stack.Grow | src/ProgramState.cpp:499-534 | the requested range becomes indexable, and no byte at any signed stack offset changes |
| StackState.Stack.SetStack | src/ProgramState.cpp:536-551 | a store at a stack offset changes the map from offsets to bytes as SetElements does on the grown array, and does nothing to a dead stack |
| StackState.Stack.GetStack | src/ProgramState.cpp:553-569 | a load at a stack offset reads that map, untouched bytes as Dead, and gives Tainted from a dead stack |
| StackState.Stack.MergeStack | src/ProgramState.cpp:746-783 | after both have grown to one base and size, equal indexes are equal offsets, and the join is the join byte by byte; a dead stack absorbs |
| StateJoin.JoinStands | src/ProgramState.cpp:746-783 | joining all register arrays and both stacks gives a state that stands for every machine state that either side stood for |
| StateLeast.JoinLeast | src/ProgramState.cpp:746-783 | whatever state stands for all machine states that either side does stands for all that their join does, whatever range its stack has |
| StateLeast.JoinSelf | src/ProgramState.cpp:746-783 | joining a whole state to itself changes nothing and reports nothing |
| StateJoin.FrameReportIff | src/ProgramState.cpp:746-783 | a join of stacks, grown to one window, reports a change exactly if the rank over a range around both has fallen or a dead byte, touched or not, became unknown |
| StateJoin.StateReportIff | src/ProgramState.cpp:746-783 | likewise for whole states, registers, stack and dead stack; and no join raises the rank |
| StateJoin.CodeJoinSound | src/ProgramState.cpp:681-783 | the join of the code with its own report is sound, whichever registers are tracked where: it stands for both sides, and without a report the left side does already |
| StateJoin.RankedJoinDescends | src/ProgramState.cpp:681-783 | reporting only changes that lower the rank over the registers and a bounded stack range leaves the join sound, whichever registers are tracked, and makes every report lower a measure |
| StateJoin.AnalyzeStates | src/passes/StackAnalysisPass.hpp:145-320 | the worklist of the stack analysis over whole states with that report, taint of registers told only where they are tracked: it ends, in every run from a state the one given stands for every place reached is described and every recorded outcome is right, and no block has a state that nothing brings there |
| DeadRegisters.KillStandsIff | src/passes/StackAnalysisPass.hpp:218-315 | a state with some registers tracked, after others have been marked dead, stands for the same machine state with fewer tracked if and only if none that was marked and is tracked still is tainted |
| DeadRegisters.KillingSound | src/passes/StackAnalysisPass.hpp:218-315 | an emulation sound with these registers tracked stays sound when operands not tracked where control may go on are marked dead after each instruction |
| DeadRegisters.UntrackedIff | src/passes/StackAnalysisPass.hpp:205-315 | with the registers liveness analysis has alive tracked, what the pass marks dead is tracked nowhere control may go on if and only if no branch has an operand that is alive at its target but not behind it |
| DeadRegisters.EliminateDeadCode | src/passes/StackAnalysisPass.hpp:145-320 | liveness analysis, the stack analysis over whole states with operands marked dead as the pass does it, and dead code elimination, stack-derived registers included: what remains is what may be reached and may execute by the finished analysis, and looks the same from the entry in every state the one given stands for |
| BranchKills.AliveFlagLost | src/passes/StackAnalysisPass.hpp:254-310 | the condition is needed: a proper function whose branch is on a flag read again at its target; whatever liveness analysis leaves, the flag is marked dead in what is handed there, and a state that tells its taint stands no more for the machine state |
| ProgramStateMerge.ProgramState.Merge | src/ProgramState.cpp:746-783 | merging in place, the registers one by one and then the stacks, is the join of the values and of the reports, the least state that stands for all that both do; the other state stands for what it stood for though its stack has grown |
| JoinTermination.ReportLowersRankIff | src/ProgramState.cpp:711-740 | with Dead and Unknown ranked alike no join raises the rank, and a reported change lowers it unless the report is only about dead bytes that became unknown |
| EndlessAnalysis.AnalysisNeverEnds | src/ProgramState.cpp:711-740 | with the report as it is the analysis over whole states of a proper two-block loop goes on for ever, whatever the state at entry and whichever registers are tracked, operands marked dead as the pass does it |
| EndlessAnalysis.LoopIsSound | src/ProgramState.cpp:711-740 | that loop is a well-linked function, the register masks say what its instructions read and write, its emulation over whole states and the join are sound, so nothing but the report is to blame |
| EndlessAnalysis.LoopLiveness | src/passes/LivenessAnalysisPass.hpp:269-410 | any result of the liveness analysis keeps all instructions of that loop, and what is dead behind each is what its emulation marks dead |
| EndlessAnalysis.NoRankDescends | src/ProgramState.cpp:711-740 | no rank of whole states at all falls with every change the code reports, whatever the emulation |
| StackAnalysis.TurnKeepsInv | src/passes/StackAnalysisPass.hpp:85-181 | every turn keeps the invariant: a block with a state is queued or has been processed with a state at least as wide |
| StackAnalysis.WalkCovers | src/passes/StackAnalysisPass.hpp:85-143 | processing a block hands on states that cover every way out of it, and stops where an instruction is known not to let control past |
| Generated.ArrivesIff | src/passes/StackAnalysisPass.hpp:85-143 | the state in front of an instruction is the one that arrives there by emulation, past no branch that is sure to be taken |
| Generated.TurnGenerates | src/passes/StackAnalysisPass.hpp:49-143 | every turn gives states only to blocks that a branch that may be taken or a fallthrough leads to, and only ones made by joins from what these bring |
| StackAnalysis.EmptyQueueFinishes | src/passes/StackAnalysisPass.hpp:155-181 | an empty queue means every block with a state has been processed with the state it has |
| StackAnalysis.RunDescribed | src/passes/StackAnalysisPass.hpp:85-320 | every machine state any run comes to is described by the analysis at that place, what it takes to be described being a matter of the place; at the start of a block it is one of those the state recorded at its entry stands for |
| StackAnalysis.AnalysisSound | src/passes/StackAnalysisPass.hpp:49-320 | every machine state that enters a block is one its recorded entry state stands for there, so blocks without a state are never reached; and every recorded outcome (executes always, never) comes true in every run, against the function without the instructions that have no liveness data |
| StackAnalysisPass.StackAnalysisPass.ForwardStateToBlock | src/passes/StackAnalysisPass.hpp:49-83 | a state is attached or joined in; the block is queued again exactly if a change is reported |
| StackAnalysisPass.StackAnalysisPass.ProcessBlock | src/passes/StackAnalysisPass.hpp:85-143 | the loop over a block in place does what the specified walk does, stateless blocks included |
| StackAnalysisPass.StackAnalysisPass.ProcessFunction | src/passes/StackAnalysisPass.hpp:155-181 | if every reported change lowers a rank, as it does for StateJoin.RankedDomain, the worklist ends, finished, with at least the state it was given at the entry; and no block has a state but one made by joins from what open ways out of blocks bring |
| Predicates.PredictionSoundIff | src/Instruction.cpp:693-770 | the prediction for an instruction is right for every register file unless True has been combined with Unknown; in that case a register file proves it wrong |
| Predicates.BranchPredictionSoundIff | src/Utils.hpp:45-61 | which of the sixteen conditions are hit: "above" with carry known clear and zero unknown, and "greater" with zero known clear and one of the other flags unknown; all other predictions are right |
| Predicates.PredictionDecides | src/Instruction.cpp:693-770 | where no outcome is predicted registers can make the predicate come out either way, whatever is known of others |
| Predicates.BranchPredictionDecides | src/Utils.hpp:45-61 | so no branch condition is left open that could be decided |
| Predicates.InvertNegates | src/x86/OpcodeInfo.cpp:730-768 | the inverted condition holds exactly when the condition does not, for all conditions |
| Predicates.WillExecuteLoop | src/Instruction.cpp:693-770 | the loop over comparisons computes the prediction |
| DeadCode.SurvivorStep | src/passes/DeadCodeEliminationPass.hpp:137-177 | an instruction that survives does the same, or, if it has become a jump, goes where it always went |
| DeadCode.RemovedStep | src/passes/DeadCodeEliminationPass.hpp:137-177 | an instruction known never to execute does nothing |
| Cleaned.ShapedLeaves | src/passes/DeadCodeEliminationPass.hpp:58-177 | what is left, said of the function and the recorded outcomes alone: which blocks, which instructions in which order, which branches unconditional, which fallthroughs |
| DeadCode.EliminationEquivalent | src/passes/DeadCodeEliminationPass.hpp:58-177 | for every run from the entry in a state the analysis started with, the result and the function execute the same instructions in the same states, in both directions |
| DeadCodePass.DeadCodeElimination.HandleInstruction | src/passes/DeadCodeEliminationPass.hpp:137-177 | never-executed instructions are collected, always-taken conditional branches are collected and end the block |
| DeadCodePass.DeadCodeElimination.Run | src/passes/DeadCodeEliminationPass.hpp:58-103 | the three loops in their order leave exactly the blocks with an entry state, of each exactly the instructions recorded as ones that may execute, in their order, branches always taken turned into jumps without fallthrough, and unreached blocks taken out of chains and edges |
| DeadCodePass.RemoveChained | src/Function.cpp:61-88 | taking a block out leaves next and prev inverse to each other |
| DeadCodePass.KeptIsEliminated | src/passes/StackAnalysisPass.hpp:218-320 | skipping the instructions without liveness data is running the graph they have been removed from |
| DeadCodePass.DeadCodePreserves | src/passes/DeadCodeEliminationPass.hpp:58-177 | seen from outside, dead write elimination and dead code elimination give the same stores, returns and calls |
| DeadCodePass.EliminateDeadCode | src/passes/DeadCodeEliminationPass.hpp:58-177 | liveness analysis, stack analysis with an emulation sound for whatever liveness analysis keeps, and elimination together: taken out is exactly what the finished analysis says never executes or is never reached, what it says is reached something brings there, and from the entry, in every state the analysis started with, the result looks the same as the function |
| Surgery.SplitPreserves | src/Function.cpp:189-252 | splitting a block changes no run from any block |
| Surgery.MergePreserves | src/Function.cpp:105-187 | merging a block into its successor changes no run from any block but that successor; runs from the merged block start there |
| Surgery.UnchainPreserves | src/SuperBlock.hpp:255-273 | spelling a fallthrough out as a jump changes no run |
| Surgery.ChainPreserves | src/passes/BlockLayoutOptimizationPass.hpp:50-89 | nor does dropping a final jump for a fallthrough, whatever chain it closes |
| Surgery.ChainUnchain | src/SuperBlock.hpp:255-273 | chaining a block takes back what unchaining it did |
| Surgery.CopyPreserves | src/Function.cpp:287-341 | sending the loops of a block that does not fall through by way of a copy changes no run |
| Surgery.InvertPreserves | src/passes/SimpleLoopUnrollingPass.hpp:96-130 | swapping the targets of the branch before a final jump along with inverting its opcode changes no run, when the branch has the condition the opcode table gives it and the jump gets that of the inverted opcode |
| Unrolling.UnrollLoopPreserves | src/passes/SimpleLoopUnrollingPass.hpp:42-132 | split, unchain, and any number of copy, retarget and invert steps together change no run from any block |
| Unrolling.UnrollProper | src/passes/SimpleLoopUnrollingPass.hpp:76-132 | after any number of rounds only the last copy still branches to itself |
| UnrollShape.PreparedIs | src/passes/SimpleLoopUnrollingPass.hpp:42-74 | what split and unchain leave of the block: everything up to its last branch to itself and a jump to the rest, or to where it fell through; other blocks keep their instructions |
| UnrollShape.OnceHands | src/passes/SimpleLoopUnrollingPass.hpp:76-130 | what one round makes of the block and of its copy, links in both directions included |
| UnrollShape.OneMore | src/passes/SimpleLoopUnrollingPass.hpp:76-132 | every round keeps that of the whole chain of copies |
| UnrollingPass.FindLastSelf | src/passes/SimpleLoopUnrollingPass.hpp:46-60 | the last branch of the block to itself is found, by way of the order of the outgoing edges |
| UnrollingPass.PrepareLoop | src/passes/SimpleLoopUnrollingPass.hpp:42-74 | splitting and unchaining the consistent blocks makes the prepared graph |
| UnrollingPass.UnrollBlockOnce | src/passes/SimpleLoopUnrollingPass.hpp:76-130 | one round on the blocks, links and edge lists makes the graph of one round, and keeps the blocks consistent; the copy is the block with its loops within itself, and the block goes to the copy instead, by fallthrough and an inverted branch if it ended with a branch that can be inverted and a jump |
| UnrollingPass.UnrollSingleBlockLoop | src/passes/SimpleLoopUnrollingPass.hpp:42-132 | the method on blocks and edge lists, for any count and any table of opcodes whose conditions are those of the branches: consistency is kept, every run from every block is preserved, and of the block and its copies, instruction by instruction, each goes to the following copy: chained to it and left by a branch taken exactly when the one removed would not have been, if the loop ended with a branch that can be inverted and a jump; the last loops on itself |
| Ir.DropEdgeConsistent | src/SuperBlock.cpp:26-34 | invalidating a branch edge keeps all of the consistency: each edge once in each list, its instruction in its source block, outgoing order that of the instructions, next and prev inverse |
| IrOps.UnlinkConsistent | src/SuperBlock.hpp:255-273 | so does unlinking a block from the next one |
| IrOps.DropInstrConsistent | src/SuperBlock.cpp:50-72 | so does erasing an instruction without edge |
| IrOps.AddEdgeConsistent | src/SuperBlock.hpp:209-237 | so does adding an edge for the last instruction of a block |
| IrOps.MoveDstConsistent | src/passes/SimpleLoopUnrollingPass.hpp:86-94 | so does leading an edge to another block |
| IrOps.DropBlockConsistent | src/Function.cpp:61-88 | so does taking out an emptied block |
| IrSplit.SplitConsistent | src/Function.cpp:189-252 | so does splitting, with the edges of the moved instructions |
| IrSplit.MergeConsistent | src/Function.cpp:105-187 | so does merging into the next block |
| FunctionIr.Function.Invalidate | src/SuperBlock.cpp:26-34 | the edge is gone from both lists and from its instruction, nothing else changes |
| FunctionIr.Function.RemoveInstruction | src/SuperBlock.cpp:50-72 | instruction and edge are gone, nothing else changes, the blocks stay consistent |
| FunctionIr.Function.RemoveAllInstructions | src/SuperBlock.cpp:74-92 | the block is empty and has no edges left in either direction |
| FunctionIr.Function.RemoveBlock | src/Function.cpp:61-88 | the block is gone, its neighbours are chained to each other, and the blocks stay consistent |
| FunctionIr.Function.SplitBlock | src/Function.cpp:189-252 | the loop that moves edge by edge arrives at the split blocks, consistent |
| FunctionIr.Function.MergeBlockIntoNext | src/Function.cpp:105-187 | instructions, edges, links and the entry pointer end up in the next block, consistent |
| FunctionIr.Function.CopyBlock | src/Function.cpp:287-341 | a new block with a copy of every instruction and an edge of its own for each branch, loops within the copy; nothing else changes |
| FunctionIr.Function.RedirectLoops | src/passes/SimpleLoopUnrollingPass.hpp:86-94 | exactly the self edges of the block lead to the copy, consistent |
| FunctionIr.Function.UnchainNext | src/SuperBlock.hpp:255-273 | a jump with an edge to the former next block is appended, the link is gone |
| IrGraph.WholeComplete | src/SuperBlock.hpp:36-62 | in consistent blocks every edge and every link leads to a block |
| IrGraph.SplitWhole | src/Function.cpp:189-252 | splitting the blocks is splitting the graph they make up |
| IrGraph.MergeWhole | src/Function.cpp:105-187 | merging the blocks is merging in the graph |
| IrGraph.UnchainWhole | src/SuperBlock.hpp:255-273 | unchaining the blocks is unchaining in the graph |
| IrLoops.CopyWhole | src/passes/SimpleLoopUnrollingPass.hpp:76-94 | copying and redirecting on the blocks is the copy step of the graph |
| IrLoops.ChainWhole | src/passes/BlockLayoutOptimizationPass.hpp:50-89 | linking and then removing the jump is the chain step of the graph |
| IrLoops.InvertWhole | src/passes/SimpleLoopUnrollingPass.hpp:96-130 | dropping the branch, inverting the jump and linking the copy is the invert step of the graph |
| BlockLayoutPass.BlockLayoutOptimization.HandleBlock | src/passes/BlockLayoutOptimizationPass.hpp:50-89 | exactly a final jump to a block without predecessor in a chain becomes a link, exactly the empty blocks and those before a block without branches to it are noted, and runs from every block are the same; fails exactly on an empty block without next |
| BlockLayoutPass.BlockLayoutOptimization.Run | src/passes/BlockLayoutOptimizationPass.hpp:37-48 | chaining all blocks and then merging all noted ones, in any order: exactly when it fails and what it leaves; runs from the entry are the same if and only if the chained graph runs the same from the entry and from the first of the blocks in front of it, which for an entry that opens with an instruction that executes means that none in front ever does; what is left can be traversed to an end if and only if, on the function before the pass, no block to be reached comes back to itself along the predecessors the pass will leave; on success no block that was empty is left |
| BlockLayoutPass.EntryMergeBreaks | src/Function.cpp:105-187 | on an entry whose loop body jumps back to it the pass changes what runs from the entry unless the branch into the loop is always taken |
| BlockLayout.ChainAllFacts | src/passes/BlockLayoutOptimizationPass.hpp:37-78 | the chaining phase, over any order of blocks, changes no run from any block |
| BlockLayout.ListedIsRipe | src/passes/BlockLayoutOptimizationPass.hpp:80-89 | what has been noted is, when the phase is over, exactly what is empty or stands before a block without branches to it, so no chaining step undoes or misses one |
| LayoutChains.ChainedAsForeseen | src/passes/BlockLayoutOptimizationPass.hpp:37-78 | after the chaining phase, over any order, every block has the predecessor that can be told from the function before: its own, or the first block in the order that ends with a jump to it |
| LayoutChains.ChainingEndsIff | src/passes/BlockLayoutOptimizationPass.hpp:68-78 | the chain of a block has an end after the chaining phase if and only if, on the function before it, the block does not come back to itself along these predecessors |
| LayoutEnds.MergeEnds | src/Function.cpp:105-187 | merging a block into its next one makes no endless chain end and no other go on for ever |
| LayoutChains.LayoutEndsIff | src/passes/BlockLayoutOptimizationPass.hpp:37-89 | so the traversal of what the pass leaves ends if and only if, on the function before the pass, no block comes back to itself that can be reached from the first block in front of the entry; and exactly then there is a rank that code generation asks for |
| ClosedChain.LayoutNeverTraversed | src/passes/BlockLayoutOptimizationPass.hpp:68-78 | a loop of one block that jumps back to itself, reached by a branch: consistent blocks on which the pass succeeds, and the traversal of what it leaves never ends |
| LayoutEntry.EntryRuns | src/Function.cpp:105-187 | after all merges the function runs from its new entry as from the first of the blocks that were merged in front of the old one |
| LayoutEntry.LayoutIff | src/passes/BlockLayoutOptimizationPass.hpp:37-48 | so the pass changes no run from the entry if and only if, when merging starts, the same runs from there; always with nothing in front of the entry or a branch to it |
| LayoutEntry.LayoutKeepsIff | src/passes/BlockLayoutOptimizationPass.hpp:37-48 | which for an entry that opens with an instruction that executes means that no instruction in front ever does |
| LayoutEntry.FrontIsWhole | src/passes/BlockLayoutOptimizationPass.hpp:80-89 | the blocks in front are all of the chain up to a block with no predecessor, with another branch to it, or behind one that the order given leaves out |
| FirstExecuted.SameIffMeet | src/passes/BlockLayoutOptimizationPass.hpp:37-48 | two places of a graph run alike if and only if they come to the same place before either executes anything, or neither ever does |
| FirstExecuted.NeverExecutesIff | src/passes/BlockLayoutOptimizationPass.hpp:37-48 | the head of a chain runs like a block further down that opens with an instruction that executes if and only if nothing between ever executes |
| Emission.ForEachBlockDfs | src/Function.hpp:146-192 | on a graph in which the chains to be reached have ends, which is when the traversal does: the order holds each block reachable from the entry once and no others, entry first, chains kept together from where they were entered, and falls through everywhere if and only if the search, on the graph given, never comes to a block before the reachable one that falls through to it |
| Traversal.TraversalEndsIff | src/Function.hpp:146-192 | the traversal, step by step on any graph, ends if and only if every chain with a block that can be reached from the entry has an end |
| Traversal.RankIff | src/Function.hpp:161-189 | which is if and only if something falls along the chains of a closed set of blocks with the entry |
| Chains.GraphEndIff | src/Function.hpp:161-189 | the walk along next from a block ends if and only if it does not come back to the block, and that is so along prev as well |
| Emission.FallsThroughIff | src/Function.hpp:157-192 | every fallthrough leads to the block laid out next if and only if every block laid out behind no predecessor of its own has none laid out |
| Emission.BehindIff | src/Function.hpp:157-192 | a chain is laid out from its middle if and only if the search comes to a block whose predecessor is reachable and not laid out yet |
| Emission.MiddleFirstBreaks | src/Function.hpp:157-192 | a graph on which that happens: a block is laid out behind the one it should fall through to |
| CodeLayout.DistancesShrink | src/passes/CodeGenerationPass.hpp:66-126 | with more branches short, nothing behind the start of a block moves away from that start, in spite of the 16-byte alignment |
| CodeLayout.BackwardFits | src/passes/CodeGenerationPass.hpp:29-64 | a backward branch that could be short in the first pass can be in the second |
| CodeLayout.ForwardGrowsBySaved | src/passes/CodeGenerationPass.hpp:29-97 | a forward displacement grows by at most the bytes saved before it in its block |
| CodeLayout.ForwardFits | src/passes/CodeGenerationPass.hpp:29-97 | so a forward branch fits if its displacement leaves room for the bytes saved before it in its block |
| CodeLayout.NothingSaved | src/passes/CodeGenerationPass.hpp:29-97 | and with no branch shrunk before it in its block nothing was saved, so that it fits |
| TightLayout.TightOverflows | src/passes/CodeGenerationPass.hpp:29-126 | in general it does not: a displacement of 127 bytes becomes 131 in the second pass |
| TightLayout.TightFails | src/passes/CodeGenerationPass.hpp:29-126 | a proper function of three blocks with two conditional branches, its order of emission and its items, on which that happens: whatever memory both passes are given, if there is room at all they can only end with the failure of the second branch |
| BranchCode.DecodeBranch | src/x86/Encoder.cpp:1637-1662 | short and long jumps and conditional jumps decode to form, length and displacement that were stored |
| BranchCode.SignedBytes32 | src/x86/Encoder.cpp:1724-1827 | a 32-bit displacement is read back from its four bytes |
| Padding.NopsPad | src/x86/Encoder.cpp:1595-1619 | a filling of any length, read by a decoder of no-operations, is no-operations only and ends exactly where it should, whatever comes behind |
| CodeGenerationPass.CodeGeneration.NewBlock | src/BinaryPool.cpp:86-99 | a block starts at the next multiple of 16, its start is recorded, and a processor reading the gap executes no-operations only until it is there |
| CodeGenerationPass.CodeGeneration.FixupBranch | src/x86/Encoder.cpp:1724-1812 | in the second pass the displacement to the recorded start of the target is stored in the reserved slot; in the first a branch that could be short is noted |
| CodeGenerationPass.CodeGeneration.RunPass | src/passes/CodeGenerationPass.hpp:66-97 | one pass: the first ends with exactly the branches noted that fit 8 bits, the second with all slots in memory as the layout says |
| CodeGenerationPass.Generate | src/passes/CodeGenerationPass.hpp:99-126 | two passes: on success all of the code is in memory; on failure there was no room, or a forward branch noted as short does not fit any more |
| CodeGenerationPass.SecondPassFails | src/passes/CodeGenerationPass.hpp:99-126 | in the second pass backward branches and room are never the reason |
| LinearCode.CodeRunsLikeGraph | src/passes/CodeGenerationPass.hpp:99-126 | a machine that decodes the bytes, padding and branches included, and runs an instruction only where its bytes are, runs from the start of every block laid out like the graph from that block, in both directions |
| LinearCode.EmitFunction | src/passes/CodeGenerationPass.hpp:77-126 | depth-first layout and both passes, on a graph in which the chains to be reached have ends: if they succeed and the search entered no chain behind its head, said of the function given, running the code from its first byte is running the function; if they fail, for the reasons of Generate |
| LayoutEmission.LayOutAndEmit | src/passes/BlockLayoutOptimizationPass.hpp:37-89 | layout and code generation together, said of the function before both: with no chain closed on itself that can be reached they do not get stuck, and if there is code, no chain was entered behind its head and the layout kept what runs from the entry, running the code from its first byte is running the function the layout was given |
| Encoder.IndirectRoundTripIff | src/x86/Encoder.cpp:530-646 | decoding by sections 2.1.5 and 2.2.1 gives back prefixes, width bit, opcode, register field, base, index, scale, displacement and the place of the immediate, if and only if the index is not the stack pointer and base 12 has an index |
| Encoder.DirectRoundTripIff | src/x86/Encoder.cpp:479-528 | a fixed address decodes to itself, absolute or relative to the end of the instruction, with prefixes, width bit and opcode, if and only if it is reachable either way; the code reports an unreachable one and emits another operand |
| Encoder.PredictedLenWritten | src/x86/Encoder.cpp:493-510 | the length used for the relative displacement is the length written |
| Encoder.RegisterRoundTrip | src/x86/Encoder.cpp:318-368 | a register operand decodes to that register, extension bits included, with the prefixes, the width bit and the opcode asked for |
| ModRMEncodings.ModRMEncoding.SetRegister | src/x86/Encoder.cpp:318-352 | the fields set in place are those of the encoding that decodes to that register |
| Encoder.KeepsOpcode | src/x86/Encoder.cpp:370-425 | filling in an operand touches neither prefixes, width bit, opcode nor immediate |
| ModRMEncodings.ModRMEncoding.EncodeMemoryDirect | src/x86/Encoder.cpp:479-528 | the fields set in place are those specified, by way of the length counted up in steps |
| ModRMEncodings.ModRMEncoding.EncodeMemoryIndirect | src/x86/Encoder.cpp:530-646 | the fields set in place are those specified; it fails exactly where the code asserts |
| ModRMEncodings.ModRMEncoding.Write | src/x86/Encoder.cpp:427-477 | prefixes, opcode, ModRM, SIB, displacement and immediate are stored in order, nothing behind them; immediates of other sizes than 0, 1, 2, 4 are a failed assertion |
| ModRMEncodings.StoredIff | src/x86/Encoder.cpp:427-646 | for both kinds of memory operand: the bytes decode to prefixes, width bit, opcode and the operand if and only if it is none of those the encoder gets wrong |
| ModRMEncodings.EncodeMemoryInstruction | src/x86/Encoder.cpp:370-646 | construct, encode and write together: which operands are accepted, that the immediate comes last, that nothing is written that is not asked for, and that what is in the buffer decodes to operand size, prefixes, opcode, register and operand exactly under that condition |
| ModRMEncodings.EncodeRegisterInstruction | src/x86/Encoder.cpp:314-360 | the same with a register in the place of the memory operand, which always decodes to operand size, prefixes, opcode and both registers |
| ModRMEncodings.LenIs | src/x86/Encoder.cpp:427-646 | the number of bytes written: a prefix, REX byte or SIB byte only if asked for, the shortest displacement that will do |
| Reconstruction.StreamSuffix | src/Function.cpp:343-392 | the code decoded from an address is, from any of its instructions on, the code decoded from there |
| Reconstruction.AddDecodedReads | src/passes/ICFGReconstructionPass.hpp:234-239 | mapping a newly decoded block keeps: every mapped block with what it falls through to is the code decoded from its address, edges lead to the blocks mapped at their targets, next and prev are inverse |
| Reconstruction.SplitAtReads | src/passes/ICFGReconstructionPass.hpp:223-233 | so does splitting any block at any instruction that is not mapped yet |
| Reconstruction.SetEdgeReads | src/passes/ICFGReconstructionPass.hpp:241-247 | so does installing an edge to the block mapped at the target |
| Reconstruction.FollowIsStream | src/passes/ICFGReconstructionPass.hpp:180-254 | however many splits there were, the block mapped at an address, followed along next, is exactly the code decoded from it |
| DecodedRuns.DecodedRunsAlike | src/passes/ICFGReconstructionPass.hpp:180-254 | from every mapped address the graph executes the same instructions in the same states as a processor that reads the memory instruction by instruction, in both directions |
| ICFGReconstructionPass.ICFGReconstruction.ITextCovered | src/passes/ICFGReconstructionPass.hpp:74-106 | an instruction at the address is found if and only if some block has one: the check of address ranges never skips it |
| ICFGReconstructionPass.ICFGReconstruction.DecodeInstructions | src/Function.cpp:343-383 | the loop decodes exactly the stream of the address, without padding, and fails exactly if part of it cannot be decoded |
| ICFGReconstructionPass.ICFGReconstruction.ResolveBranch | src/passes/ICFGReconstructionPass.hpp:213-248 | a branch with a known target gets its edge, by a known, split or new block; a block is split if and only if the target is no known block but an instruction of one, at that instruction, and then the branch is tried again |
| ICFGReconstructionPass.ICFGReconstruction.ResolveBlock | src/passes/ICFGReconstructionPass.hpp:193-249 | recollecting after every split ends, and then every branch of the block with a known target has its edge |
| ICFGReconstructionPass.ICFGReconstruction.DecodeFunction | src/passes/ICFGReconstructionPass.hpp:180-254 | the worklist ends; it succeeds if and only if nothing that cannot be decoded is reachable from the entry, and then every branch with a known target has its edge |
| ICFGReconstructionPass.AllDecoded | src/passes/ICFGReconstructionPass.hpp:180-254 | with all edges in place, the mapped streams are closed under control flow and free of undecodable places |
| ICFGReconstructionPass.Decode | src/passes/ICFGReconstructionPass.hpp:180-254 | a decoded function runs like the memory it was decoded from, has a block behind every edge and consistent links |
| BinaryPool.OnOnePage | src/BinaryPool.cpp:142-172 | a constant aligned to its size never crosses a page |
| BinaryPool.Pool.AllocCode | src/BinaryPool.cpp:59-79 | code is contiguous, leaves earlier code and all constants as they are, and fails exactly when its page is full and no further page can be had: always, as long as page pointers step by one byte; whatever size is asked for |
| BinaryPool.Pool.NewBlock | src/BinaryPool.cpp:86-99 | alignment stays on the page, and a processor reading what is skipped executes no-operations only until the block begins |
| BinaryPool.Pool.AllocConstantBytes | src/BinaryPool.cpp:142-172 | a constant goes to the highest aligned place below the others, leaves code and other constants as they are, and it fails exactly when no page is left for it or its size is no power of two |
| BinaryPool.Pool.AllocConstant64 | src/BinaryPool.cpp:114-125 | a 64-bit constant is at the address returned, the same address for the same value since the last reset, and there is no room exactly if it is new and a constant of its size does not fit |
| BinaryPool.Pool.AllocConstant128 | src/BinaryPool.cpp:101-112 | likewise for 128 bits |
| BinaryPool.Pool.ResetCodePool | src/BinaryPool.cpp:174-200 | resetting the code leaves the constants |
| BinaryPool.Pool.ResetConstantPool | src/BinaryPool.cpp:202-232 | resetting the constants leaves the code and forgets interned addresses |
| BinaryPool.Serve | src/BinaryPool.cpp:59-232 | over any sequence of allocations and resets, every constant since the last reset of the constants is still at the address returned for it; it stops only at a request there is no room for |
| DynamicValues.AddSound | src/ProgramState.cpp:37-52 | the sum of two descriptions describes the 64-bit sum, and a sum with anything derived from the stack says so |
| DynamicValues.MultiplySound | src/ProgramState.cpp:22-35 | likewise for scaling |
| BestValues.AddBest | src/ProgramState.cpp:37-52 | no value tells more of all sums: any that stands for all of them stands for all that the computed one does, values and taint |
| BestValues.AddMoves | src/ProgramState.cpp:43-46 | a pointer and a number make that pointer with its offset moved, on either side |
| BestValues.MultiplyBest | src/ProgramState.cpp:22-35 | no value tells more of all products, for any scale but zero |
| DynamicValues.MemPtrSound | src/Instruction.cpp:213-228 | the address computed for base, index, scale and displacement describes the address at run time, on the short path for three immediates too |
| BestValues.MemPtrMoves | src/Instruction.cpp:213-228 | with one pointer that is not scaled and the other parts known the address is that pointer moved |
| BestValues.MemPtrKnown | src/Instruction.cpp:213-228 | with all parts known so is the address |
| DynamicValues.BytesMean | src/ProgramState.cpp:249-353 | a value that describes the bytes of a register describes the number in it |
| MemoryOperandOptimizationPass.FoldKeepsAddress | src/passes/MemoryOperandOptimizationPass.hpp:93-165 | in every register state the analysis describes, the folded operand has the same address modulo 2^64, and its user-pointer tag is true |
| MemoryOperandOptimizationPass.FoldKeepsRegister | src/passes/MemoryOperandOptimizationPass.hpp:123-165 | folding never leaves an operand of registers with neither base nor index |
| MemoryOperandOptimizationPass.KnownIff | src/RewriterCfg.hpp:142-157 | an address is taken for known if and only if it always is the same in the runs the analysis describes |
| MemoryOperandOptimizationPass.MovedToPool | src/passes/MemoryOperandOptimizationPass.hpp:70-91 | a load moved to the constant pool reads the same bytes |
| MemoryOperandOptimizationPass.MemoryOperandOptimization.HandleInstruction | src/passes/MemoryOperandOptimizationPass.hpp:51-187 | the operand that is replaced is the first that can be, does as well as before in every run the analysis describes, and is a fixed address if all of it is known, otherwise without base or without index; none that could be folded or moved to the pool is passed over |
| MemoryOperandOptimizationPass.FoldMisencodesIff | src/x86/Encoder.cpp:585-597 | folding turns an operand that is encoded right into one that is not exactly when it takes the index away from register 12 |
| MemoryOperandOptimizationPass.FoldMayMisencode | src/passes/MemoryOperandOptimizationPass.hpp:143-165 | and that happens |
| Specialize.SourceImmediate | src/x86/Specialize.cpp:134-146 | a known source that fits as a sign-extended 32-bit immediate gives the same results and the same flags; moves to a register take all 64 bits |
| Specialize.PoolSource | src/x86/Specialize.cpp:147-157 | nor does a source loaded from the constant pool make a difference |
| Specialize.TestSwapped | src/x86/Specialize.cpp:866-875 | the operands of a test may change places |
| Specialize.Specializer.Add64 | src/x86/Specialize.cpp:81-162 | the replacement leaves the same registers and memory, the same flags if any is read, for every state the analysis describes; and which it is: deletion, a move of the known result, a move of the source, an immediate, a constant in memory, or none |
| Specialize.Specializer.Cmp64 | src/x86/Specialize.cpp:287-313 | likewise for comparisons, flags always the same: an immediate if the source is known and fits, else a constant in memory, or none |
| Specialize.Specializer.Lea64 | src/x86/Specialize.cpp:315-338 | likewise for address calculations; replaced by a move or a zero exactly if the result is known |
| Specialize.Specializer.Mov64 | src/x86/Specialize.cpp:380-403 | likewise for moves; deleted exactly if the registers are the same, with an immediate exactly if the source is known and can be one |
| Specialize.Specializer.Test64 | src/x86/Specialize.cpp:845-878 | likewise for tests, flags always the same: with an immediate exactly if either operand is known and fits |
| Specialize.Specializer.Xor64 | src/x86/Specialize.cpp:909-947 | likewise for xor; xor with zero is deleted if flags are dead, otherwise as for comparisons |

## Left out

- Decoding of single instructions and translation of their operands: `Reconstruction.Text` is any function from addresses
  to instructions. A decoded instruction is known by its address, so one decoded twice has one identity; LOOP
  instructions, which decode to several, and changes of the text while it is read are not modelled.
- Emulation of single instructions: the transfer functions of the forward analysis are a parameter assumed sound where
  registers are alive; what the pass does after each, marking operands dead, is modelled for whole registers.
  Exact flags and floating point are not modelled. Flags of the specialized instructions are uninterpreted functions of
  their operands.
- Calls as edges between functions: a call leaves the graph. Only one function is analysed.
- Re-analysis of single blocks and the propagation of validity flags to parent nodes: analyses start afresh.
- `DeadWritePass.DeadWriteElimination.Run`, `DeadCodePass.DeadCodeElimination.Run`, `ICFGReconstructionPass.Decode`: they work on
  graphs in which a block is a record in a map and lists of incoming edges are not kept up to date; `FunctionIr` has these
  lists for removing, splitting, merging and copying.
- Blocks, instructions and edges of `FunctionIr` are records in maps keyed by their identity, not heap objects.
- The order in which the analyses see blocks first is a parameter.
- Data and metadata of a byte are one element of an array, not two arrays.
- What instructions that the emulation gives up on read and write in addition.
- `UnrollingPass.UnrollSingleBlockLoop`: unrolls one loop; the choice of loops and counts is left to the caller.
- `BlockLayoutPass.BlockLayoutOptimization.Run`: merging a block into itself stops the model with a failure; the code would go on with
  a deleted block.
- JCXZ and the long forms of LOOP among the branches.
- `CodeGenerationPass.Generate`: instructions other than branches have lengths that do not depend on where they are, their bytes are
  a parameter that the machine of `LinearCode` compares memory with, and code has one array without pages.
- The opcode tables that choose among forms of an instruction, and the bytes of opcodes; 8- and 16-bit registers and
  SSE operands.
- `Predicates.PredictionSoundIff`: leaves out a second comparison of a register with itself, which no predicate has.
- `BinaryPool.Pool.AllocCode`: what callers write into the code they got; for no bytes or more than a page, that the pool is
  still in order, because the code it returns is then not all mapped.
- `BinaryPool.Pool.AllocConstantBytes`: constants of more than a page, which the code would write to memory it has not
  mapped and which nothing asks for; what a failed system call leaves behind.
- `StateJoin.RankedJoinDescends`: the measure needs a range that the stack stays in; states outside of it, and states
  whose arrays do not have the sizes of the registers, stand for nothing there.
- `MemoryOperandOptimizationPass.MemoryOperandOptimization.HandleInstruction`: registers are 64 bits wide, and constant memory keeps
  its contents from rewriting to running; setting the operand and invalidating analyses is left to the caller.
- The specialization of 8-, 16- and 32-bit, SSE, shift and stack instructions.
- Logging, configuration, the registry, mapping of files, and the C interface.
