# GoLite compiler: middle and back end, verified

GoLite programs are translated from a syntax tree to basic blocks of a three-address IR, cleaned up, allocated to
registers by linear scan, and lowered to ARM. This project models that path, from building the syntax tree to the
final body of ARM code, and proves what it promises. The code that works in place is modelled in place: blocks are
linked heap objects, the allocator's maps and its shared slice are fields that its methods update, lowering advances
and resets a scratch-register counter. Each such method ends with the value of a specification function, and the
theorems are about those functions and about the runs of the code they produce.

How the modules fit together:

- `Words`, `Events`, `Ir`: 64-bit values, what a run can observe, IR syntax. `Source` and `IrSemantics` say how source
  programs and IR graphs run; calls and input are given by an arbitrary `World`.
- `Translation` is the translation as a function of the graph so far and the two generators; `Growth` says what it
  leaves alone. `Cfg`, `BlockGraph`, `Compile` and `CompileFunction` are the same translation on heap objects.
- `ExprPreservation`, `Preservation`, `FunctionPreservation`: the generated code runs as the source does.
- `Shape`, `Reachability`, `Flow`, `DeadCode`, `FunctionBlocks`, `BreadthFirst`, `Optimise`: which blocks there are,
  which are printed, and what removing some of them may change.
- `ReturnAnalysis`, `ReturnPaths`, `OpenPaths`: the return-path check and the blocks it speaks about.
- `Temps`, `SingleAssignment`, `FlagHandoff`, `BranchPlacement`, `EveryInstruction`, `Allocas`, `OperandTypes`: invariants
  of every generated block. `RemovalRounds` says exactly which blocks the clean-up leaves.
- `LinearScan`, `LinearScanSafety`, `SpillOptimality`, `Allocator`, `LiveRanges`, `Mentioning`: register allocation.
- `Arm`, `ArmRuns`, `Lowering`, `LoweringCorrect`, `LoweringExact`, `BlockSimulation`, `FlatCode`, `Peephole`,
  `FrameLayout`, `Assemble`, `Calls`, `BackEnd`: lowering, the frame, the peephole pass, calls, and whole lowered blocks.
- `AttributeMap`: the map keyed by start positions through which the parser's listeners build the syntax tree. `Grammar`
  gives the productions form by form, and `RoundTrip` shows that walking any parse tree builds the form it is a tree of.

What the model assumes of its inputs: source functions are well typed in the sense of `Source.WellTypedStms` (which also
makes each operator level of the grammar uniform, `!` apply to bool and `-` to int); reading an unset variable or
dividing by zero goes wrong, in the source and in the IR alike. Temporaries and source names are different entries by
construction, so a source variable named like a temporary is not covered. Globals are addressed by an arbitrary
placement that keeps them apart from each other and from the frame. An immediate of any size is taken to fit one `mov`.

Three places where the code does less than one might expect, each with lemmas that show it and say exactly when it does
not matter:

- The return-path check takes every loop to run at least once. `ReturnAnalysis.LoopCanSkipReturn` is a function that
  passes it and does not return, and `FunctionBlocks.SkippedReturnFallsOff` shows that control falls off one of its
  blocks; `ReturnAnalysis.ReturnCheckIsExact` says what the check decides. `FunctionBlocks.NeverFallsOffExactly` says
  when control can never fall off a block of a function, with or without loops: exactly when it has no result type or
  every path returns outside the loops.
- Some loads and stores of spilled variables are lowered to code that drops the value. `LoweringExact.DeliversExactly`
  says which instructions are lowered correctly: all but loads into a spilled variable (other than from its own slot),
  stores of a variable to a spilled one, stores of a spilled variable to a global, and stores of a spilled parameter
  slot, whose cell is looked for at a shifted offset. `LoadFails`, `SpilledStoreFails`, `GlobalStoreFails` and
  `ShiftedStoreFails` give a state for each on which the code goes wrong.
- Deleting a conditional branch to the label two ahead is only safe when each pair of branches is followed by a label or
  by the end of the body. `Peephole.PairMustEndBlock` is a body of adjacent complementary pairs that the pass breaks,
  and `Peephole.DeletedBranchRunsNext` says exactly what such a deletion changes;
  `FlatCode.BodyIsPaired` shows that no generated body is like that.

The edges recorded between blocks are not the branch graph: the entry of a loop lists no predecessors, and code after a
`return` adds branches that never run. The results on printing and on removing blocks are about exactly these edges.

## Model

| member | source | states |
|---|---|---|
| FunctionPreservation.FunctionRuns | ast/function.go:116-173 | From the entry block, the generated blocks return the value the source call returns with the same globals and events, go wrong when it does, and are still running after at least as many steps as it has iterations when it is |
| FunctionPreservation.FunctionRunsBack | ast/function.go:116-212 | Conversely, if the padded code finishes with a value, then the source call returns that value with the same globals and events |
| FunctionPreservation.PrologueRuns | ast/function.go:120-152 | The prologue leaves each parameter in its slot, every local unset, and globals and events alone |
| Allocas.SlotsAllocatedOnce | ast/function.go:120-157 | In a well-typed function with distinct names, every local, parameter slot or return slot that any block loads, stores, scans into or mentions has exactly one alloca in the function, in the entry block before every mention |
| Allocas.AllocatesWhatItDeclares | ast/declaration.go:76-83 | A function allocates its return slot, the slots of its parameters and its declared locals, each once, and nothing else |
| OperandTypes.FunctionTypesFit | ast/binaryexpr.go:145-167 | In every block arithmetic never sees an i1, bitwise operators only see i64, selects never test an i64, branches never test an i64 register, and an i64 is returned |
| OperandTypes.TestedFits | ast/conditional.go:65-81 | In a conditional the select tests an i1 or a literal and the branch its i1 result |
| Preservation.StmsRun | ast/conditional.go:57-98 | A statement list inside any larger graph that begins with its blocks runs as the source list does, through nested conditionals and loops and past code placed after a return |
| Preservation.ForRuns | ast/loop.go:49-81 | The three blocks of a loop iterate as the loop does and leave through the exit block with related memory |
| Preservation.BranchRuns | ast/conditional.go:62-81 | Condition, truncation, select and branch reach the true block exactly when the condition evaluates to 1 |
| Preservation.ReturnRuns | ast/return.go:59-90 | Storing to the return slot, loading it back and returning yields the stored value and disturbs nothing else visible |
| ExprPreservation.ExprComputes | ast/binaryexpr.go:122-174 | The instructions of an expression end with its value in the returned operand, with the same effects and no other change than to fresh temporaries; both operands of the logical operators are evaluated |
| ExprPreservation.CombineBoolOp | ast/binaryexpr.go:131-168 | After widening by selects, the bitwise and/or of two truth values is their logical one |
| Words.BitOpsOnTruthValues | llvm/instructions.go:83-109 | At every width, bitwise and/or of 0 and 1 are the logical operators |
| Words.TruncDiv | llvm/instructions.go:83-109 | Division truncates toward zero: the remainder is smaller than the divisor and has the sign of the dividend |
| Words.Wrap | llvm/instructions.go:83-109 | A wrapped value is in the signed 64-bit range and differs from the argument by a multiple of two to the 64 |
| Growth.StmsGrows | ast/function.go:158-161 | Translating statements appends only to the current block and to blocks numbered from the label counter on, and changes no predecessor or loop exit recorded before |
| Compile.CompileExpr | ast/unaryexpr.go:40-66 | Emitting an expression while advancing the register generator gives exactly the specified instructions, operand and counter |
| Compile.CompileBinary | ast/binaryexpr.go:122-174 | The loop over the operators, rebinding the current operand, computes the left fold |
| Compile.CompileOp | ast/binaryexpr.go:129-171 | Registers are drawn in the order select, second select, result, the selects being emitted only where a type asks for them |
| Compile.CompileStms | ast/function.go:158-161 | Translating statements in place, rebinding the current block, leaves linked blocks that are exactly the specified graph |
| Compile.CompileIf | ast/conditional.go:57-98 | The same for a conditional, whose nested blocks may move its true and false ends |
| Compile.CompileFor | ast/loop.go:49-81 | The same for a loop |
| BlockGraph.FuncDef.PlaceIf | cfg/blockcfg.go:51-59 | The three linked and registered blocks of a conditional are those of the specified graph, and links still go to registered blocks, each at most once |
| BlockGraph.FuncDef.PlaceFor | cfg/blockcfg.go:61-71 | The same for the blocks of a loop |
| Cfg.NewIfBlock | cfg/blockcfg.go:51-59 | Fields of the three new blocks and the new successors of the entry |
| Cfg.NewForBlock | cfg/blockcfg.go:61-71 | Fields of the three new blocks and the new successor of the block before |
| CompileFunction.TranslateFunction | ast/function.go:116-214 | A whole function in place: without optimisation all its blocks, an empty one getting a branch to itself; with it exactly the blocks five rounds leave, in terms of walks, with terminators only at their ends |
| CompileFunction.CompiledRuns | ast/function.go:116-214 | The blocks it leaves, optimised or not, behave as the source call does |
| CompileFunction.PrintOrder | llvm/llvmFunction.go:64-90 | The blocks printed are distinct; without optimisation they are all blocks of the function and hold every branch target, with it they include every block that can run, cut after its first terminator |
| FunctionBlocks.EmissionIsComplete | llvm/llvmFunction.go:85-87 | For every function, recorded edges reach exactly the registered blocks, and every branch target is one |
| FunctionBlocks.FunctionShaped | ast/function.go:116-173 | Every branch is covered by a recorded edge from some block that lies on all paths to it, and recorded edges stay inside the graph |
| Shape.StmsShaped | ast/conditional.go:57-98 | Placing statements keeps that shape, and execution goes on behind the block they started in |
| RemovalRounds.SurvivorsByWalks | ast/function.go:183-205 | The blocks n rounds leave are those at the end of a walk of n branches between different blocks of the cut code, or of fewer from the entry |
| RemovalRounds.FunctionKeepsExactly | ast/function.go:183-205 | So for the five rounds on every generated function |
| RemovalRounds.KeptBlocks | ast/function.go:183-205 | A block other than the entry that stays is branched to by another block, and if it cannot run it is at the end of a walk of five branches |
| DeadCode.EliminationPreservesRuns | ast/function.go:174-205 | Truncation and any sequence of removals that keeps what can run leave the run from the entry unchanged, step by step |
| DeadCode.LiveStaysListed | cfg/blockcfg.go:85-114 | Every block that can run is still found through the edges after removals have edited them |
| DeadCode.LiveIsSeen | ast/function.go:182-199 | A round of removal marks every block that can run, as long as all of them are still registered |
| FunctionBlocks.OptimisedFunctionRuns | ast/function.go:174-205 | Whatever the order of removals, the optimised function behaves as the source call does |
| FunctionBlocks.LiveBlocksAreEmitted | ast/function.go:174-205 | Every block that can run survives the rounds and is printed |
| Flow.SameRuns | ast/function.go:175-182 | Code that differs only in blocks that cannot run and behind first terminators runs the same |
| Optimise.RemoveBlock | llvm/llvmFunction.go:36-53 | The new successor and predecessor lists of every block, and that nothing else changes |
| Optimise.Excise | llvm/llvmFunction.go:39-44 | Deleting from a list while ranging over its shifting backing array removes exactly the block |
| Optimise.RemoveDeadBlocks | ast/function.go:183-205 | Five rounds leave exactly the blocks at the end of a walk of five branches between different blocks, or of fewer from the entry, whatever order blocks are visited and removed in; every block that can run stays and edges are only dropped to removed blocks |
| Optimise.RemoveUnseen | ast/function.go:200-204 | Of the registered blocks exactly the marked ones stay registered |
| Optimise.EliminateDeadCode | ast/function.go:174-205 | Truncation and the rounds, in place, give a result dead-code elimination may give |
| Optimise.CutBlock | ast/function.go:176-181 | A block becomes the part of it up to its first terminator, or stays as it is without one |
| BreadthFirst.InOrderBlocks | cfg/blockcfg.go:85-114 | The order starts at the root and lists exactly the blocks reachable through recorded successors, each once, by increasing shortest-path distance, and in the order they are first met, successors from left to right |
| BreadthFirst.NextFrontier | cfg/blockcfg.go:91-112 | When a block has been visited, everything as near as the next one in the queue has been seen |
| BreadthFirst.AllSeen | cfg/blockcfg.go:91-112 | When the queue is empty, what has been seen is what is reachable |
| ReturnAnalysis.ReturnCheckIsExact | ast/function.go:95-114 | The check passes iff no control path that takes every loop at least once falls off the end |
| ReturnAnalysis.HelperIsBlockReturns | ast/function.go:102-114 | Scanning back from the last statement finds a returning statement exactly when scanning forward does |
| ReturnAnalysis.BlockReturnCheck | ast/block.go:39-46 | The scan over a block computes the check |
| ReturnAnalysis.LoopCanSkipReturn | ast/loop.go:45-47 | A function that passes the check and whose run does not return |
| ReturnAnalysis.OutsideLoopsRunReturns | ast/conditional.go:53-55 | A run of statements that return outside their loops, if it comes to an end, has returned |
| FunctionBlocks.NeverFallsOffExactly | ast/function.go:116-212 | For every function, loops included, all blocks that can run have terminators iff it has no result type or its statements return on every path that skips the loops |
| FunctionBlocks.SkippedReturnFallsOff | ast/loop.go:45-47 | The function that skips its return passes the check and has a block that can run and ends without a terminator |
| FunctionBlocks.LoopFreeCheckIsExact | ast/function.go:95-114 | For loop-free functions the check itself passes iff every block that can run has a terminator |
| FunctionBlocks.UncheckedBlockOpen | ast/function.go:95-114 | With or without loops, a function that fails the check has a block that can run and ends without a terminator |
| FunctionBlocks.EndedRunsStayInside | ast/function.go:206-212 | Then no run falls off a block, and none is ever in a block that was padded |
| ReturnPaths.StmsDead | ast/conditional.go:57-98 | Code placed after statements that return outside loops, whole loops included, is only reached from blocks that cannot run |
| ReturnPaths.StmsEnd | ast/conditional.go:57-98 | Every block translation leaves behind has a terminator |
| OpenPaths.StmsOpen | ast/loop.go:49-81 | Statements that may skip their returns leave, from a block that can run, a block that can run and has no terminator |
| SingleAssignment.ProgramIsSingleAssigned | llvm/llvmProgram.go:27-41 | Over a whole program labels are distinct, each temporary has at most one defining instruction, and each use follows its definition in the same block |
| SingleAssignment.FunctionsApart | llvm/llvmProgram.go:27-41 | Labels and temporaries of an earlier function are below those of a later one |
| Temps.ExprChunk | ast/binaryexpr.go:122-174 | An expression defines its temporaries in increasing order, each before its uses, and its operand is among them |
| FlagHandoff.FunctionHandsOff | ast/conditional.go:74-81 | In every block, also when truncated, each conditional branch directly follows a select on its condition, or tests that select |
| FlagHandoff.BranchSeesCondition | ast/loop.go:67-74 | After the select, what the branch tests is 1 exactly when the condition was |
| FlatCode.BranchFollowsCondition | llvm/instructions.go:528-564 | In lowered code, the select and the branch go to the true label iff the condition's value is 1, on the flags of the select's comparison |
| BranchPlacement.FunctionBranchesLast | ast/conditional.go:80-96 | A conditional branch is the last instruction of its block, also when the block is cut |
| LinearScanSafety.ScanInvariant | llvm/llvmFunction.go:156-165 | After any prefix of the scan the registers of the active variables and the free ones partition the pool, every scanned variable has exactly one home, and overlapping ones never share a register |
| LinearScanSafety.FreeRegisterExists | llvm/llvmFunction.go:121-129 | With fewer than 15 active variables a least free register exists |
| LinearScan.PoolSize | llvm/llvmFunction.go:135-143 | The pool is registers 8 to 15 and 19 to 25, and their number, 15, is the count the scan uses |
| SpillOptimality.ScanIsOptimal | llvm/llvmFunction.go:131-166 | When no range is empty, any choice of registers in which overlapping ranges never share one leaves at least as many variables on the stack |
| SpillOptimality.SpillsNothingExactly | llvm/llvmFunction.go:156-165 | When no range is empty, the scan spills nothing iff at no point more than 15 ranges meet |
| SpillOptimality.LatestIsSpilled | llvm/llvmFunction.go:195-213 | What is spilled ends last among the new and the active variables, and an active one is only displaced by one that ends strictly before it |
| SpillOptimality.DisplacedHandsOver | llvm/llvmFunction.go:199-205 | A displaced variable leaves its register to the new one, and every other variable stays where it is |
| SpillOptimality.LeastIsTaken | llvm/llvmFunction.go:121-129 | With a register left, the new variable gets the least free one and nothing else moves |
| SpillOptimality.ScanIsFeasible | llvm/llvmFunction.go:131-166 | The choice the scan makes is itself such a choice |
| Allocator.Allocator.ExpireOldIntervals | llvm/llvmFunction.go:168-184 | Sorting, freeing and removing in place drop exactly the variables that ended before the new one starts |
| Allocator.Allocator.SpillAtInterval | llvm/llvmFunction.go:195-213 | The latest-ending of the new and the active variables is spilled; when it is an active one, the new one overwrites it in the caller's slice and takes its register |
| Allocator.Allocator.ExtractMin | llvm/llvmFunction.go:121-129 | Takes the least free register of the pool and never fails |
| Allocator.Allocator.Remove | llvm/llvmFunction.go:186-193 | Removes the first occurrence by shifting the tail down |
| Allocator.GenerateVarLocations | llvm/llvmFunction.go:131-166 | For whatever order equal starts come in: one home each, no shared register between overlapping ranges, distinct slots, and the fewest possible spills when no range is empty |
| Mentioning.StepDependsOnMentioned | llvm/instructions.go:1255-1266 | For every instruction of every kind, from memories with equal globals and events that agree on the entries it lists, the step faults, returns, branches or writes alike, and changes no other entry |
| Mentioning.TempsMentioned | llvm/instructions.go:1255-1266 | The temporaries an instruction lists are exactly those it uses or defines, an alloca apart |
| Mentioning.TempsStayLive | llvm/llvmFunction.go:107-116 | A temporary defined at one point and used at a later one, call arguments included, is live from the first to just before the second |
| LiveRanges.RangesOf | llvm/llvmFunction.go:105-119 | A range goes from the first mention to one before the last, or is the single point of the only mention |
| LiveRanges.CalculateLiveRanges | llvm/llvmFunction.go:92-119 | That, over the super-block of the blocks in printing order, each loop exit followed by copies of its loop's blocks |
| LiveRanges.LoopVariablesReachPastExit | llvm/llvmFunction.go:94-104 | A variable of a block whose loop exit comes later in the order is live throughout the exit's own instructions |
| BlockSimulation.GenerateVarLocationsLinearScan | llvm/llvmFunction.go:131-166 | Live ranges and scan together give good homes for the exact ranges |
| BlockSimulation.BlockSimulates | llvm/instructions.go:83-109 | After every instruction of a block whose instructions are lowered correctly under the allocated homes, running the lowered code keeps every variable that is still needed, every spilled one and every global equal to its IR value |
| BlockSimulation.RegisterBlockSimulates | llvm/llvmFunction.go:131-166 | For any block of loads, stores, arithmetic, comparisons and selects with variables written before they are read and at most 15 ranges meeting at any point, the scan spills nothing and the lowered code simulates the block, whatever the order of equal starts |
| BlockSimulation.DestOverlapsNeeded | llvm/llvmFunction.go:107-116 | A destination's range meets that of every variable still needed afterwards, although ranges end one before the last use |
| BlockSimulation.RangesAreProper | llvm/llvmFunction.go:107-116 | When variables are written before they are read no range is empty |
| BlockSimulation.AllocateBlock | llvm/llvmFunction.go:131-166 | A block with variables written before they are read gets good homes with the fewest possible spills, none iff at most 15 ranges meet at any point, and then every instruction is lowered correctly |
| LoweringExact.DeliversExactly | llvm/instructions.go:241-298 | From every state that agrees with the IR memory the lowered instruction writes the IR result to the place of its destination and changes no other place, iff it is not one of the four shapes of loads and stores of spilled variables below |
| LoweringExact.LoadFails | llvm/instructions.go:150-196 | A load into a spilled variable leaves its slot unchanged |
| LoweringExact.SpilledStoreFails | llvm/instructions.go:249-261 | A store of a variable to a spilled one writes whatever the scratch register holds |
| LoweringExact.GlobalStoreFails | llvm/instructions.go:283-290 | A store of a spilled variable to a global does not write it |
| LoweringExact.ShiftedStoreFails | llvm/instructions.go:284-287 | A store of a spilled parameter slot reads another cell |
| LoweringCorrect.LowerCorrect | llvm/instructions.go:150-196 | The lowered code of any other instruction, with spilled operands and immediates stored to spilled variables included, writes the IR result to the place of its destination and changes no other place |
| LoweringCorrect.BinOpCorrect | llvm/instructions.go:83-109 | Arithmetic, with operands fetched into scratch registers as needed |
| LoweringCorrect.ICmpCorrect | llvm/instructions.go:802-843 | Comparisons leave 1 or 0 |
| LoweringCorrect.SelectCorrect | llvm/instructions.go:528-564 | The select leaves 1 or 0 in its destination and the comparison with 1 in the flags |
| LoweringCorrect.FetchCorrect | llvm/instructions.go:56-81 | A fetched operand is in the returned register; only scratch registers changed |
| Assemble.Assemble | llvm/instructions.go:83-109 | Lowering with the scratch counter gives the specified code and hands back every scratch register |
| Assemble.FetchOperand | llvm/instructions.go:56-81 | The helper gives the specified code, register and counter |
| Assemble.AssembleStore | llvm/instructions.go:241-298 | Stores to globals and to variables in registers or spilled give the specified code, right or wrong |
| Assemble.AssembleLoad | llvm/instructions.go:150-196 | Loads from globals and variables into variables in registers or spilled give the specified code, right or wrong |
| Peephole.PeepholePreservesRuns | llvm/llvmProgram.go:125-152 | With unique labels and paired branches, a body exits in a state, or misses a label, exactly when its optimised form does |
| Peephole.PairMustEndBlock | llvm/llvmProgram.go:139-147 | A body with complementary pairs, one followed by an instruction, that the pass changes |
| Peephole.DeletedBranchRunsNext | llvm/llvmProgram.go:145-147 | With an instruction between a taken branch and its label, deleting the branch makes that instruction run; the code agrees at the label exactly if it changes nothing |
| Peephole.NoSelfMovesLeft | llvm/llvmProgram.go:128-133 | The pass adds nothing, and no move of a register to itself is left |
| FlatCode.PeepholePreservesFunctions | llvm/llvmProgram.go:118-152 | The pass preserves the runs of the body of every generated function, optimised or not, in any block order |
| BackEnd.PeepholePreservesLowered | llvm/llvmProgram.go:110-152 | The same for the concrete lowering of instructions, branches, returns and calls, under any homes and frame |
| BackEnd.LoweredBlockRuns | llvm/llvmProgram.go:118-123 | A block that runs to its terminator in the IR leaves, lowered, for the same label with what is still needed in place, or exits with the returned value in the first register |
| FlatCode.BodyIsPaired | llvm/instructions.go:716-723 | Bodies lowered from blocks whose conditional branches come last have paired branches, each pair followed by a label or the end |
| Assemble.Optimise | llvm/llvmProgram.go:125-152 | Of the instruction objects exactly the moves of a register to itself, the branches to the label that comes next and the conditional branches to a label one or two places ahead are deleted; the others stay in their order |
| Assemble.RemoveInstr | codegen/armFunction.go:88-95 | Deletes the object by shifting the rest down |
| FrameLayout.ArmFunction.GenerateVarLocations | codegen/armFunction.go:54-86 | Spill slots, the 26 register saves and the cells of later parameters are disjoint 8-byte cells between 16 and the frame size, a multiple of 16; the offset a store adds for parameter slots is never zero; parameters and variables live where the frame says |
| FrameLayout.ShiftIsAFrame | llvm/instructions.go:284-287 | A spilled parameter slot is looked for a whole frame above its cell, less 8 bytes for each parameter beyond the fourteenth |
| FrameLayout.LaidOutMatches | llvm/instructions.go:247-254 | Once the frame is laid out, the variables not in a register are exactly those in the table of spilled ones, by which stores decide |
| Calls.CallIsTransparent | llvm/instructions.go:1272-1359 | With at most eight arguments, argument n arrives in register n, and whatever the callee does to the other registers, afterwards the destination holds the result and every other saved register and the stack pointer are unchanged |
| Calls.FrameCallIsTransparent | llvm/instructions.go:1272-1359 | The same for a call inside a frame laid out for allocated variables, the callee keeping the stack pointer and the cells of the frame: every variable in another register keeps its value |
| Calls.FrameIsLaidOut | codegen/armFunction.go:54-86 | Laying out the frame of a function establishes what calls in it rely on |
| Calls.AssembleCall | llvm/instructions.go:1272-1359 | The emission loops give the specified sequence |
| Calls.FrameSavesWell | codegen/armFunction.go:67-74 | The frame gives every saved register a cell of its own, apart from spilled variables |
| AttributeMap.Parser.Walk | parser/parser.go:51-58 | After walking a tree in text order the map holds its bottom-up value under its start and is unchanged outside the tokens it covers |
| AttributeMap.Parser.Parse | parser/parser.go:51-61 | The program returned is the fold over the whole parse tree |
| Grammar.ListenerInverts | parser/parser.go:70-476 | For every rule and every form the grammar has under it, the listener, given what it sees of the production, builds the form |
| RoundTrip.FoldOfTree | parser/parser.go:51-476 | The fold of any parse tree of a syntax tree is that syntax tree, for literals, variables, calls, chains, statements, declarations, functions and programs alike |
| RoundTrip.FoldStarts | parser/parser.go:65-68 | A syntax tree is placed where its first word is |
| RoundTrip.WrittenIsRead | grammars/GoliteParser.g4:43-103 | Every syntax tree of the grammar has a parse tree in text order, and folding it gives the syntax tree back |
| RoundTrip.PhrasesHaveTrees | grammars/GoliteParser.g4:43-103 | The syntax trees with a parse tree are exactly those the grammar has |
| RoundTrip.ParseTree | parser/parser.go:51-61 | Parsing a parse tree of a syntax tree in text order returns that syntax tree, placed at its first word |
| AttributeMap.SiblingsApart | parser/parser.go:65-68 | Trees of siblings cover different positions, earlier ones earlier |

## Left out

- Structs, pointers, `new`, `delete` and `nil`, with the field chains and slot choices for them in assignments and expressions; only whole variables are read and written.
- Source variables named like temporaries (`r` and digits), which share a table with them; temporaries are entries of their own here.
- Type checking: programs are assumed to be well typed; the checks for unary operators and invocations are empty in the source.
- Lowering of `printf`, `scanf`, `malloc`, `free`, calls whose result is dropped, loads through pointers and arguments passed on the stack.
- Calls.CallIsTransparent: calls with more than eight arguments, with a raw parameter as an argument or with a spilled destination are not covered; stack-passed arguments and loads into spilled destinations are not part of the call model.
- Calls.AssembleCall: likewise at most eight arguments and a destination in a register.
- Lowering of stores of raw parameters to their slots in the prologue, and loads and stores through pointers.
- BlockSimulation.BlockSimulates: raw parameters are not operands of the block, so the copying prologue is covered by its meaning in the IR only.
- BlockSimulation.BlockSimulates: blocks with instructions that `Delivered` rejects are not covered, since their lowering is wrong.
- BlockSimulation.BlockSimulates: soundness of the allocation over a whole graph is not claimed, since printing order is not execution order and a nested loop does not pass on its outer exit.
- Peephole.PeepholePreservesRuns: the pairing condition is sufficient and met by all generated code; the exact condition is stated at the label a deleted branch leads to, not for whole runs, where a change made by the instruction in between may be overwritten later or the branch may never be taken.
- FrameLayout.ArmFunction.GenerateVarLocations: the first loop, which gives every parameter a register, is not modelled because the last loop overwrites each of its entries.
- Label and register names are numbers; the text of IR and assembly, format strings, type declarations and error messages are not modelled.
- Labels that blocks which cannot run still mention after optimisation.
- Lexing, the generated parser, file access and command-line flags; literals and operators keep their text in the syntax tree, the number an integer literal stands for is not computed.
- The symbol tables, except for the shadowing of globals by locals and parameters.
