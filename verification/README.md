# BLAST: a model of the compiler's core

This project models four stages of the BLAST compiler in Dafny and proves what
they are for. To check it, use `dafny verify dfyconfig.toml`.

1. **SSA construction, edge splitting and phi removal** (`Ast`, `Scoping`, `IR`,
   `Ssa*`, `Cfg`, `CriticalEdges`, `PhiElimination`, `Pipeline`, `Operators`,
   `CopiesGoWrong`). One
   function over 64-bit integers with arithmetic, comparisons, assignment,
   conditionals, loops and returns is lowered straight to a control-flow graph
   with phis, by the class `SSAIR` with the tables, unsealed blocks and incomplete
   phis of the original. The main theorem is that the graph returns what the
   source body yields, and, where the copies that replace phis are safe, so does
   the code with copies. `SsaState` holds the invariant; ghost logs record which
   symbol was bound where, and ghost trees record where each piece of source was
   emitted.
2. **Register allocation** (`Machine`, `Liveness`, `Coloring`,
   `GreedyColoring`, `MachineRun`, `ReadsAndWrites`, `Allocation`, `SelfMoves`, `Spilling`,
   `SpillingCorrect`, `Frame`, `Allocate`, `Rounds`, `FirmRounds`,
   `CallArguments`, `StackDepth`, `CalleeSaved`, `OneBlock`, `Reload`). Liveness
   is the least solution and equals a property of paths; colouring is safe;
   colouring, self-move removal and spilling keep every ending run, over any
   number of rounds; the frame follows sections 3.2.1 and 3.2.2 of the System V
   AMD64 ABI, calls are aligned, and a function with its frame keeps the
   callee-saved registers.
3. **Automata and the lexer** (`Nfa`, `NfaOps`, `NfaLaws`, `Dfa`, `Subset`,
   `DfaOps`, `Regex`, `Ranges`, `RangeAutomaton`, `Lexer`, `TokenRules`, `Words`). The
   algebra is right for every expression, through the invariant that nothing
   leads back to an initial state; tokenization is the unique cut into the
   longest words of the language.
4. **The expression parser** (`Grammar`, `Printer`, `Parser`, `SimpleParser`,
   `ParserOperators`).
   The two-stack parser agrees with a reference grammar and tree, in both
   directions, and parses back what is printed.

## How the model reads the source

- Integers are 64-bit with wrap-around (`Ast.Wrap`), and addition and
  multiplication wrap. A comparison yields 0 or 1; a condition holds when it is
  not 0.
- The AST's meaning is given with fuel; "yields v" means that some amount of
  fuel is enough. A theorem that says "exactly when" therefore covers divergence.
- An instruction of a machine function is named by its block and index, where
  the source uses its address; block ids are indices into the layout.
- A fixed vreg is its physical register. Registers are separate cells: all vregs
  of the allocation theorem are 64-bit, so aliasing matters to colouring only.
- Memory below RBP that the allocator hands out (`frame`) is kept apart from
  other memory. `Frame.AreasApart` is why that is sound.
- What a call does is a function of its argument registers, the stack pointer
  and memory; what it leaves in caller-saved registers is arbitrary, and
  different before and after allocation. Flags are the last operation that set
  them with its operands, and conditional jumps any function of those.
- The allocation theorem's premises (`Allocation.Prepared`) say what lowered code
  is like: no free vreg is live on entry, physical registers are named only if
  reserved, only jumps follow a jump (`Allocation.Lowered`); and that argument and
  result registers are held when a call or return reads them
  (`Allocation.CallsKeep`): nothing above writes a vreg of their colour.
- An operand that has no value makes arithmetic, branches and returns stuck, but
  not a copy, which then leaves its destination without a value too.
- Where the source picks from an unordered container or an unstable sort, the
  model picks arbitrarily, so the proofs hold for every choice.
- A parser or lexer exception is a result that says so; after a parser failure
  the stacks are unspecified.
- Lexing exceptions keep the tokens appended before, as in the source.

## Where code and comments disagree, or the code is not right

- `core/codegen/X86.cpp:213-214` says that liveness reads a RET's operand as a
  use. The use rules (`core/codegen/X86.cpp:880-934`) do not mention RET. The
  model follows the code; the MOV to RAX before it is the use.
- Phi copies are emitted one after the other (`core/codegen/X86.cpp:123-136`).
  `PhiElimination.CopiesExactIffNoClobber` says exactly when that is right;
  `CopiesGoWrong.SwapGoesWrong` gives a loop that exchanges two variables whose
  graph returns 1, as the function does, and whose code returns 2.
- Copies go before every terminator of a block, so before a RET that is followed
  by the jump `visitIfStmt` and `visitWhileStmt` append.
  `PhiElimination.EarlyReturnExact` says exactly when the returned value
  survives; `CopiesGoWrong.EarlyReturnGoesWrong` gives a function whose code
  returns 5 where it should return 3. `PhiElimination.LoweringExact` covers
  every graph in which both are right.
- Star and optional mark initial states accepting. `NfaLaws.StarExact` and
  `NfaLaws.OptionExact` say exactly for which automata that is right and
  `NfaLaws.StarAndOptionNeedIt` gives one for which it is wrong; for all that the
  constructors and operators build it is right.
- Spilling inserts loads between argument moves and their call, and the next
  round may give a reloaded vreg the register of an argument already in place,
  because a CALL lists no use of its argument registers.
  `Reload.ReloadGoesWrong` runs the allocator on f(x) = g(7, x) + x, on a machine
  with three registers to give, where x has to be spilled (`Reload.NoSafeColors`)
  and every run of the colouring loop takes its reload to RDI
  (`Reload.SecondForced`): g receives x instead of 7, and the function returns
  2 x for 7 + x when g returns its first argument. `CallArguments.ArgumentExact`
  says exactly when an argument reaches its call, and `Rounds.RoundsExact` that
  the allocator is right over any number of rounds if those of the code it colours
  in the end do.

## Model

| member | source | states |
|---|---|---|
| `SsaBuilder.LowerFunction` | core/ir/IR.cpp:199-234 | For every well-scoped body and every argument list, the graph that lowering and edge splitting leave returns v exactly when the body yields v (so both diverge together), no run gets stuck, and the graph is well formed, in SSA form, without critical edges and with exact predecessor and successor lists. |
| `Operators.LowerOperator` | core/ir/IR.cpp:10-20 | A function that returns p op q, lowered: for all words a and b it returns 1 if a op b holds and 0 if not when op is one of the six comparisons, and the word congruent to a + b or a * b modulo 2^64 for the other two operators; nothing else. |
| `Operators.AppliedYields` | core/ir/IR.cpp:10-20 | The same value is what the function yields before lowering. |
| `Scoping.ScopedExactly` | core/context/Resolver.cpp:24-142 | A body is well scoped if and only if each name it uses is a parameter or is declared above, in a scope that is still open there. |
| `SsaBuilder.SSAIR.VisitFctDecl` | core/ir/IR.cpp:199-234 | The graph built for one function has one operand per predecessor in each phi and none missing, defines each value once, reads on every run only registers assigned before, and returns what the body yields, 0 when the body does not return. |
| `SsaBuilder.SSAIR.GetLKO` | core/ir/IR.cpp:97-112 | The operand of a bound symbol is found and recorded; everything already recorded, emitted or linked stays. Terminates: the blocks without a recorded operand for the symbol, then the block number, decrease. |
| `SsaBuilder.SSAIR.GetLKORecursive` | core/ir/IR.cpp:51-92 | Lookup through predecessors: a pending phi in an unsealed block, the predecessor's operand where there is one, a filled phi at a join; the invariant holds again afterwards, loops included. |
| `SsaBuilder.SSAIR.FillPhi` | core/ir/IR.cpp:34-40 | Afterwards the phi has, in predecessor order, exactly the operand recorded for its symbol in each predecessor, and nothing else changed but further lookups. |
| `SsaBuilder.SSAIR.SealBlock` | core/ir/IR.cpp:42-49 | All pending phis of the block are filled from its final predecessor list, none is pending any more, and no other block is sealed or linked by it. |
| `SsaBuilder.SSAIR.VisitExpr` | core/ir/IR.cpp:134-164 | The code emitted for an expression is that of the expression, operands left to right, and its value is the operand returned. |
| `SsaBuilder.SSAIR.VisitIfStmt` | core/ir/IR.cpp:245-297 | Both arms are emitted between the branch and the join, nested statements included, and the join is sealed with both ends as predecessors. |
| `SsaBuilder.SSAIR.VisitWhileStmt` | core/ir/IR.cpp:299-337 | The condition block stays unsealed while condition and body are lowered, then is sealed with the loop's end as second predecessor; what was emitted is the loop. |
| `SsaBuilder.SSAIR.VisitBlock` | core/ir/IR.cpp:339-349 | Statements are emitted one after the other, each starting where the one before ended. |
| `SsaState.WithPhiKeepsInv` | core/ir/IR.cpp:57-66 | Adding an operandless phi and recording it keeps the invariant of the lookup tables, phis and pending lists. |
| `SsaState.InheritedKeepsInv` | core/ir/IR.cpp:71-76 | Recording the only predecessor's operand keeps the invariant. |
| `SsaState.WithIncomingKeepsInv` | core/ir/IR.cpp:34-40 | Adding one incoming operand keeps the invariant although the phi is only partly filled. |
| `SsaState.MissingDrops` | core/ir/IR.cpp:77-81 | Recording an operand strictly shrinks the set of blocks a symbol's lookup can still visit: the reason lookups end. |
| `SsaSteps.SealedKeepsInv` | core/ir/IR.cpp:42-49 | Sealing a block whose pending phis are filled keeps the invariant. |
| `SsaSteps.WrittenKeepsInv` | core/ir/IR.cpp:25-31 | Binding a symbol in a block that is still open keeps the invariant: nobody has looked the symbol up there for a successor. |
| `SsaSteps.AppendedKeepsInv` | core/ir/IR.hpp:458-461 | Appending an instruction keeps the invariant; its result is defined at that point only. |
| `SsaSteps.EdgesAfterBranch` | core/ir/IR.cpp:265-271 | After a terminator is appended, the predecessor lists are exactly the inverse of the branch targets. |
| `SsaForks.WhileLowered` | core/ir/IR.cpp:299-337 | The states a loop's lowering goes through compose to the emission of that loop. |
| `SsaForks.IfElseLowered` | core/ir/IR.cpp:245-297 | The states the lowering of a two-armed conditional goes through compose to its emission. |
| `SsaCorrect.SimExpr` | core/ir/IR.cpp:134-164 | From registers that agree with the environment, the code of an expression runs to its end, its operand has the expression's value, and registers agree with the environment after it, assignments inside included. |
| `SsaCorrect.SimJump` | core/ir/IR.cpp:34-40 | Over an edge the parallel phi assignment makes the registers agree at the target with the same environment. |
| `SsaCorrect.SimStmt` | core/ir/IR.cpp:192-197 | A statement's code, run from agreeing registers, returns the value the statement returns or reaches its end with agreeing registers; when the statement is still running the code can take that many steps. |
| `SsaCorrect.SimLoop` | core/ir/IR.cpp:299-337 | The same for a loop, round by round. |
| `SsaFunction.BodyMeaning` | core/ir/IR.cpp:199-234 | A finished graph never gets stuck and returns exactly what the body yields. |
| `SsaFunction.FinishedIsWellFormed` | core/ir/IR.cpp:34-92 | When lowering is done all blocks are sealed, end with a terminator, list their predecessors exactly, and every phi is labelled with them, once each. |
| `SsaFunction.FinishedIsSsa` | core/ir/IR.hpp:442-481 | No value id is defined twice and no argument is redefined. |
| `CriticalEdges.ResolveCriticalEdges` | core/ir/IR.cpp:442-544 | Fails, changing nothing, exactly when some non-empty block lacks a terminator; otherwise no critical edge is left, there is one block more for each critical edge there was, between the old blocks exactly those edges are gone, predecessor and successor lists are sorted and inverse to each other, phi labels are the predecessors, definitions stay, only one-jump blocks are added, and the same runs end the same way. |
| `CriticalEdges.SplitKeepsGraph` | core/ir/IR.cpp:499-534 | Splitting one edge keeps the sets, terminators and phi labels consistent. |
| `CriticalEdges.SplitCritical` | core/ir/IR.cpp:488-503 | Splitting one critical edge removes exactly that one from the critical edges. |
| `CriticalEdges.SplitStep` | core/ir/IR.cpp:499-534 | A step of the old graph is one step of the new one, or two through the inserted block. |
| `CriticalEdges.SplitSameEnds` | core/ir/IR.cpp:499-534 | For all arguments the graph before and after splitting one edge have the same ending runs. |
| `CriticalEdges.FindCritical` | core/ir/IR.cpp:486-497 | Finds exactly the edges from a block with several successors to one with several predecessors. |
| `CriticalEdges.SplitInPlace` | core/ir/IR.cpp:499-534 | The in-place edits of sets, terminator, new block and phi labels amount to redirecting that edge through a new block. |
| `PhiElimination.LowerBlock` | core/codegen/X86.cpp:118-140 | The loops emit the copies the successors' phis ask for before every terminator of the block, and the instructions in order. |
| `PhiElimination.CopiesExactIffNoClobber` | core/codegen/X86.cpp:123-136 | Copies one after the other equal the parallel assignment from every state if and only if no copy reads a register an earlier copy changed. |
| `CopiesGoWrong.SwapGoesWrong` | core/codegen/X86.cpp:123-136 | A loop that exchanges two variables: its graph is as lowering and edge splitting leave it and returns 1, as the function yields, while the code with copies returns 2. |
| `PhiElimination.EarlyReturnExact` | core/codegen/X86.cpp:119-139 | A return behind the copies (a block that returns before its jump) keeps its value from every state if and only if its operand still stands for itself; with copies that do not clobber, if and only if none changes the register it returns. |
| `PhiElimination.SafeExactly` | core/codegen/X86.cpp:118-140 | The copies of a block are safe, as LoweringExact asks, if and only if from every state they do what they should where control gets: in front of a jump assign as if at once, in front of a return leave it what it returns. |
| `PhiElimination.OriginHasValue` | core/codegen/X86.cpp:123-136 | Any copies, clobbering or not, leave an operand with the value that the operand it stands for had before. |
| `CopiesGoWrong.EarlyReturnGoesWrong` | core/codegen/X86.cpp:119-139 | A loop whose body returns: its graph is as lowering and edge splitting leave it and returns the argument 3, as the function yields, while the code with copies returns 5. |
| `PhiElimination.CopiesMeanMoves` | core/codegen/X86.cpp:123-136 | The copies of a block's phis assign in parallel what the phis assign on that edge. |
| `PhiElimination.JumpCopies` | core/codegen/X86.cpp:119-137 | After edge splitting, the copies before a jump do what entering its target does. |
| `PhiElimination.LoweringExact` | core/codegen/X86.cpp:108-140 | For graphs edge splitting leaves, returns anywhere in a block included, whose jumps are behind copies that do not clobber and whose early returns keep their operand: the code with copies and the graph with phis return the same and get stuck alike, for all arguments for which the graph does not get stuck. |
| `Pipeline.LowerToCopies` | core/codegen/X86.cpp:108-140 | From a function's body to code with copies: where the copies are safe the code returns v exactly when the body yields v, for all arguments. |
| `Liveness.Analyze` | core/codegen/X86.cpp:936-984 | The sweeps end, in a solution of the equations, and y is live at an instruction if and only if some path from it reaches a read of y with no write of y before: the least solution. |
| `Liveness.Sweep` | core/codegen/X86.cpp:957-984 | A sweep only adds, adds only what is live, reports a change exactly when there is one, and leaves a solution when there is none. |
| `Liveness.SolutionHasLive` | core/codegen/X86.cpp:942-947 | Every solution of the equations contains what is live, so the computed one is the least. |
| `ReadsAndWrites.UseIsExact` | core/codegen/X86.cpp:880-924 | An instruction uses a vreg if and only if running it can come out differently, elsewhere than in that vreg, for two values of the vreg. |
| `ReadsAndWrites.WrtIsExact` | core/codegen/X86.cpp:880-924 | It writes a vreg if and only if running it can change what the vreg holds. |
| `Liveness.Successors` | core/codegen/X86.cpp:827-863 | The successor map: inside a block the next instruction, after the last one the first instruction of exactly the non-empty blocks that list it as a predecessor. |
| `Liveness.BlockSuccessors` | core/codegen/X86.cpp:827-834 | Inverts the predecessor lists exactly. |
| `Liveness.LayoutOrder` | core/codegen/X86.cpp:948-954 | Lists every instruction once, ordered by block and then by place in the block. |
| `Coloring.BuildGraph` | core/codegen/X86.cpp:998-1016 | Two vregs are neighbours if and only if some instruction writes one of them while the other is live after it. |
| `Coloring.Operands` | core/codegen/X86.cpp:986-996 | Exactly the vregs some instruction names. |
| `Coloring.NarrowDomains` | core/codegen/X86.cpp:1018-1036 | A free vreg loses a colour of its domain if and only if the register is caller-saved and the vreg is live over some call; a fixed one loses none. |
| `Coloring.MovePartners` | core/codegen/X86.cpp:1075-1084 | Lists for each vreg, in the order of the instructions, the vregs it is copied to or from by a MOV. |
| `Coloring.FamilyIsNotApart` | core/codegen/X86.cpp:807-813 | In a consistent register table the family of a register holds exactly the registers that are it, its parent or one of its parts. |
| `Coloring.RootOf` | core/codegen/X86.cpp:1147-1153 | Follows parents to the register that has none, contains the part, and is reserved or caller-saved as the part is. |
| `Coloring.WholeIsRoot` | core/codegen/X86.cpp:1147-1153 | No other register without a parent contains the part. |
| `GreedyColoring.ColoredKeeps` | core/codegen/X86.cpp:1135-1170 | Colouring a node keeps all of: the graph is the rest of the whole graph, each vreg is waiting, coloured or spilled, domains have lost the families of coloured neighbours, neighbours have colours that share nothing, and the registers to save are known. |
| `GreedyColoring.SpilledKeeps` | core/codegen/X86.cpp:1106-1133 | Spilling a node keeps the same invariant. |
| `GreedyColoring.Pass` | core/codegen/X86.cpp:1087-1171 | One pass takes exactly one node out of the graph: the easiest one takes its first partner's colour or its least if it has a colour left and is spilled if not; without an easy one a hardest is spilled. |
| `GreedyColoring.PickEasy` | core/codegen/X86.cpp:1088-1101 | Among the nodes with fewer neighbours than colours, one with the smallest domain; none only if there is none. |
| `GreedyColoring.PickHardest` | core/codegen/X86.cpp:1103-1109 | A node with the most neighbours. |
| `GreedyColoring.PickColor` | core/codegen/X86.cpp:1134-1144 | The colour of the first move partner whose colour the domain allows, else the least of the domain. |
| `GreedyColoring.CountColors` | core/codegen/X86.cpp:1059-1073 | Counts the colours of the domain, in the order of their ids, that no colour counted before aliases. |
| `GreedyColoring.TakenApart` | core/codegen/X86.cpp:1059-1073 | The counted colours alias none of each other, and every colour is counted or aliased by one that is. |
| `GreedyColoring.ColorAllFixed` | core/codegen/X86.cpp:1038-1057 | Fixed vregs have their register, and each free one has lost exactly the registers that are one of its fixed neighbours' registers, its parent or a part of it. |
| `GreedyColoring.Color` | core/codegen/X86.cpp:1038-1171 | The loop ends with every vreg coloured from its domain or spilled, interfering ones apart, by passes as the loop makes them. |
| `Allocate.ColoringIsSafe` | core/codegen/X86.cpp:998-1171 | A colouring that spilled nothing gives clashing vregs different registers, keeps free vregs out of reserved registers, and out of caller-saved ones when they are live over a call. |
| `Allocate.AllocateRound` | core/codegen/X86.cpp:816-1358 | One round: either nothing is spilled and the function is recoloured safely, cleaned of self-moves and framed, saving exactly the whole registers behind the callee-saved colours of free vregs, or loads and stores are inserted with fresh disjoint slots below the ones in use. |
| `Allocation.RunKeepsSim` | core/codegen/X86.cpp:1269-1279 | After any number of steps of the code before and after colouring, each live free vreg's value is in its register, and memory and flags agree, whatever each call leaves in the caller-saved registers in either run. |
| `Allocation.StepKeepsSim` | core/codegen/X86.cpp:881-1057 | One instruction keeps that correspondence. |
| `Allocation.CallKeepsSim` | core/codegen/X86.cpp:926-933 | A call keeps it: registers it may destroy are not looked at again but for the result. |
| `Allocation.FreeWritten` | core/codegen/X86.cpp:998-1016 | Writing a free vreg keeps it, because what is live afterwards has other registers. |
| `Allocation.HeldSince` | core/codegen/X86.cpp:275-327 | An argument moved to its register is held up to the call over further argument moves and stack stores, as the lowered call sequence has them. |
| `Allocate.AllocationExact` | core/codegen/X86.cpp:1269-1288 | Colouring and deleting self-moves keeps the result and memory of every ending run, in both directions, for all start states, callees and scrambled registers. |
| `SelfMoves.SelfMovesDoNothing` | core/codegen/X86.cpp:1280-1288 | Code with and without MOVs from a register to itself has the same ending runs. |
| `SelfMoves.RemoveSelfMoves` | core/codegen/X86.cpp:1280-1288 | What is left of each block is, in order, exactly the instructions that do not copy a physical register to itself. |
| `Rounds.LoweredRound` | core/codegen/X86.cpp:1173-1264 | A round, with liveness found anew, leaves lowered code as lowering does. |
| `Rounds.SpillsAreSpillable` | core/codegen/X86.cpp:1173-1264 | What a round of the allocator spills in lowered code whose blocks end with jumps or returns, to slots below those in use, meets all that spilling asks for. |
| `Rounds.RoundsExact` | core/codegen/X86.cpp:1173-1356 | Any number of spilling rounds followed by a colouring keep the result and memory of every ending run, in both directions, if in the code that is coloured calls and returns find their registers held. |
| `Rounds.AllocateRounds` | core/codegen/X86.cpp:816-1358 | The allocator, round after round: slots of all rounds are apart, the frame is built for the last, and if the input was lowered code and calls and returns of the code that is coloured find their registers held, it means what it meant before. |
| `CallArguments.ArgumentExact` | core/codegen/X86.cpp:275-327 | Over the code lowering and spilling put between an argument's move and its call, the register has from every state the value it had before colouring if and only if it is held: no load between is into a vreg of its colour. |
| `FirmRounds.HeldAfterSpill` | core/codegen/X86.cpp:1247-1263 | A register is held in any colouring after a round if and only if it was before and no load is inserted between an instruction that gave it its value and the one reading it. |
| `FirmRounds.FirmRound` | core/codegen/X86.cpp:1247-1263 | The same for all calls and returns at once. |
| `FirmRounds.FirmRounds` | core/codegen/X86.cpp:1173-1356 | After rounds that put no such load, calls and returns find their registers held whatever the colours. |
| `FirmRounds.LoadsRelease` | core/codegen/X86.cpp:1256-1262 | After a load no register is held in every colouring. |
| `Reload.NoSafeColors` | core/codegen/X86.cpp:1018-1057 | No colouring of the example is safe: it has to spill. |
| `Reload.FirstForced` | core/codegen/X86.cpp:1087-1171 | Every run of the first round on it spills x and only x. |
| `Reload.SecondForced` | core/codegen/X86.cpp:1087-1171 | Every run of the second round colours it in full, x with the register of the first argument. |
| `Reload.ReloadGoesWrong` | core/codegen/X86.cpp:816-1358 | The allocator run on it, whatever it picks, makes code that returns 2 x where the code before returned 7 + x. |
| `Reload.FirstIsPrepared` | core/codegen/X86.cpp:270-337 | The example is lowered code, and before the first round its call and its return find their registers held. |
| `SpillingCorrect.SpillingExact` | core/codegen/X86.cpp:1173-1264 | If no block's last instruction touches a spilled vreg and none is read before it is written, code with loads and stores, redundant ones left out, has the same ending runs as the code before. |
| `SpillingCorrect.LoadsEnough` | core/codegen/X86.cpp:1208-1216 | Where a load is needed the slot holds the last written value, and where it is left out the vreg still does. |
| `SpillingCorrect.StoresEnough` | core/codegen/X86.cpp:1200-1207 | A store is left out only where the next instruction overwrites the vreg. |
| `SpillingCorrect.SpillStep` | core/codegen/X86.cpp:1247-1263 | One step is matched by the loads, the instruction and the stores, with every live spilled vreg in its slot or about to be overwritten. |
| `SpillingCorrect.RoundFrame` | core/codegen/X86.cpp:1243-1247 | After a round the code addresses the frame no further down than the new offset, so a later round's slots are apart from all earlier ones. |
| `SpillingCorrect.NewSlotsAreFree` | core/codegen/X86.cpp:1243-1247 | No operand of the code addresses a slot handed out in this round. |
| `Spilling.AssignSlots` | core/codegen/X86.cpp:1243-1247 | The slot of each spilled vreg is right below the slots of those before it; so slots lie between the old and the new offset and do not overlap, and the offset grows by the widths. |
| `Spilling.LoadNeeded` | core/codegen/X86.cpp:1208-1216 | A load is needed exactly when the instruction reads the vreg and nothing precedes it or something that precedes it does not touch the vreg. |
| `Spilling.StoreNeeded` | core/codegen/X86.cpp:1200-1207 | A store is needed exactly when the instruction writes the vreg and nothing follows or something that follows does not overwrite it. |
| `Spilling.InsertSpills` | core/codegen/X86.cpp:1218-1264 | The new code of a block is its instructions in order, each with loads right before and stores right after it: loads of exactly the spilled vregs it reads, unless something precedes it and all that may precede it reads or writes the vreg; stores of exactly those it writes, unless something follows and all that may follow writes the vreg. Both in increasing order, each once. |
| `Spilling.NothingBetweenWrites` | core/codegen/X86.cpp:1200-1216 | Between two instructions in a row that both write a vreg, as MOV t, a and ADD t, b do, that vreg is neither stored nor loaded. |
| `Spilling.Predecessors` | core/codegen/X86.cpp:1180-1186 | Inverts the successor map. |
| `Frame.BuildFrame` | core/codegen/X86.cpp:1290-1352 | The prologue and epilogue for a spill total and a set of registers, pushed in order and popped in the opposite order. |
| `Frame.PrologueAligns` | core/codegen/X86.cpp:1293-1347 | From an entry stack pointer 8 off a multiple of 16 the body starts with it aligned, RBP at the saved RBP, and the callee-saved registers in the cells above RSP, for every spill total and number of registers. |
| `Frame.EpilogueRestores` | core/codegen/X86.cpp:1338-1352 | After any RSP-balanced body that leaves those cells alone, RSP, RBP, every saved register and the caller's stack are as on entry. |
| `Allocate.SavedAreFree` | core/codegen/X86.cpp:1146-1154 | No register the frame saves is reserved, caller-saved or part of another. |
| `StackDepth.RspEverywhere` | core/codegen/X86.cpp:303-337 | At every instruction of every run of code that changes RSP by constants, RSP is as far down as the code of its block up to there takes. |
| `StackDepth.CallShape` | core/codegen/X86.cpp:303-337 | A call sequence with any number of stack arguments calls at a depth that is a multiple of 16 and gives all back. |
| `CalleeSaved.BodyAligned` | core/codegen/X86.cpp:1290-1352 | Entered as the ABI asks, a function has RSP at a multiple of 16 at every call it comes to, and back at every return. |
| `CalleeSaved.CalleeSavedKept` | core/codegen/X86.cpp:1338-1352 | After prologue, recoloured body and epilogue RSP, RBP, every callee-saved register and the caller's stack are as on entry and the result is where the body left it; that the body gives back its stack space, changes no callee-saved register the frame does not save, and not RBP, is proved of the code. |
| `CalleeSaved.FunctionKeepsRegisters` | core/codegen/X86.cpp:1173-1356 | Alignment and registers after any number of spilling rounds. |
| `Frame.AreasApart` | core/codegen/X86.cpp:1302-1334 | Spill slots, saved registers and outgoing arguments do not overlap. |
| `Frame.CallAligned` | core/codegen/X86.cpp:306-327 | With any number of stack arguments RSP is aligned at the call, argument i is at [RSP + 8 i], and nothing at or above the old RSP changed. |
| `Frame.CallRestores` | core/codegen/X86.cpp:334-337 | After the call RSP is back. |
| `Frame.StackArguments` | core/codegen/X86.cpp:306-337 | Emits the reservation, the stores and the release that CallAligned and CallRestores are about. |
| `NfaLaws.UnionLanguage` | core/Automata.hpp:81-147 | For all well-formed automata, epsilon moves included, the product accepts a word if and only if one of the two does. |
| `NfaLaws.UnionOk` | core/Automata.hpp:81-147 | The product is well formed. |
| `NfaLaws.ConcatLanguage` | core/Automata.hpp:150-194 | For all well-formed automata the concatenation accepts exactly the words of the first followed by a word of the second, despite the merged sinks. |
| `NfaLaws.ConcatOk` | core/Automata.hpp:150-194 | The concatenation is well formed. |
| `NfaLaws.PlusLanguage` | core/Automata.hpp:197-205 | Accepts exactly one or more accepted words in a row. |
| `NfaLaws.StarExact` | core/Automata.hpp:208-214 | Star accepts for all words exactly any number of accepted words in a row if and only if every word leading from an initial state to an initial state is such. |
| `NfaLaws.OptionExact` | core/Automata.hpp:219-224 | Option accepts for all words exactly the accepted ones and the empty one if and only if every word leading from an initial state to an initial state is accepted or empty. |
| `NfaLaws.StarLanguage` | core/Automata.hpp:208-214 | If nothing leads into an initial state: accepts exactly any number of accepted words in a row. |
| `NfaLaws.OptionLanguage` | core/Automata.hpp:219-224 | If nothing leads into an initial state: accepts exactly the accepted words and the empty one. |
| `NfaLaws.StarAndOptionNeedIt` | core/Automata.hpp:208-224 | A well-formed automaton that returns to its initial state for which star and option each accept a word too many. |
| `NfaOps.Union` | core/Automata.hpp:81-147 | The nested loops build the product: pairs row by row, each side on its sink where it has no transition. |
| `NfaOps.Concat` | core/Automata.hpp:150-194 | The loops build the concatenation with shifted states. |
| `NfaOps.Plus` | core/Automata.hpp:197-205 | Adds exactly the moves from accepting to initial states. |
| `Subset.SimpleClosure` | core/Automata.hpp:232-244 | The worklist ends with a set closed under epsilon moves of states one reaches from the start. |
| `Subset.Closure` | core/Automata.hpp:248-255 | Exactly the states reached without reading. |
| `Subset.Explore` | core/Automata.hpp:266-298 | The worklist ends; every key is a closed set of states that some word reaches, with its row, and rows lead to keys only. |
| `Subset.AllReachedAreKeys` | core/Automata.hpp:266-298 | The keys are exactly the non-empty sets of states some word reaches. |
| `Subset.Number` | core/Automata.hpp:300-308 | Numbers the sets from 0 without gaps or repetition, the initial one 0. |
| `Subset.RunTracks` | core/Automata.hpp:228-328 | After any word the deterministic automaton is at the number of the set of all states the word reaches, or in the sink if it reaches none. |
| `Subset.SubsetLanguage` | core/Automata.hpp:228-328 | It accepts a word if and only if the nondeterministic automaton does. |
| `Subset.Deterministic` | core/Automata.hpp:228-328 | The whole conversion keeps the language for every well-formed automaton; no transition leads back to the initial state when no symbol leads to where one starts; no new symbols. |
| `Dfa.LiftLanguage` | core/Automata.hpp:494-508 | The lift accepts the same words. |
| `Dfa.SymbolDfaOk` | core/Automata.hpp:374-382 | The symbol constructor accepts exactly its symbol and has no way back to the initial state. |
| `Dfa.ChainDfaOk` | core/Automata.hpp:391-406 | The chain constructor accepts exactly its word and has no way back to the initial state. |
| `Dfa.Automata.ProcessAll` | core/Automata.hpp:437-449 | From the initial state, afterwards accepting if and only if the word is recognized. |
| `DfaOps.Or` | core/Automata.hpp:454-456 | Union on deterministic automata: language, and again no way back to the initial state. |
| `DfaOps.Then` | core/Automata.hpp:459-461 | Concatenation, likewise. |
| `DfaOps.OneOrMore` | core/Automata.hpp:464-466 | One or more, likewise. |
| `DfaOps.AnyNumber` | core/Automata.hpp:469-471 | Any number, correct because of that invariant, which it keeps. |
| `DfaOps.Maybe` | core/Automata.hpp:476-478 | Optional, correct because of that invariant, which it keeps. |
| `Regex.Build` | core/Automata.hpp:372-478 | For every expression the operators build an automaton for exactly the words the expression denotes. |
| `Ranges.IntersectsIffShared` | core/RangeAutomata.hpp:13-14 | Non-empty ranges intersect exactly when they share a character. |
| `Ranges.MatchesIsSpelled` | core/RangeAutomata.hpp:9-16 | The characters an expression over ranges matches are those spelled by the words of ranges it denotes. |
| `RangeAutomaton.TracksMore` | core/RangeAutomata.hpp:76-84 | One character leads to where every word of ranges for the characters read leads, because ranges do not overlap, whatever order the row is searched in. |
| `RangeAutomaton.StuckForGood` | core/RangeAutomata.hpp:71-71 | Once stuck, no longer word is recognized. |
| `RangeAutomaton.RangeAutomata.Test` | core/RangeAutomata.hpp:69-91 | Reset and process accept exactly the recognized words. |
| `RangeAutomaton.BuildRanges` | core/RangeAutomata.hpp:45-111 | For every expression whose ranges are pairwise equal or without common characters, the automaton accepts exactly the words the expression matches. |
| `Lexer.RunMaximalMunch` | core/lexer/Lexer.cpp:150-163 | The end of the longest non-empty match, or the start if there is none; stopping when stuck loses nothing. |
| `Lexer.Tokenizer.BestRule` | core/lexer/Lexer.cpp:174-191 | The rule with the longest match, among equals the lowest priority number and then the first; none only if no rule matches. |
| `Lexer.Tokenizer.Process` | core/lexer/Lexer.cpp:165-207 | The input is cut into best matches up to its end or to the first position where no rule matches, which is the one reported; the kept lexemes are appended as tokens with the line and column of their start. |
| `Lexer.PartitionUnique` | core/lexer/Lexer.cpp:165-207 | There is one such cut only. |
| `Lexer.LexemesAreTheInput` | core/lexer/Lexer.cpp:165-207 | The lexemes, skipped ones included, concatenate to the input up to where it stopped. |
| `Lexer.OrderIrrelevant` | core/lexer/Lexer.cpp:103-109 | If no two rules of the same priority recognize the same word, tokens and error position do not depend on the order the rules are in. |
| `Lexer.CountLines` | core/lexer/Lexer.cpp:199-204 | The line is one more than the number of newlines before the position, and the line start the position after the last of them. |
| `TokenRules.BuildRules` | core/lexer/Lexer.cpp:11-109 | Each of the tokenizer's rules is an automaton for exactly the words of its expression, and no two of the same priority recognize the same word; which words they are and of what kind is said by Words.BestIsWord. |
| `Words.Tokenize` | core/lexer/Lexer.cpp:11-207 | For every input the tokens are its longest words one after the other, blanks left out, each with its kind, line and column, up to the end or to the first position where no word starts, which is reported. What is a word, and of what kind, is a table of blanks, keywords, punctuation and operators, and numbers, strings and names. |
| `Words.BestIsWord` | core/lexer/Lexer.cpp:11-109 | The best rule at a position matches exactly the longest word there and has the word's kind, a reserved word's before a name's. |
| `Words.WordAlone` | core/lexer/Lexer.cpp:60-101 | Each word of the table, each number, string and name, alone gives one token, of its kind, at line 1 and column 1. |
| `Words.BlanksAlone` | core/lexer/Lexer.cpp:61-62 | Blanks alone give no token and no error. |
| `Words.TokenizedOnce` | core/lexer/Lexer.cpp:165-207 | An input can be cut into longest words in one way only. |
| `TokenRules.SpecsUnambiguous` | core/lexer/Lexer.cpp:11-109 | No word is matched by two of the tokenizer's rules of the same priority. |
| `TokenRules.SpecsDisjoint` | core/lexer/Lexer.cpp:11-109 | No rule of the tokenizer mixes overlapping ranges. |
| `SimpleParsing.SimpleParser.ParseExpr` | core/parser/Parser.cpp:177-209 | Succeeds exactly where an expression of the grammar starts that nothing continues, consumes that one, which is the only one, pushes one tree, its reference tree, leaves the operator stack as it was and numbers as many nodes as the tree has. |
| `ParserOperators.ParseOne` | core/parser/Parser.cpp:11-27 | A name or literal, an operator and another are parsed if and only if the operator is one of * + > < <= >= == != or =, all three are read, and the tree is that operator applied to the two in their order. |
| `ParserOperators.ParseTwo` | core/parser/Parser.cpp:177-209 | With two operators the three operands group to the right exactly if the first is =, or the second is * and the first is not, or the second is + and the first a comparison. |
| `SimpleParsing.SimpleParser.FoldTighter` | core/parser/Parser.cpp:189-200 | Folding while the top does not give way keeps the tree of whatever follows, and leaves a stack on which each operator gives way to the next. |
| `SimpleParsing.SimpleParser.FoldRest` | core/parser/Parser.cpp:204-208 | Folding down to the floor leaves the one tree the stacks stand for. |
| `SimpleParsing.SimpleParser.ParseOperand` | core/parser/Parser.cpp:213-244 | Exactly one operand with all its member and call suffixes, the only one possible there. |
| `SimpleParsing.SimpleParser.ParseCallExpr` | core/parser/Parser.cpp:309-332 | Succeeds exactly on an argument list without trailing comma, and replaces the callee by the call. |
| `SimpleParsing.SimpleParser.ParseMemberExpr` | core/parser/Parser.cpp:295-307 | Succeeds exactly on a name or operator after the dot. |
| `SimpleParsing.Reparse` | core/parser/Parser.cpp:177-244 | Any tree printed with the parentheses it needs, followed by anything that ends an expression, is parsed back. |
| `Grammar.FoldKeepsTree` | core/parser/Parser.cpp:253-270 | Folding an operator that binds its operands tighter than its neighbours keeps the reference tree of the whole expression. |
| `Grammar.Split` | core/parser/Parser.cpp:11-27 | The operator applied last: one of least power, the leftmost if it is an assignment, else the rightmost, so equal operators group to the left and assignments to the right. |
| `Grammar.SplitUnique` | core/parser/Parser.cpp:11-27 | There is exactly one such operator. |
| `Grammar.PowersOrdered` | core/parser/Parser.cpp:11-27 | Times binds tighter than plus, plus tighter than comparisons, which bind alike, and those tighter than assignment. |
| `Grammar.MeaningReads` | core/parser/Parser.cpp:177-244 | The tree's in-order reading is the tokens consumed, without the parentheses that only group. |
| `Printer.PrintMeans` | core/parser/Parser.cpp:177-244 | A printed tree means that tree. |
| `Printer.PrintableExactly` | core/parser/Parser.cpp:177-244 | The trees that can be printed are exactly those of the expressions of the grammar. |
| `Parser.OneMoreItem` | core/parser/Parser.cpp:181-201 | With an operand read up to an operator, every expression that starts there begins with both. |

## Left out

- SsaBuilder.LowerFunction: one function at a time, over its own parameters and locals; calls, globals and nested declarations are not modelled, because the lookup tables are keyed by block id and not by function (core/ir/IR.hpp:573).
- SsaBuilder.SSAIR.GetLKO: called for bound symbols only; for an unbound one the source returns an operand that stands for none, which well-scoped functions never read.
- SsaBuilder.SSAIR.GetLKORecursive: the same.
- SsaBuilder.SSAIR.VisitExpr: integer literals, identifiers, arithmetic and assignments to identifiers; float, bool and string literals, member expressions and modules are rejected by the source. A variable read in its own initializer has no operand in the source either and is excluded by the scoping premise.
- Scoping.ScopedExactly: symbols are resolved already, so that names may be declared again in inner scopes does not show; a declaration inside a condition, which the grammar does not allow, is visible to the end of its statement.
- SsaBuilder.SSAIR.VisitBlock: a block's return statement, kept apart in the source, is the last statement of the list.
- IR instructions are one variant per kind, with a conditional branch carrying its operand, rather than one record with operand slots; labels, comments and types are left out.
- CriticalEdges.ResolveCriticalEdges: graphs without empty blocks, which lowering never leaves; critical edges are split in any order, where the source takes them in lexicographic order, which fixes the numbers of the new blocks.
- PhiElimination.LoweringExact: graphs with safe copies; SafeExactly says when those of a block are, and code behind unsafe copies that never runs is not told apart from code that does.
- PhiElimination keeps IR instructions as they are; instruction selection, comparisons turned into flags and argument moves are not modelled, except the stack part of a call (Frame) and the shape of its argument moves (Allocation.HeldSince).
- Rounds.AllocateRounds: gives up after a number of rounds, or when the frame passes 1 GiB; that the rounds end by themselves is not claimed, and the source does not guarantee it.
- Rounds.RoundsExact: needs that calls and returns of the code coloured in the end find their registers held; where they do not the code may be wrong (Reload).
- ReadsAndWrites.UseIsExact: not for a MOV or LEA whose destination is its source or cannot be written, which do nothing.
- ReadsAndWrites.WrtIsExact: the same.
- CallArguments.ArgumentExact: for the instructions lowering and spilling put between an argument's move and its call; in other code a vreg of the argument's colour may be written and the argument kept, by a copy of it (CallArguments.CopyKeeps).
- Reload.ReloadGoesWrong: a register table with three registers to give, all caller-saved; with more it takes more values live over the call.
- GreedyColoring.CountColors: decides which node goes next only; safety of the colouring does not depend on it.
- Spilling.InsertSpills: loads and stores are placed while each block's list is rebuilt, where the source inserts them in place vreg by vreg; the resulting lists are the same. Slot widths are given per vreg.
- SpillingCorrect.SpillingExact: vregs are 64-bit cells; a slot is one cell at its offset.
- CalleeSaved.CalleeSavedKept: the epilogue is printed before each RET (core/utils/Dump.cpp:729-733); that the body and the functions it calls leave the cells of the saved registers and what is above the frame alone is a premise. Registers are whole; that writing a part changes the whole is not modelled.
- The register table is abstract: parents, parts, reserved and caller-saved flags. Float, vector and narrower registers are not given a meaning.
- Automata hash functions, copies and moves, and the default empty automaton are left out; `MetaLexer::process` is not part of this model.
- RangeAutomaton.BuildRanges: overlapping ranges in one alphabet are excluded, because the row is searched in no fixed order.
- Lexer.Tokenizer.Process: the sort of the rules by priority is left out, because their order makes no difference (Lexer.OrderIrrelevant).
- TokenRules.BuildRules: characters are Unicode scalar values rather than signed bytes.
- SimpleParsing.SimpleParser.ParseExpr: tokens carry no locations and literals keep their text; number conversion, which may throw, and statement parsing are left out. Node numbers are counted, not stored.
- Driver, dumps, tracing output, builtins in assembly, scope and type resolution are left out: they add no hard property.
