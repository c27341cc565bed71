# Verified models of ppci, pyftdi and the debug tools

This project models the hard parts of the repository in Dafny and proves what
they are for. It has four parts.

**The ppci back end.** A program is a list of instructions with used, defined
and clobbered registers, jumps and moves, run by a small register machine.
Liveness is the least fixpoint of the flow graph, the interference graph has an
edge for exactly the registers that meet, and every step of iterated register
coalescing keeps the invariant from which a proper colouring follows. Spilling
and colouring preserve what the program does, and `AllocFrame.AllocFrame` puts
all of it together: a function that is allocated has only physical registers and
behaves as before. Tree matching finds a tiling whenever there is one, and the
cheapest one when chain rules are unique. The peephole stream drops jumps
without changing any run.

**The linker and object images.** Merging sections and symbols, laying sections
out and punching relaxation holes keep bytes, symbols, relocations and images
consistent. Linking in stages is linking at once.

**The JTAG stack.** The device is the TAP controller of section 6.1 of IEEE Std
1149.1 with its shift registers. The host's shadow of its state never goes
astray, registers are read and written as promised, and the FTDI transport,
packing bits into commands, cannot be told from bit-banging.

**Smaller cores.** The FTDI read buffer conserves the stream, which baud rates
get the closest divisor is decided for every device, Intel HEX files are loaded as they were
saved, and binaries arrive in memory through RISC-V instructions (sections 2.4
and 2.6 of the RISC-V Unprivileged ISA) and through the system bus (section 3.12
of RISC-V External Debug Support 0.13.2).

Objects whose methods update fields are classes; their methods are proved equal
to functions on values, and the properties are lemmas about those functions.

Where the code does not do what one would expect, the project says when:

- a flow graph has no fall-through edges (`FlowGraphs.FallThroughExact`,
  `FlowGraphs.FallThroughIsMissed`);
- coalescing may cost a spill: Briggs' test does not count precoloured neighbours,
  and the test for a register takes an edge to an alias for one to it
  (`CoalescingTest.BriggsTestIsSafe`, `CoalescingTest.CombinedNoSpillWhen`,
  `CoalescingFails.BriggsForgetsRegisters`,
  `CoalescingFails.AliasTakenForRegister`);
- freezing raises on a move within one node (`OneClass.FreezeChecked`,
  `FreezeRun.FreezeRaises`);
- a frame that grows up may hand out slots that are not aligned, and that
  overlap: all are aligned exactly when every request suits the stack it finds
  (`Frames.LocationsAreApart`, `Frames.BottomMayOverlap`);
- a pattern with an open end that the tree does not have shifts the goals of its
  kids (`BurgCover.MissingChildShiftsGoals`);
- labels may stay too dear when chains are not unique (`BurgTricky.NotCheapest`);
- `shift_register` loses track from `exit_2`, and the first bit sent
  (`Sessions.ShiftRegisterLosesTrack`, `Sessions.ExitReturns`);
- the FTDI transport refuses three changes of state (`TapPaths.LongPaths`);
- packed and bit-banged events differ when a deferred bit meets a later shift
  (`Transports.EventsAlike`, `Transports.LateShiftDiffers`);
- a hex region that fills a gap loses the region behind it
  (`HexAdding.BytesAreKept`, `HexAdding.GapLosesByte`), and an empty one blocks
  those that cover its address (`HexAdding.EmptyRegionBlocks`);
- a section placed in two memories leaves the first of them without an error
  (`Layouts.SharedSectionMoves`, `Layouts.GoodWhenDistinct`), and relaxation
  moves it for each of its images (`RelaxedObjects.SharedSectionOverlaps`);
- baud rates between 1.75 and 2.67 MHz are not the closest on devices that are
  not legacy ones, since the divisor 12 is tried on legacy devices instead, which
  do not have it (`Baud.ClosestIsChosen`, `Baud.FarRateIsChosen`,
  `Baud.LegacyClosest`, `Baud.LegacyTwelve`);
- relaxation keeps the alignment of a byte only when what is lost before it is a
  multiple of that (`RelaxedObjects.AlignmentSurvives`,
  `RelaxedObjects.AlignmentIsLost`);
- a bus read makes the next Pulp write go astray (`Pulp.WriteAfterRead`).

`dafny verify dfyconfig.toml` checks the whole project.

## Model

| member | source | states |
|---|---|---|
| FlowGraphs.FallThroughExact | ppci/codegen/flowgraph.py:50-91 | the edges of the flow graph are the machine's control flow exactly when every leader after the first follows a jump |
| FlowGraphs.FallThroughIsMissed | ppci/codegen/flowgraph.py:77-86 | a concrete program in which the instruction before a jump target has no successor in the flow graph, though the machine goes on there |
| Dataflow.SolutionIsLeast | ppci/codegen/flowgraph.py:106-158 | when the iteration stops, a register is in a node's live_in exactly when some path from there generates it before anything kills it |
| FlowGraphs.LiveWhen | ppci/codegen/flowgraph.py:106-158 | a register is live exactly where some way through the code leads to a use of it with no definition before |
| FlowGraphs.NodesAgreeWithInstructions | ppci/codegen/flowgraph.py:21-29 | gen and kill bundled over a node have, at every leader, the least solution of the per-instruction equations |
| Liveness.FlowGraph.FindLeaders | ppci/codegen/flowgraph.py:53-75 | a node for exactly the leaders: the first instruction, jump targets, and what follows a jump |
| Liveness.FlowGraph.AddEdges | ppci/codegen/flowgraph.py:77-86 | edges from every node to the nodes of its jump targets, and no others |
| Liveness.FlowGraph.Bundle | ppci/codegen/flowgraph.py:21-29 | every other instruction is bundled into the node it follows, gen and kill composed in order |
| Liveness.FlowGraph.CalculateLiveness | ppci/codegen/flowgraph.py:106-158 | terminates, and live_in and live_out of every instruction hold exactly the registers that are used on some path before they are defined again |
| Liveness.FlowGraph.FixInstructions | ppci/codegen/flowgraph.py:136-158 | one pass backwards through every node turns the sets of nodes into those of instructions |
| Interference.InterferenceGraph.CalculateInterference | ppci/codegen/interferencegraph.py:52-79 | an edge for every two registers that are live together, or live across a clobber, and no other edge; a node for exactly the registers that occur; uses and definitions of each register recorded, each as often as there are operands |
| Interference.InterfereWhen | ppci/codegen/interferencegraph.py:52-72 | two registers interfere exactly when behind some instruction each is either just defined or used on some way before any definition, or one is so and the other clobbered there |
| Interference.InterferenceGraph.GetNode | ppci/codegen/interferencegraph.py:86-97 | a node on first sight, without touching any edge |
| Graphs.UnmaskRestores | ppci/graph/maskable_graph.py:19-40 | masking a node and unmasking it restores the graph with every edge |
| Graphs.MaskableGraph.MaskNode | ppci/graph/maskable_graph.py:19-29 | the node leaves the neighbours of its neighbours, and the graph stays symmetric |
| Graphs.MaskableGraph.UnmaskNode | ppci/graph/maskable_graph.py:31-40 | the node comes back with the edges it had |
| Graphs.MaskableGraph.Combine | ppci/graph/maskable_graph.py:46-70 | all edges of the second node, those to masked nodes included, lead to the first one, and the second node is gone |
| PqTest.BlockedCombine | ppci/codegen/registerallocator.py:382-400 | replacing two neighbours by one of a common subclass never blocks more registers, so that coalescing cannot make a passing neighbour fail |
| PqTest.TakenIsBlocked | ppci/codegen/registerallocator.py:369-400 | neighbours never take more registers of a class than the test has counted, whatever registers they got |
| PqTest.RegisterLeft | ppci/codegen/registerallocator.py:382-400 | a node that passes the test has a register left, whatever its neighbours got |
| OneClass.CheckInvariants | ppci/codegen/registerallocator.py:686-703 | the assertions of check_invariants follow from the invariant that every step keeps with one class, and each linked move is in exactly one of active and worklist |
| OneClass.SimplifyChecked | ppci/codegen/registerallocator.py:409-441 | with one register class, simplifying keeps the invariant of check_invariants |
| OneClass.CoalesceChecked | ppci/codegen/registerallocator.py:443-488 | with one register class, coalescing never raises, keeps the invariant, and finishes with the move or parks it |
| CoalescingTest.CoalesceDecides | ppci/codegen/registerallocator.py:443-522 | said of the graph: a move within one node is coalesced, one between nodes with an edge (or an edge to an alias) is constrained; of the others, it is parked exactly when a neighbour that fails the pq-test is not next to the register yet, or the neighbours that fail could take all registers, and coalesced otherwise |
| CoalescingTest.PrecolouredTestIsSafe | ppci/codegen/registerallocator.py:475-501 | with one class and no aliases of the register: nodes that could be simplified one by one without a spill still can after the combination that the test allows |
| CoalescingTest.BriggsTestIsSafe | ppci/codegen/registerallocator.py:503-522 | with one class the same, where the two have no precoloured neighbours, or these are counted too; and never where the precoloured neighbours alone take all registers |
| CoalescingTest.CombinedNoSpillWhen | ppci/codegen/registerallocator.py:524-548 | exactly: the combination costs no spill when the combined node leaves a register among the nodes that stay as long as it does |
| Shedding.CombinedShedsWhen | ppci/codegen/registerallocator.py:524-548 | the same of a graph: it can be emptied node by node after two are combined exactly when the combined one is light among those that stay as long as it does |
| CoalescingFails.BriggsForgetsRegisters | ppci/codegen/registerallocator.py:503-522 | two nodes next to one register each, of two: none would be spilled, the test combines them, and the result must be |
| CoalescingFails.AliasTakenForRegister | ppci/codegen/registerallocator.py:474-501 | a neighbour next to an alias of the register: the test takes that for an edge, and the neighbour must be spilled |
| CoalescingTest.DegreeTest | ppci/codegen/registerallocator.py:382-400 | with one class and without aliases the pq-test is whether a node has fewer neighbours than there are registers |
| ParkedMoves.SimplifyKeepsParked | ppci/codegen/registerallocator.py:409-441 | simplifying a node puts back the moves that it may have made possible: every move still parked would still be refused |
| OneClass.FreezeMoveChecked | ppci/codegen/registerallocator.py:568-597 | giving up one move raises exactly for an identity move that is the node's last one |
| OneClass.FreezeChecked | ppci/codegen/registerallocator.py:568-597 | freezing a node raises exactly when the move it gives up last has both ends in one node; otherwise it keeps the invariant and loses linked moves |
| FreezeRun.FreezeRaises | ppci/codegen/registerallocator.py:568-597 | the state in which freezing raises is reached from init_data: two registers, four temporaries and three moves, two of them alike; a run of allocator steps ends where a node that is frozen has an identity move left, in every order of its moves |
| OneClassRuns.RunChecked | ppci/codegen/registerallocator.py:246-261 | with one register class, every run from init_data keeps the invariant of check_invariants |
| OneClassRuns.RaisesWhen | ppci/codegen/registerallocator.py:246-261 | with one register class, the step after a run can raise exactly when nothing is left to simplify or coalesce and some node to be frozen may give up last a move with both ends in one node |
| AllocatorRuns.StepKeeps | ppci/codegen/registerallocator.py:246-261 | every simplify, coalesce and freeze step, for any register classes, keeps the invariant, loses no move and no register, and strictly decreases the measure |
| AllocatorRuns.RunKeeps | ppci/codegen/registerallocator.py:246-261 | every run of steps keeps the invariant and is no longer than the measure it started with: the main loop ends |
| Initialization.InitialGood | ppci/codegen/registerallocator.py:299-340 | after init_data the invariant holds, no move or register is missing, and spill nodes fail the test |
| Assignment.RegisterIsFree | ppci/codegen/registerallocator.py:646-662 | however the worklists were emptied, every node popped from the select stack finds a free register |
| Assignment.ChosenIsProper | ppci/codegen/registerallocator.py:646-662 | registers come from the class of each temporary, interfering ones do not alias, both ends of a coalesced move get the same one, and physical registers stay what they are |
| RegisterAllocator.GraphColoringRegisterAllocator.InitData | ppci/codegen/registerallocator.py:299-340 | the object's fields are the initial state of the graph and its moves |
| RegisterAllocator.GraphColoringRegisterAllocator.IsColorable | ppci/codegen/registerallocator.py:382-400 | the loop computes the pq-test: precoloured, or fewer registers blocked than there are |
| RegisterAllocator.GraphColoringRegisterAllocator.SimplifyNode | ppci/codegen/registerallocator.py:409-441 | the new fields are the simplify step of the old ones, for a node of the worklist |
| RegisterAllocator.GraphColoringRegisterAllocator.CoalesceMove | ppci/codegen/registerallocator.py:443-566 | the new fields are the coalesce step of the old ones, and it raises where that does |
| RegisterAllocator.GraphColoringRegisterAllocator.FreezeNode | ppci/codegen/registerallocator.py:568-597 | the new fields are the freeze step, moves taken in any order, and it raises where that does |
| RegisterAllocator.GraphColoringRegisterAllocator.ColorRound | ppci/codegen/registerallocator.py:246-261 | runs to empty worklists or to a node to spill, with the invariant kept and nothing lost; the states it goes through are a run of allocator steps, and it fails only where such a step raises |
| RegisterAllocator.GraphColoringRegisterAllocator.AssignColors | ppci/codegen/registerallocator.py:646-662 | pops the whole stack and gives every node a register that no neighbour shares |
| Recoloring.RunAgrees | ppci/codegen/registerallocator.py:664-684 | at every point of every run, the coloured program without its coalesced moves is at the corresponding instruction, with the same memory and every live register's value in its colour, clobbers included |
| Recoloring.EveryKeptStep | ppci/codegen/registerallocator.py:664-684 | every step of the coloured program is one of the original, or the original has halted |
| Recoloring.AllocationPreservesMeaning | ppci/codegen/registerallocator.py:664-684 | the coloured program halts exactly when the original does, with the same memory |
| SpillMeaning.SpilledRunMirrors | ppci/codegen/registerallocator.py:621-644 | along every run, the program with loads before reads and stores after writes mirrors the original, the one slot holding whichever spilled temporary is live |
| SpillMeaning.SpillingPreservesMeaning | ppci/codegen/registerallocator.py:621-644 | the rewritten program halts exactly when the original does, with the same memory |
| SpillPremises.EntryStaysClean | ppci/codegen/registerallocator.py:621-644 | no virtual register becomes live at the entry by spilling |
| SpillPremises.PhysicalStaysApart | ppci/codegen/registerallocator.py:621-644 | aliasing physical registers are never live together in the result, if they were not before |
| SpillPremises.LeadersStillFollowJumps | ppci/codegen/registerallocator.py:621-644 | spill code leaves every leader behind a jump |
| Rewriter.RewriteProgram | ppci/codegen/registerallocator.py:621-644 | the loops over temporaries and their instructions do one rewrite with a fresh register for every occurrence, and leave no temporary behind |
| Rewriter.RewriteOne | ppci/codegen/registerallocator.py:629-644 | replacing the register, loading before and storing after amount to one rewrite in place |
| Frames.LocationsAreApart | ppci/arch/stack.py:66-92 | all slots ever handed out are aligned exactly when every request suits the stack it finds: growing down always, growing up where nothing had to be aligned or the size is a multiple of the alignment; they are then pairwise disjoint and inside the stack |
| Frames.BottomAlignedWhen | ppci/arch/stack.py:85-92 | growing up, a slot is aligned exactly when nothing had to be aligned or the size is a multiple of the alignment |
| Frames.BottomAboveWhen | ppci/arch/stack.py:85-92 | growing up, a slot lies above the whole stack before it exactly when nothing had to be aligned or the size is at least the misalignment |
| Frames.BottomMayOverlap | ppci/arch/stack.py:85-92 | a concrete request that overlaps the slot before it and is not aligned |
| Frames.TopIsNearest | ppci/arch/stack.py:76-84 | growing down, the slot is the highest aligned one below the stack |
| Frames.Frame.Alloc | ppci/arch/stack.py:66-92 | refuses zero bytes and alignment zero as the source does, with the fields as it leaves them; otherwise keeps all slots where the requests put them, aligned and apart if every request suits |
| Frames.Frame.InsertCodeBefore | ppci/arch/stack.py:146-150 | the code goes right before the instruction and nothing else moves |
| Frames.Frame.InsertCodeAfter | ppci/arch/stack.py:152-156 | the code goes right behind the instruction and nothing else moves |
| Frames.Frame.RemoveInstructions | ppci/codegen/registerallocator.py:664-667 | removing the coalesced moves one by one leaves the others in order |
| Frames.Frame.ApplyColors | ppci/codegen/registerallocator.py:669-684 | every register of every instruction gets its colour, instruction by instruction |
| Compilability.SpillingKeepsCompilable | ppci/codegen/registerallocator.py:599-644 | what the allocator needs of a program still holds after a spill round |
| Compilability.SpillingKeepsMeaning | ppci/codegen/registerallocator.py:599-644 | a spill round does not change what the program does |
| AllocFrame.ColoringKeepsMeaning | ppci/codegen/registerallocator.py:262-265 | colouring and removing coalesced moves does not change what the program does |
| AllocFrame.CanStart | ppci/codegen/registerallocator.py:282-340 | liveness and interference of any such program give the allocator a state that it can start from |
| AllocFrame.Spill | ppci/codegen/registerallocator.py:599-645 | a spill round fails exactly for a slot of no bytes; otherwise it takes one more slot, of the size and alignment of the class, and keeps the meaning |
| AllocFrame.AllocFrame | ppci/codegen/registerallocator.py:234-265 | end to end: a program that is allocated has only physical registers and halts exactly as before, with the same memory, after at most 30 spill rounds, its slots apart and of the sizes of classes; it is a program that does the same, in order and recoloured, without the moves that a run of the allocator has coalesced; it raises only in a round, on a program that still does the same, that has a step that raises, a slot of no bytes for the cheapest node, or a node to spill without neighbours, and gives up only after 30 rounds with a node left to spill |
| AllocFrame.EmitIsRecolored | ppci/codegen/registerallocator.py:664-684 | what comes out is what went in, instruction by instruction and in order, recoloured, and without the coalesced moves |
| SpillChoice.SelectSpill | ppci/codegen/registerallocator.py:605-617 | the node selected has the lowest quotient of operands and neighbours of all that may be spilled; the division fails exactly when one of them has no neighbours |
| AllocFrame.SpillCheapest | ppci/codegen/registerallocator.py:599-619 | one spill round: without a slot or a node to be had it raises, and the program is as it was |
| AllocFrame.StuckWithoutRegisters | ppci/codegen/registerallocator.py:608-617 | with one register class the division fails only where the class has no register |
| AllocFrame.RoundRaisesWhen | ppci/codegen/registerallocator.py:246-261 | with one register class, a round on a program can raise exactly when some run of it reaches a node to be frozen that may give up last a move with both ends in it |
| BurgKids.KidsInOrder | ppci/codegen/burg.py:224-233 | the subtrees are those at the open ends of the pattern, all of them that the tree reaches, from left to right |
| BurgCover.MatchesWhen | ppci/codegen/burg.py:206-222 | a pattern matches a tree exactly when at every path through terminals of the pattern that the tree has too, both have the same terminal |
| BurgCover.AppliesWhen | ppci/codegen/instructionselector.py:178-190 | a rule with a terminal at its root can be used exactly when its terminals are those of the tree and its condition holds |
| BurgCover.GoalsAtKids | ppci/codegen/burg.py:224-244 | where the tree reaches all open ends, the k-th goal is the non-terminal at the place of the k-th kid, from left to right |
| BurgCover.MissingChildShiftsGoals | ppci/codegen/burg.py:224-244 | where it does not, a kid goes with the wrong goal: a concrete tree and pattern |
| BurgCover.TilingRebuilds | ppci/codegen/instructionselector.py:209-223 | the patterns of a tiling, put in place of each other's open ends, have the terminals of the tree at every path that both have |
| BurgCover.TilingIsTree | ppci/codegen/instructionselector.py:209-223 | where terminals have fixed numbers of children, they are the tree |
| BurgSelection.LabelledWhenDerivable | ppci/codegen/instructionselector.py:170-207 | a node has a label for a goal exactly when some tiling derives that goal |
| BurgSelection.TilingIsSound | ppci/codegen/instructionselector.py:209-223 | following the labels ends, in a tiling that derives the goal and costs no more than its label |
| BurgSelection.TilingIsCheapest | ppci/codegen/instructionselector.py:170-223 | with at most one chain of rules between two non-terminals, the label is the cost of the emitted tiling and no tiling is cheaper |
| BurgTricky.NotCheapest | ppci/codegen/instructionselector.py:199-207 | with two chains it is not: a tiling of cost 5 is emitted although there is one of cost 3 |
| BurgChains.MarkTight | ppci/codegen/instructionselector.py:199-207 | with unique chains, labelling leaves no chain rule that could make a label cheaper |
| BurgMarking.MarkExplores | ppci/codegen/instructionselector.py:199-207 | every chain rule from a new label has been looked at when labelling returns |
| BurgMarking.MarkRanks | ppci/codegen/treematcher.py:16-24 | labels always come from a rule that was set with that cost |
| Selector.BurgSystem.AddTerminal | ppci/codegen/burg.py:203-204 | a name becomes a terminal unless it is a non-terminal |
| Selector.BurgSystem.InstallNonTerm | ppci/codegen/burg.py:175-201 | a name becomes a non-terminal unless it is a terminal, and then has empty lists of rules |
| Selector.BurgSystem.AddRule | ppci/codegen/burg.py:149-163 | refuses rules for terminals, and patterns with children and an unknown root; otherwise both maps list the new rule behind the ones before it, among the chain rules only for a lone non-terminal |
| Selector.TreeSelector.MarkTree | ppci/codegen/instructionselector.py:199-207 | the recursive update of labels and marked rules is the marking function |
| Selector.TreeSelector.BurmLabel | ppci/codegen/instructionselector.py:170-197 | every node of the tree gets the labels of the specification, bottom up |
| Selector.TreeSelector.ApplyRules | ppci/codegen/instructionselector.py:209-223 | what is emitted is the tiling of the labels, rules below before the rule above |
| Selector.TilingAssembled | ppci/codegen/instructionselector.py:209-223 | the emission of a tiling is its postfix form: taking the results of its kids for every rule leaves the tiling |
| Selector.TreeSelector.Gen | ppci/codegen/instructionselector.py:160-168 | refused exactly when no tiling derives the goal; otherwise the emission is that of a tiling, which can be read back from it and whose patterns put together are the tree, and the cheapest one when chains are unique |
| Objects.ImageExists | ppci/binutils/objectfile.py:167-182 | the data of an image can be built exactly when its sections are in order, and reaches from its address to the end of the last section |
| Objects.ImageHolds | ppci/binutils/objectfile.py:167-182 | an image holds the bytes of every section at its address |
| Objects.ImageGaps | ppci/binutils/objectfile.py:167-182 | every byte of an image that no section covers is zero |
| Objects.OrderKeepsApart | ppci/binutils/objectfile.py:167-182 | sections in order are apart and inside the image |
| Objects.ObjectFile.ImageData | ppci/binutils/objectfile.py:167-182 | the loop over sections computes the image, or raises where it does not exist |
| PartialLinking.LinkingInStages | ppci/binutils/linker.py:188-297 | linking a prefix and then that result with the rest gives the same sections, symbols, relocations, entry and errors as linking all at once |
| PartialLinking.FailsInStages | ppci/binutils/linker.py:188-297 | a prefix that cannot be linked makes the whole fail in the same way |
| PartialLinking.InjectIntoEmpty | ppci/binutils/linker.py:194-269 | injecting a linked object into an empty one gives it back |
| LinkErrors.LinksWhen | ppci/binutils/linker.py:188-297 | objects can be linked exactly when each refers to its own sections and symbols only and has alignments, no global symbol is defined twice, and at most one has an entry; the result has an entry when one of them has |
| LinkErrors.PaddedToNext | ppci/binutils/linker.py:199-217 | a section is padded to the next aligned offset, and no further |
| LinkOrigins.NothingIsInvented | ppci/binutils/linker.py:188-297 | every section of the output has the name of an input section and the largest of 4 and the alignments of its parts, every symbol has the name of an input symbol, and the relocations are those of the inputs in order |
| Placement.LinkPlaces | ppci/binutils/linker.py:194-269 | every object that is linked is found in the result: its bytes at one offset a section, its symbols, relocations and entry moved with them |
| Placement.SymbolKeepsItsByte | ppci/binutils/linker.py:226-297 | a defined symbol denotes the byte that it denoted in its own object |
| Layouts.LayoutIsGood | ppci/binutils/linker.py:299-365 | a layout that places no section twice never overlaps, and every image has its sections in order, apart, aligned and inside the memory |
| Layouts.GoodWhenDistinct | ppci/binutils/linker.py:299-365 | after any successful layout of memories that are apart, all images are in order, apart, aligned and inside their memories exactly when no section is placed twice, repeated sections of no bytes set aside |
| Layouts.SharedSectionMoves | ppci/binutils/linker.py:299-365 | a section placed in two memories: the layout succeeds, and the first image has 101 bytes for a memory of 8 |
| Layouts.LayoutImages | ppci/binutils/linker.py:299-365 | the images of any successful layout are those of its memories in order, with the sections their inputs name |
| Layouts.PlacedTwiceOverlaps | ppci/binutils/linker.py:299-365 | a memory that places a section of one byte twice is refused: the section overlaps itself |
| Layouts.GoodImageData | ppci/binutils/objectfile.py:167-182 | the data of such an image exists, fits the memory, and holds every section at its aligned address |
| LayoutAddresses.LaidOut | ppci/binutils/linker.py:299-352 | after a layout that places no section twice, every input is where those before it have come to: a section at the first address that suits it, a copy with the bytes of its source, a symbol whose value in its section is that very address, and an alignment goes on to its next multiple |
| LayoutAddresses.InputRefusedWhen | ppci/binutils/linker.py:304-352 | an input is refused exactly for an alignment of zero, a copy or symbol that has a section already, a copy of nothing, or a symbol that is defined already |
| LayoutAddresses.MemoryFitsWhen | ppci/binutils/linker.py:354-361 | a memory whose inputs can be placed is refused exactly when the last section ends beyond it |
| LayoutAddresses.LayoutKeeps | ppci/binutils/linker.py:299-361 | relocations, the entry, and symbols that are local or defined stay as they are |
| Alignment.InputSectionIsAligned | ppci/binutils/linker.py:199-217 | with power-of-two alignments, every section of every input object that any layout places, once or more often, ends up at an address that meets its own alignment |
| RelaxedObjects.SectionMoves | ppci/binutils/linker.py:579-607 | relaxation takes its holes out of a section and moves it down by the holes of the sections before it, once for every time that it is in an image |
| RelaxedObjects.AlignmentSurvives | ppci/binutils/linker.py:588-607 | an aligned byte is aligned after relaxation exactly when the bytes lost before it, in its section and by moving it, are a multiple of the alignment |
| RelaxedObjects.AlignmentIsLost | ppci/binutils/linker.py:600-607 | a section aligned to 4 bytes is at address 2 after the one before it has lost 2 bytes |
| Relaxation.ByteMoves | ppci/binutils/linker.py:533-607 | every byte that survives is found at its old offset minus the holes before it |
| Relaxation.ByteComesFrom | ppci/binutils/linker.py:533-607 | every byte of the result is one that survives |
| Relaxation.OrderIsKept | ppci/binutils/linker.py:540-548 | surviving bytes keep their order |
| Relaxation.HoleStart | ppci/binutils/linker.py:540-548 | an offset at the start of a hole goes where the byte behind the hole goes |
| Relaxation.InsideHole | ppci/binutils/linker.py:540-548 | an offset strictly inside a hole ends up before the byte behind the hole, which is why such symbols are excluded |
| Relaxation.FollowsNextKept | ppci/binutils/linker.py:540-548 | an offset is shifted to where the next surviving byte goes, or to the end, exactly when it is not strictly inside a hole |
| Relaxation.RefersWhen | ppci/binutils/linker.py:540-586 | in the punched data, the shifted offset refers to the same byte exactly then |
| Relaxation.ImageIsPunched | ppci/binutils/linker.py:588-607 | gaps between sections are unchanged, and the new image is the old one with exactly the holes taken out |
| RelaxedObjects.SymbolFollows | ppci/binutils/linker.py:550-564 | a symbol goes to its shifted offset, and refers to the byte it referred to (from the start of a hole, to the byte behind it; from the end, to the new end) exactly when it is not strictly inside a hole |
| RelaxedObjects.RelocFollows | ppci/binutils/linker.py:566-577 | the same for every relocation |
| RelaxedObjects.RelaxationKeeps | ppci/binutils/linker.py:533-607 | images, the entry, names, alignments and all else but offsets, addresses and data stay as they are |
| RelaxedObjects.ImageSectionsRelaxed | ppci/binutils/linker.py:588-607 | the sections of an image are those of the punched image exactly when each moves by what those before it lose, and by no more |
| RelaxedObjects.RelaxedImage | ppci/binutils/linker.py:533-607 | where the sections of an image move together, the image of the relaxed object is the image before with exactly the bytes of the holes taken out |
| RelaxedObjects.OnceMovesAsOne | ppci/binutils/linker.py:593-607 | they do in every image when no section is in two images, or twice in one |
| RelaxedObjects.LayoutPlacesOnce | ppci/binutils/linker.py:299-365 | a layout that places no section twice puts each into one image |
| RelaxedObjects.SharedSectionOverlaps | ppci/binutils/linker.py:593-607 | a section in two images moves with the first and overlaps the start of the second, whose data can no longer be built |
| Linker.Linker.AppendSection | ppci/binutils/linker.py:199-217 | pads to the alignment, keeps the larger alignment, and returns where the data went |
| Linker.Linker.MergeGlobalSymbol | ppci/binutils/linker.py:271-289 | an undefined symbol is completed, a known one is kept, and a second definition is refused |
| Linker.Linker.InjectObject | ppci/binutils/linker.py:194-269 | the new state of the output is the injection of the object, and the error is the same |
| Linker.Linker.MergeObjects | ppci/binutils/linker.py:188-192 | the loop over objects is the linking function |
| Linker.Linker.LayoutSections | ppci/binutils/linker.py:299-365 | the loops over memories and inputs are the layout function, errors included |
| Linker.Linker.ApplyRelaxationHoles | ppci/binutils/linker.py:533-607 | sections, symbols, relocations and image addresses become those of the relaxed object |
| StateMachines.FindPath | pyftdi/jtag.py:121-154 | the search ends; a path that it returns is a walk from source to target without a repeated state |
| StateMachines.NoSimpleWalkIsShorter | pyftdi/jtag.py:133-154 | no walk that avoids the path so far is shorter than what the recursion returns |
| StateMachines.FoundPathIsShortest | pyftdi/jtag.py:121-154 | the path found is no longer than any walk, and one is found whenever there is any |
| StateMachines.PathIsFound | pyftdi/jtag.py:121-154 | a path is found exactly when the target can be reached |
| StateMachines.FoundEventsReachTarget | pyftdi/jtag.py:156-171 | where the exits of every state differ, the events of the path found lead to the target and are as few as any |
| StateMachines.EventsAreRefused | pyftdi/jtag.py:156-167 | the events of a walk are refused exactly when some state on it has two equal exits |
| StateMachines.EventsFollowWalk | pyftdi/jtag.py:156-171 | the events of a walk lead through its states one by one |
| Taps.JtagStateMachine.FindPath | pyftdi/jtag.py:121-154 | a walk from the current state of the shadow to the target without a repeated state, no longer than any walk between the two; none exactly when there is none |
| Taps.JtagStateMachine.GetEvents | pyftdi/jtag.py:156-167 | the two loops collect the events along a path, or refuse |
| Taps.JtagStateMachine.HandleEvents | pyftdi/jtag.py:169-171 | the shadow moves as the controller does |
| Taps.FiveHighReset | sim.py:50-58 | five clocks with TMS high reset the controller from every state |
| Taps.StateFollowsTms | sim.py:19-29 | where the device is depends on TMS alone |
| Taps.ShiftedThrough | sim.py:33-40 | bits shifted through a register of any length push out what was in front and keep what comes last |
| Taps.LowStays | sim.py:33-40 | clocks with TMS low lead back to a state exactly when there are none or the state stays put |
| TapPaths.EventsReach | dbgjtag.py:74-83 | a change of state finds events for every pair of states, as few as the distance between them |
| TapPaths.DistanceIsOneMore | pyftdi/jtag.py:66-107 | the distances between the sixteen states satisfy the shortest-path equations |
| TapPaths.NoShiftOnTheWay | dbgjtag.py:74-83 | from a shift state, only the first clock of a change of state is spent shifting |
| TapPaths.EnteringShift | dbgjtag.py:118-118 | going to the shift state captures the inputs, and keeps the contents exactly when shifting is resumed from exit or pause |
| TapPaths.LongPaths | pyftdi/jtag.py:250-268 | eight events, more than one FTDI command holds, are needed exactly from capture_dr, shift_dr and pause_dr to exit_2_ir |
| Sessions.HostNeverLosesTrack | dbgjtag.py:53-126 | after any sequence of engine calls the shadow is the state of the device |
| Sessions.CallTracks | dbgjtag.py:53-142 | for every call, raw ones included: shadow and device still agree after it exactly under a condition on the state and the arguments |
| Sessions.ResetBringsInSync | dbgjtag.py:53-56 | a reset makes them agree wherever the device was |
| Sessions.ShiftRegisterLosesTrack | dbgjtag.py:134-142 | from exit_2 the host shifts by its shadow while the device moves on: they differ |
| Sessions.ShiftRegisterReturns | dbgjtag.py:134-142 | from a shift state the bits that come back are those that the register held and then the first sent, and the last ones stay in it |
| Sessions.CaptureReturns | dbgjtag.py:134-142 | from a capture state the same with the inputs of the register |
| Sessions.ExitReturns | dbgjtag.py:134-142 | from exit_2 an idle bit comes first, and the first bit sent is lost |
| Sessions.ReadWriteReturnsRegister | dbgjtag.py:116-126 | for an n-bit register, n bits in return exactly what it held and stay in it, for every n; any other number of bits goes through alike |
| Sessions.WriteReaches | dbgjtag.py:89-103 | writing as many bits as a register is long latches exactly these bits, for both registers |
| Sessions.ReadReturnsRegister | dbgjtag.py:105-110 | reading returns what the register holds, and shifts in one zero more than was read |
| Engine.JtagSimController.ShiftInOutVal | sim.py:33-40 | the accumulating loop clocks the bits of the number, and collects those that come back |
| Engine.JtagSimController.WriteTms | sim.py:60-84 | the deferred bit goes with the first event only, and what that event reads is returned |
| Engine.JtagSimController.Write | sim.py:91-97 | all bits but the deferred one are clocked; with nothing to defer it raises and does nothing |
| Engine.JtagSimController.WriteRead | sim.py:99-106 | as writing, and the bits that come back are returned |
| Engine.JtagOCDEngine.ChangeState | dbgjtag.py:74-83 | device and shadow go to the target together |
| Engine.JtagOCDEngine.Reset | dbgjtag.py:53-56 | both are reset |
| Engine.JtagOCDEngine.WriteIR | dbgjtag.py:89-93 | latches the instruction, and leaves both in the update state |
| Engine.JtagOCDEngine.WriteDR | dbgjtag.py:99-103 | latches the data, and leaves both in the update state |
| Engine.JtagOCDEngine.ReadDR | dbgjtag.py:105-110 | returns the register's contents, as many bits as asked for |
| Engine.JtagOCDEngine.ReadWriteDR | dbgjtag.py:116-126 | returns the contents as a number, and leaves the bits in the register |
| Engine.JtagOCDEngine.ShiftRegister | dbgjtag.py:134-142 | refused outside the shift states; returns what the register held (from capture, its inputs) and then the first of the bits sent, from exit_2 one bit later behind an idle one; keeps track exactly when not in exit_2 with bits to shift |
| Bits.BytesRoundTrip | pyftdi/bits.py:54-89 | bytes made of a sequence turn back into it exactly when it fills them, whichever order of bits and bytes |
| Bits.IntOfBits | pyftdi/bits.py:173-184 | the number made of the bits of a number is that number modulo what fits, negative numbers included |
| Bits.BitsOfInt | pyftdi/bits.py:291-296 | a sequence is made again of its number and its length |
| Bits.CountedInt | pyftdi/bits.py:331-345 | counting up or down adds or takes away one and wraps round |
| Bits.CountedBack | pyftdi/bits.py:331-345 | counting up and down undo each other |
| Bits.BitSequence.InitFromInteger | pyftdi/bits.py:173-213 | the loop, and filling up, give the bits of the number in either order |
| Bits.BitSequence.InitFromBytes | pyftdi/bits.py:63-76 | refuses a number beyond a byte; otherwise the loops give eight bits a byte, in either order of bits and bytes |
| Bits.BitSequence.ToByte | pyftdi/bits.py:128-139 | popping bits from either end gives the number, unless there are more than eight |
| Bits.BitSequence.ToBytes | pyftdi/bits.py:141-157 | the loops give the bytes of the specification |
| Bits.BitSequence.ToInt | pyftdi/bits.py:291-296 | the accumulating loop gives the number |
| Bits.BitSequence.Inc | pyftdi/bits.py:331-337 | the bits in place become those of the next number |
| Bits.BitSequence.Dec | pyftdi/bits.py:339-345 | the bits in place become those of the number before |
| Mpsse.ParsedInTurn | pyftdi/jtag.py:356-364 | a stream of commands cut between two of them is taken apart alike, so that buffering changes nothing |
| Mpsse.TmsTakenApart | pyftdi/jtag.py:250-268 | the device gets the events and the deferred bit out of the byte that they were packed into |
| Mpsse.BytesTakenApart | pyftdi/jtag.py:402-410 | the command for whole bytes is one that the device takes apart exactly up to 65536 bytes, and then it gets the bits back in order |
| Mpsse.LengthField | pyftdi/jtag.py:402-410 | the two length bytes hold the length exactly up to 65536 bytes |
| Mpsse.ResetBytes | pyftdi/jtag.py:250-268 | a reset is 4b 04 1f, and 4b 04 9f with a deferred bit |
| Mpsse.DataBytesAre | pyftdi/jtag.py:380-410 | bits are sent behind 1b and their number less one, bytes behind 19 and theirs in two bytes, low one first |
| Mpsse.DataTicks | pyftdi/jtag.py:283-300 | bits cut into bytes and a rest are clocked in order |
| Mpsse.JtagController.StackCmd | pyftdi/jtag.py:356-364 | the command joins the bytes written, sent or not, and nothing is sent before 512 bytes are reached; where it and all before were whole commands, all of them still are, and neither part ends within one |
| Mpsse.JtagController.WriteTms | pyftdi/jtag.py:250-268 | one command with the deferred bit, sent at once; more than seven events are refused |
| Mpsse.JtagController.Write | pyftdi/jtag.py:283-300 | fails exactly with nothing to hold back; otherwise writes the bytes for all bits but the deferred one, which are whole data commands up to 65536 bytes |
| Transports.EventsAlike | pyftdi/jtag.py:250-268 | packed and bit-banged events agree exactly when a deferred bit that is set meets no later clock spent shifting |
| Transports.LateShiftDiffers | pyftdi/jtag.py:250-268 | in shift_dr, a set bit held back and the events 0, 1: the two transports shift different bits |
| Transports.PackingRefinesBitBang | pyftdi/jtag.py:250-300 | for any sequence of events and bits written: the same TMS at every clock and the same TDI at every clock spent shifting |
| Transports.ReadsKeepPace | pyftdi/jtag.py:270-300 | with reads among them too: as many clocks, the same TMS at each, so that the device is in the same state, and the same TDI at every clock spent shifting that is none of a read |
| Transports.AlikeRuns | sim.py:19-29 | such clocks leave the device in the same state with the same registers, and read the same bits |
| Transports.DeviceCannotTell | pyftdi/jtag.py:250-300 | after any sequence of accepted engine calls that write, raw events included, the FTDI commands have put the device into the state that bit-banging puts it into |
| Ftdi.PayloadInChunks | pyftdi/ftdi.py:1303-1319 | cutting an answer every packet length strips the two status bytes of each packet |
| Ftdi.FtdiReader.ReadDataBytes | pyftdi/ftdi.py:1243-1364 | returned bytes and unread cache are all payloads received, in order; never more than asked, and nothing is read beyond what that takes; fewer only after the last attempt; it ends, and meets the last error exactly when packets have no room for payload; a bus failure loses what was taken out of the cache |
| Ftdi.FtdiReader.Strip | pyftdi/ftdi.py:1303-1319 | the loop over packets puts the payload of an answer into the cache |
| Ftdi.FtdiReader.Refill | pyftdi/ftdi.py:1288-1341 | reads until there is payload, attempts are used up or the bus fails |
| Ftdi.FtdiWriter.WriteData | pyftdi/ftdi.py:1213-1241 | all bytes are sent once and in order unless the bus stops taking any, in blocks of the size of a chunk or up to the end |
| Baud.LargerIsSlower | pyftdi/ftdi.py:1609-1610 | a larger divisor never gives a higher rate, rounding included |
| Baud.ClosestIsChosen | pyftdi/ftdi.py:1556-1622 | for a device that is not a legacy one, with the divisors 8, 12 and from 16 on, the rate is the closest exactly unless it is above 1.75 MHz with a ratio of at least 9 |
| Baud.FarRateIsChosen | pyftdi/ftdi.py:1591-1597 | 2 MHz becomes 1.5 MHz on a device that is not a legacy one, although the divisor 12 gives it exactly and has a code of its own |
| Baud.LegacyClosest | pyftdi/ftdi.py:1575-1605 | for a legacy device the divisor 12, which it does not have, is chosen exactly for rates above 2 MHz with a ratio of at least 9; otherwise the rate is the closest that its divisors give |
| Baud.LegacyTwelve | pyftdi/ftdi.py:1591-1594 | 2.4 MHz gets the divisor 12 on a legacy device |
| Baud.RequestComesBack | pyftdi/ftdi.py:1623-1641 | every divisor and either clock come back out of the value and the index of the request, with or without MPSSE, and the port with it |
| Baud.ConvertBaudrate | pyftdi/ftdi.py:1556-1641 | rates out of range are refused; otherwise the better of two divisors is chosen, the first one on a tie, and the request carries that divisor and the clock |
| Baud.AcceptedRates | pyftdi/ftdi.py:1559-1566 | the lowest rate accepted is that of the largest divisor, the highest one the clock |
| Baud.TieGoesFirst | pyftdi/ftdi.py:1616-1620 | 980 kHz lies in the middle of 1 MHz and 960 kHz, and becomes 1 MHz |
| HexLines.FromLineInverts | ppci/format/hexfile.py:32-64 | reading a line that was written gives it back |
| HexLines.EndLineText | ppci/format/hexfile.py:52-64 | the last line of a file is :00000001ff |
| HexLines.NumsAreUnique | ppci/format/hexfile.py:40-50 | bytes that are read are those that would be written for what was read |
| HexLines.ChangedByteIsRejected | ppci/format/hexfile.py:40-46 | any single changed byte is rejected, the byte count and the checksum included |
| HexLines.ChangedLineIsRejected | ppci/format/hexfile.py:32-50 | any single changed character is rejected, except the same digit in the other case |
| HexAdding.AddedRegion | ppci/format/hexfile.py:133-150 | adding a region, empty or not, fails exactly when it overlaps another one; otherwise regions that touch are joined and the list is in order |
| HexAdding.BytesAreKept | ppci/format/hexfile.py:139-150 | every byte, old and new, is still held exactly when the new region does not fill a gap between two others that are not empty |
| HexAdding.GapLosesByte | ppci/format/hexfile.py:139-150 | one byte each at 0 and 2, and a third put between them: the byte at 2 is gone |
| HexAdding.EmptyRegionBlocks | ppci/format/hexfile.py:133-150 | a region of no bytes makes one that covers its address fail, although the two share no byte |
| HexFiles.SavedIsLoaded | ppci/format/hexfile.py:89-178 | saving and loading gives back every list of regions below 2^32 that are in order, not empty and apart, across 64 KiB boundaries |
| HexFiles.ChunksLoaded | ppci/format/hexfile.py:163-177 | chunk by chunk a region comes together again, with the upper half of its addresses written where it changes |
| HexFiles.ChunksAreShort | ppci/format/hexfile.py:168-177 | data lines hold 30 bytes, the last one of a region up to that |
| HexTexts.TextMeans | ppci/format/hexfile.py:67-79 | white space around a line does not matter; a line that then starts with a colon is a record, and any other is passed over |
| HexTexts.SavedFileIsLoaded | ppci/format/hexfile.py:67-178 | a saved file is loaded again whatever its ends of lines and the spaces around its lines |
| HexTexts.SpaceBetweenBytes | ppci/format/hexfile.py:33-41 | a space or tab may stand before, between and behind the bytes of a record |
| HexTexts.SpaceWithinByte | ppci/format/hexfile.py:33-41 | but not within one |
| HexFiles.StartIsLoaded | ppci/format/hexfile.py:107-108 | a start record sets the start address to the number in its four bytes, and nothing else |
| HexFiles.AcceptedWhen | ppci/format/hexfile.py:95-112 | a record without data is accepted exactly when it is an empty end record, or has the two or four bytes of its type, and no end record was before; no record changes what its type is not about |
| HexFiles.EndIsLast | ppci/format/hexfile.py:95-105 | an end record is empty, and the last one |
| HexFileObject.HexFile.Check | ppci/format/hexfile.py:139-150 | the passes over a copy of the list, with regions extended and removed in place, are the checking function |
| HexFileObject.HexFile.AddRegion | ppci/format/hexfile.py:133-137 | the new list is that of the adding function; a list in order stays so |
| HexFileObject.HexFile.Save | ppci/format/hexfile.py:160-178 | the loops write the lines of the specification, or raise beyond 2^32 |
| HexFileObject.HexFile.Load | ppci/format/hexfile.py:89-113 | the loop loads what the specification loads, and refuses what it refuses |
| Peephole.PeepHoleStream.Emit | ppci/codegen/peephole.py:29-43 | what was passed on and the window are the input without the jumps that the next item makes redundant |
| Peephole.PeepHoleStream.ClipWindow | ppci/codegen/peephole.py:45-49 | items are passed on in order until that many are left |
| Peephole.PeepHoleStream.Flush | ppci/codegen/peephole.py:51-53 | all input since the last flush is passed on but for redundant jumps: no jump is left right before its label or a jump to it, and labels, plain code and branches are those of the input in order |
| Peephole.IdleJumpsAreGone | ppci/codegen/peephole.py:29-43 | the stream drops every jump that stands right before its label or a jump to it, and nothing but jumps |
| Peephole.Landing | ppci/codegen/peephole.py:34-43 | behind dropped jumps comes an item that is kept and has the same effect |
| Peephole.OptimisedFollows | ppci/codegen/peephole.py:29-53 | whatever the input executes in any number of steps, the output executes in no more, and they are at the same place |
| Peephole.OriginalFollows | ppci/codegen/peephole.py:29-53 | whatever the output executes, the input executes |
| Peephole.BothStop | ppci/codegen/peephole.py:29-53 | the two reach their ends together |
| RiscV.StoredByte | murax/ocd.py:124-125 | a store sets the bytes of its word and no others, addresses going round at 2^32 |
| RiscV.LoadedAfterStored | murax/ocd.py:127-143 | what was stored is loaded, modulo 2^32 |
| Murax.BothLoaded | murax/ocd.py:83-89 | LUI and ADDI leave the value modulo 2^32 in the register, with the carry of a negative low part |
| Murax.SmallLoaded | murax/ocd.py:80-82 | one ADDI leaves a small value, negative ones included |
| Murax.SwExecuted | murax/ocd.py:124-125 | the encoded store goes to register 2 plus the signed offset |
| Murax.MuraxOCD.WriteReg | murax/ocd.py:79-89 | leaves the value modulo 2^32 in the register and changes no other; asked for register 0, it changes none |
| Murax.MuraxOCD.WriteMem | murax/ocd.py:96-125 | stores the word at the address, both modulo 2^32 |
| Murax.MuraxOCD.ReadMem | murax/ocd.py:127-143 | returns the word at the address and changes no memory |
| Pulp.WriteHits | pulp/ocd.py:140-147 | while what is remembered holds, a write stores its word at its own address and it still holds |
| Pulp.WriteAfterRead | pulp/ocd.py:121-147 | after a bus read, a write reaches its address exactly when it does not follow the last write, or goes where the read was |
| Pulp.SecondWordIsLost | pulp/ocd.py:121-147 | two consecutive words with a read between them: the second overwrites what was read |
| Pulp.WritesOf | pulp/ocd.py:121-147 | the debug module is written to by register numbers: 0x38 and 0x39 where an address has to be set, and 0x3c |
| Pulp.PulpOCD.WriteBus | pulp/ocd.py:140-147 | sets the address only when it does not follow by itself, and stores the word at its address |
| Pulp.PulpOCD.ReadBus | pulp/ocd.py:121-129 | returns the word, and leaves the remembered address as it was |
| Loaders.OneMoreWord | dbgjtag.py:147-151 | one more word leaves the words before it and all other bytes alone, addresses going round at 2^32 |
| Loaders.LoadBinaryMurax | dbgjtag.py:147-151 | every complete little-endian word of the file is at its address afterwards, and no other byte has changed |
| Loaders.LoadBinaryPulp | dbgjtag.py:147-151 | the same over the system bus with its address counting up, with no bus read in between |

## Left out

- USB, sockets, threads, delays, logging and command lines are parameters: the device's answers, what a bus takes of a write, and the simulated device.
- AllocFrame.AllocFrame: does not say for which functions 30 rounds are enough, and which of the orders of a set of moves is taken is open, so that a round that can raise need not. The premises (plain operands, jump targets that use no registers, no virtual register live at the entry, every leader behind a jump) are gathered in `Compilability.Compilable`.
- OneClass.FreezeChecked: the order in which a set of moves is gone through is any order, since a set has none.
- SpillChoice.SelectSpill: compares quotients without rounding, and of several lowest ones takes any, where the source takes the first.
- Spill code is one load or one store instruction; the selection of several instructions for it is not part of this model. The cache of the pq-test's `q` and its error for an empty class are left out.
- Frames.BottomAboveWhen: is about lying above the whole stack; a slot that does not may still be apart from the others, in a hole left by aligning.
- Frames.Frame.Alloc: promises nothing about later requests once an alignment of zero has been asked for.
- Tree states are kept in a map by tree instead of in the tree. Evaluating templates is the emission of rule numbers in order.
- BurgSelection.TilingIsCheapest: asks for at most one chain between two non-terminals, since `BurgTricky.NotCheapest` shows the statement false without that.
- Library search, debug information, serialisation and applying relocations in the linker; which relocations shrink, and by how much, are parameters (the holes).
- CoalescingTest.PrecolouredTestIsSafe: is about one register class, as is `CoalescingTest.BriggsTestIsSafe`; with several classes the test decides what `CoalescingTest.CoalesceDecides` says, and what that costs is not stated.
- ParkedMoves.SimplifyKeepsParked: is about simplifying; combining two nodes may make a parked move possible without trying it again.
- BurgCover.TilingIsTree: asks that every terminal has a fixed number of children, in the tree and in the patterns; `BurgCover.TilingRebuilds` asks only that the tree reaches the open ends.
- LayoutAddresses.LaidOut: asks that no section is placed twice, since the address of one that is has been given by its last place.
- Layouts.LayoutIsGood: asks that no section is placed twice; `Layouts.GoodWhenDistinct` shows that this is what it takes when memories are apart and repeated sections have bytes. Repeated sections without bytes, and memories that overlap, are left undecided in that direction.
- RelaxedObjects.RelaxedImage: asks that the sections of the image move together (`RelaxedObjects.ImageSectionsRelaxed`, `RelaxedObjects.SharedSectionOverlaps`).
- The device model has one data register and one instruction register; which data register an instruction selects, and what reset does to the latches, are not part of this model.
- Mpsse.JtagController.Write: beyond 65536 bytes it promises the bytes only, since the device takes them for something else; strings are not modelled, nor are the FTDI commands that read.
- Transports.DeviceCannotTell: raw bits are included only in shift states, where TMS is known to be low, and raw events only where they lead back, since the shadow does not follow them; what read commands put on TDI is not determined by the source, and the engine's calls that write and read at once have no FTDI counterpart in it.
- Transports.PackingRefinesBitBang: has no commands that read; for them `Transports.ReadsKeepPace` states what the source determines. `shift_register` of the FTDI transport is not part of this model.
- Baud.ClosestIsChosen: takes 12 to be the one divisor between 9 and 15 that a device other than a legacy one has. The remarks in the source give it a code and 9 to 15 to no legacy device; the tests in the source do the reverse, and are modelled as they are.
- Bits: rotations, shifts, comparison, tri-state sequences and printing.
- Ftdi.FtdiReader.ReadDataBytes: the latency timer is not modelled; it changes no data.
- HexFiles.SavedIsLoaded: the start address is not saved by the source, and is 0 after loading.
- Region objects of a hex file are values in a list; that a pass extends regions it has already taken off the list is kept by positions in a copy.
- Peephole.OptimisedFollows: asks that no label is defined twice, which the linker refuses.
- Loaders.LoadBinaryMurax: files of more than 2^32 bytes are excluded, since their words overlap. The store's alignment is left to the execution environment, as the standard does.
- Murax.MuraxOCD.WriteMem: the cached address, which the source never sets, is covered only where register 2 holds it.
- The whole lowering of IR to trees, uses in the IR, assembler and object file formats: long, and shallow next to what is here.
