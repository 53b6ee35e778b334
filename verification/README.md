# Models of Lua's core, a 64-bit division, a memory bus and an instruction decoder

The repository holds a RISC-V simulator and a reference emulator, a small runtime, and Lua 5.3.4 as an application of it. This project
models the parts of it whose correctness is hardest to see, and proves what their comments, the Lua 5.3 manual and the hardware
standards promise. `dafny verify dfyconfig.toml` checks all of it.

- **Garbage collector** (`GcState`, `Gc…Lemmas`, `GcCollector`, `GcProgram`, `GcExamples`). A heap of objects with their references, two whites, gray
  and black, the gray lists and the object lists. Class `Collector` is `lgc.c`, step by step; `GcProgram` is the program that runs
  between the steps and writes through barriers. The invariant `Inv` holds in every phase. Its main consequence is that nothing
  the program can reach is ever dead or freed.
- **Code for expressions** (`LuaCode`, `LuaExpr…`, `LuaCodeGen`). `LuaCode` runs instructions as the comments of `lopcodes.h` (and
  `lvm.c`) describe them. Class `FuncState` is the part of `lcode.c` for short-circuit expressions, with jump lists linked through
  the instructions. `Means` says what a half-finished expression means, exits on lists included; every operation keeps it.
- **Tables** (`TableState`, `TableLemmas`, `TableSizes`, `LuaTable`). Array part and hash part together refine a finite map.
- **Patterns, literals and quoting, packing** (`Pattern…`, `LexString`, `LexLaws`, `Pack…`, `Endian`, `Bytes`). The matcher is proved against
  the ordered list of all ways in which a pattern matches. `PatternLaws`, `LexLaws` and `PackLaws` say what patterns, escape sequences and
  formats mean by their text.
- **Expressions parsed** (`LuaPrecedence`, `LuaParser`), **chunks dumped and loaded** (`LuaChunk`, `LuaChunkTrips`, `LuaDump`,
  `LuaUndump`, `ChunkLaws`), **upvalues** (`LuaUpvalues`), **interned strings** (`LuaStrings`), **sorting** (`LuaSort`).
- **Division of 64-bit numbers** with 32-bit words (`WordArith`, `Int64Division`).
- **The simulator's memory on an AXI bus** (`AxiLog`, `AxiChannel`, `AxiMemory`, `AxiBursts`) and **the emulator's decoder and CSR instructions**
  (`NemuPattern`, `NemuCpu`, `NemuLaws`).

Code that changes state is a class or a method on arrays, proved against functions and predicates on values; what those promise is
proved in lemmas. Addresses are numbers: freeing an object removes its number from a map, so a dangling reference is one that
is in no map. A dereference needs its address in the map, and is proved to have it.

## Where the code does not do what one would expect

Each of these is proved, with a condition or an input, by the members named.

- A table that `propagatemark` found all-weak stays gray on the list `allweak` until `atomic`. If the program gives it a white metatable
  meanwhile, no barrier marks it (`lgc.c` 454-470, `lapi.c` 861). Setting metatables keeps the invariant exactly outside that case
  (`GcProgram.SetMetatable`), and in it the state after `atomic` is safe exactly if the metatable was marked by another way
  (`GcAtomicLemmas.SafeAfterAll`). `GcExamples.LostMetatable` is a run at whose end the metatable of a table that the program holds is freed.
- `udata2finalize` takes the first element of `tobefnz` while the sweep pointer may be its link (`lgc.c` 787-797). Then the rest of that list
  is not swept, exactly under the condition of `GcCycleLemmas.PopFinalizerSafe`; `GcExamples.StrayedSweep` is such a run. It happens when
  finalizers run between steps of the sweep of `tobefnz`.
- The assertion at the beginning of `atomic` that there are no weak tables and ephemeron tables yet can fail, since the step before it
  traverses tables in the state that puts them there (`lgc.c` 986, 1061-1064): `GcExamples.AssertionFails` is a run in which it does. It
  holds if no table that is white or gray before that step has a weak mode (`GcCollector.Collector.PropagateAll`). The model does not
  assume it.
- `string.find` searches plainly for a pattern without special characters; `)` is not among those, though matching it is an error
  (`PatternFind.ShortcutAgrees`; `lstrlib.c` 239, 580-588).
- The memory slave's bursts do not realign after an unaligned first address (`AxiLog.AddressesAgree`). A write goes by the number of strobes,
  and three of them, or none, stop the simulator (`AxiBursts.StrobesExact`, `AxiBursts.ThreeStrobesStop`).
- A trap and a return restore the emulator's stack of modes only if its oldest entry is the one that a return puts in
  (`NemuCpu.TrapReturn`).

Two more things can be read off the code, and the model follows it:

- A write burst ends with the last beat that the master marks (`AxiChannel.WriteNext`); the length asked for with its address is never
  looked at.
- `int64.c` takes `high` as the upper half, while its union declares `high` first, which on a little-endian machine is the lower half.
  The model's halves have the value `high * 2^32 + low`, as the comments and the algorithm say.

## Model

| member | source | states |
|---|---|---|
| GcCollector.Collector.ReallyMarkObject | software/os-app/apps/lua/src/lgc.c:235-283 | marks a white object: black at once for a string or userdatum (with what it refers to), else gray and on the gray list; the marking invariant holds afterwards and no mark is taken back |
| GcCollector.Collector.TraverseWeakValue | software/os-app/apps/lua/src/lgc.c:361-381 | a visit of a table with weak values marks its keys; the table goes on the list that it still has to be looked at in |
| GcCollector.Collector.TraverseEphemeron | software/os-app/apps/lua/src/lgc.c:394-430 | marks values of entries with marked keys; reports a mark only if a white object was marked; without one, the table has converged and only strings were marked |
| GcCollector.Collector.TraverseThread | software/os-app/apps/lua/src/lgc.c:530-552 | a visited thread is gray again, and is on a list that is looked at later or is completely marked |
| GcCollector.Collector.PropagateMark | software/os-app/apps/lua/src/lgc.c:559-600 | one gray object is visited; the marking invariant (every marked object not on a list has its last visit's references marked) is kept, and the work left decreases |
| GcCollector.Collector.ConvergeEphemerons | software/os-app/apps/lua/src/lgc.c:608-623 | the rounds end, with no gray object left, and every ephemeron table that is left has values marked where its keys are |
| GcCollector.Collector.EphemeronRound | software/os-app/apps/lua/src/lgc.c:608-623 | a round that changed something marked a white object; one that did not leaves all ephemeron tables converged |
| GcAtomicLemmas.MarkedKeeps | software/os-app/apps/lua/src/lgc.c:981-1020 | when the ephemeron tables have converged and nothing is gray, the marked objects are closed under the references that keep objects alive: an ephemeron's value with its key, a weak table's strong half, and all references of other objects |
| GcCollector.Collector.RemarkUpvals | software/os-app/apps/lua/src/lgc.c:312-331 | afterwards every open touched upvalue of an unmarked thread has a marked value |
| GcCollector.Collector.SeparateToBeFnz | software/os-app/apps/lua/src/lgc.c:879-894 | exactly the unmarked objects with finalizers move, in order, to the end of the list of those to be finalized |
| GcCollector.Collector.ClearTables | software/os-app/apps/lua/src/lgc.c:639-674 | after clearing, a listed table holds no entry whose key (or value) is an unmarked object that is not a string; nothing else is removed |
| GcCollector.Collector.Atomic | software/os-app/apps/lua/src/lgc.c:981-1025 | afterwards everything marked is live in the new white; the set reached before resurrection contains the roots and is closed under keeping; what was cut out of weak tables, and what moved to be finalized, lies outside that set; what lives is below every bound that covers it |
| GcCollector.Collector.AtomicStep | software/os-app/apps/lua/src/lgc.c:1059-1066 | the atomic step takes a waiting state of the invariant to a sweeping one, with the same facts |
| GcCollector.Collector.FreeObj | software/os-app/apps/lua/src/lgc.c:696-720 | the object leaves the heap, a closure gives up its upvalues, and a thread closes those that are open in it |
| GcCollector.Collector.SweepList | software/os-app/apps/lua/src/lgc.c:734-751 | exactly the dead objects of the swept part are freed, the others become the current white; what is live stays, with its body; the result points where to go on |
| GcCollector.Collector.EnterSweep | software/os-app/apps/lua/src/lgc.c:958-963 | begins sweeping with `sweepgc` valid for the list of all objects |
| GcCollector.Collector.SingleStep | software/os-app/apps/lua/src/lgc.c:1044-1096 | every step, from every state of the invariant, leads to a state of the invariant; phases follow each other in order and every step makes progress; marking changes no object but caches of prototypes; `atomic` keeps a set with the roots that is closed under keeping, cuts weak entries because of other objects only and hands only such objects to finalizers; sweeping frees no live object and changes none; a finalizer phase takes objects off its list |
| GcCollector.Collector.FullGc | software/os-app/apps/lua/src/lgc.c:1158-1174 | a full collection, from any phase, ends in a pause: what was begun is finished or abandoned without loss, then a whole cycle keeps what the roots keep, and what survives is below every set that holds the roots and the objects to be finalized and is closed under strong references; finalizers are called, except in an emergency |
| GcCycleLemmas.AccessibleIsLive | software/os-app/apps/lua/include/lgc.h:15-25 | in every state of the invariant, an object that the program can reach (through any reference, weak ones included) is in the heap and is not dead |
| GcProgram.RootsAccessible | software/os-app/apps/lua/src/lgc.c:337-348 | the program can reach the threads, the registry, the metatables of basic types, and what waits for its finalizer or is fixed |
| GcProgram.ReadableAccessible | software/os-app/apps/lua/include/lgc.h:15-25 | whatever it can read out of an object that it can reach, it can reach |
| GcProgram.ReadableExact | software/os-app/apps/lua/include/lgc.h:15-25 | what can be read out of an object lies in a set exactly if the object refers to nothing outside the set |
| GcProgram.NeededCovers | software/os-app/apps/lua/src/lgc.c:1158-1174 | there is a least set that covers what a full collection has to keep, so that what survives is bounded by it |
| GcCycleLemmas.BlackPointsToMarked | software/os-app/apps/lua/include/lgc.h:15-25 | while marking, no black object refers to a white one, and no thread is black |
| GcAtomicLemmas.SafeAfterAll | software/os-app/apps/lua/src/lgc.c:981-1025 | if tables got metatables unseen, the state after `atomic` is safe exactly if each of them that is live has its metatable marked all the same |
| GcExamples.BeforeLossInv | software/os-app/apps/lua/src/lapi.c:845-870 | a state of the invariant in which setting a metatable loses it |
| GcExamples.LostMetatable | software/os-app/apps/lua/src/lgc.c:454-470 | from that state, through setting the metatable, `atomic` and the first object of the sweep: the metatable is freed while a table that the program holds still has it |
| GcExamples.BeforeStrayInv | software/os-app/apps/lua/src/lgc.c:787-797 | a state of the invariant in which taking an object to finalize lets the sweep go astray |
| GcExamples.StrayedSweep | software/os-app/apps/lua/src/lgc.c:787-797 | from that state, through taking an object to finalize and one slice of the sweep: the phase ends, and an object is left unswept |
| GcExamples.AssertionFails | software/os-app/apps/lua/src/lgc.c:986-986 | from a state of the invariant in which the two lists are empty, the step before `atomic` leaves a table on the list `weak`, against the assertion |
| GcCollector.Collector.PropagateAll | software/os-app/apps/lua/src/lgc.c:603-605 | nothing gray is left; the lists of weak tables and of ephemeron tables, which the assertion at the beginning of `atomic` wants empty, stay as they were if no table that is white or gray has a weak mode, and everything does with nothing gray before |
| GcCollector.Collector.Udata2Finalize | software/os-app/apps/lua/src/lgc.c:787-797 | takes the first object to be finalized and puts it back; the invariant survives exactly if the sweep pointer is not in the link that is taken away while something after it is still to be swept |
| GcCycleLemmas.PopFinalizerSafe | software/os-app/apps/lua/src/lgc.c:787-797 | the same, about the state: an if and only if |
| GcProgram.Barrier | software/os-app/apps/lua/src/lgc.c:155-164 | the forward barrier marks the value while marking, and whitens the object otherwise; the invariant is restored |
| GcProgram.BarrierBack | software/os-app/apps/lua/src/lgc.c:171-176 | the backward barrier makes the table gray and puts it on the list to be visited again |
| GcProgram.Store | software/os-app/apps/lua/include/lgc.h:118-132 | a write into an object, followed by its barriers, keeps the invariant exactly if it does not put a white metatable on a table of the list of all-weak tables while marking |
| GcProgram.SetMetatable | software/os-app/apps/lua/src/lapi.c:845-870 | setting a metatable keeps the invariant exactly if the table was not traversed as all-weak in this cycle, or the metatable is marked |
| GcProgram.SetSlot | software/os-app/apps/lua/include/lgc.h:15-25 | a write to a stack needs no barrier: the invariant holds since threads are never black |
| GcProgram.NewObject | software/os-app/apps/lua/src/lgc.c:208-216 | a new object is white and live, and the invariant holds in every phase |
| GcProgram.SetUpval | software/os-app/apps/lua/src/lgc.c:185-191 | a write through an upvalue, open or closed, shows the value from then on and keeps the invariant |
| GcProgram.Capture | software/os-app/apps/lua/src/lfunc.c:57-80 | an upvalue opened during any phase of collection keeps the invariant |
| GcProgram.CloseUpval | software/os-app/apps/lua/src/lfunc.c:83-96 | closing one keeps the invariant |
| GcProgram.NewState | software/os-app/apps/lua/src/lstate.c:295-345 | the state in which a program starts satisfies the invariant |
| GcProgram.Run | software/os-app/apps/lua/src/lgc.c:1044-1096 | any interleaving of collector steps, full collections, loads, allocations, stack writes, table and userdata writes, changes of weak mode, metatables and upvalues does what its operations do, one after the other: each has its effect on the one object that it names, or none exactly if an operand is not there or a metatable would be lost; the invariant, and with it the safety of `AccessibleIsLive`, holds between any two |
| LuaCodeGen.FuncState.FixJump | software/os-app/apps/lua/src/lcode.c:103-110 | the jump leads to the destination, and read as a link gives it back; no other instruction changes |
| LuaCodeGen.FuncState.Concat | software/os-app/apps/lua/src/lcode.c:116-127 | the result is a list of exactly the jumps of both lists, with no cycle, and only links were changed |
| LuaCodeGen.FuncState.PatchTestReg | software/os-app/apps/lua/src/lcode.c:195-207 | a test that yields a value gets its register, or becomes a plain test if it has no register to set; any other test is left |
| LuaCodeGen.FuncState.RemoveValues | software/os-app/apps/lua/src/lcode.c:213-216 | no test of the list yields a value any more, and nothing else changes |
| LuaCodeGen.FuncState.PatchListAux | software/os-app/apps/lua/src/lcode.c:223-236 | every jump of the list whose test yields a value goes to the value target, every other one to the default target |
| LuaCodeGen.FuncState.AddK | software/os-app/apps/lua/src/lcode.c:428-452 | a constant has its value at the index that is returned; it is added exactly if its index is not found, and never twice as long as the indices of all constants are found |
| LuaCodeGen.FuncState.CodeNil | software/os-app/apps/lua/src/lcode.c:64-83 | either a new instruction loads the registers with nil, or the one before, which no jump leads behind, loads those as well |
| LuaCodeGen.FuncState.NegateCondition | software/os-app/apps/lua/src/lcode.c:825-830 | whatever the registers hold and however values compare, the jump after the comparison is taken exactly if it was not before; no other instruction changes |
| LuaCodeGen.FuncState.JumpOnCond | software/os-app/apps/lua/src/lcode.c:839-851 | the code goes on exactly if the expression has the other truth value, and jumps with the value in place otherwise |
| LuaCodeGen.FuncState.GoIfTrue | software/os-app/apps/lua/src/lcode.c:857-878 | the code goes on if the expression is true; all its false exits are on one list |
| LuaCodeGen.FuncState.GoIfFalse | software/os-app/apps/lua/src/lcode.c:884-904 | the code goes on if the expression is false; all its true exits are on one list |
| LuaCodeGen.FuncState.CodeNot | software/os-app/apps/lua/src/lcode.c:910-939 | the code has the meaning of the negated expression, with exits exchanged |
| LuaCodeGen.FuncState.PatchValues | software/os-app/apps/lua/src/lcode.c:675-696 | after patching, every exit leads to a place where the register holds the value that the exit stands for |
| LuaCodeGen.FuncState.Exp2Reg | software/os-app/apps/lua/src/lcode.c:675-696 | the value of the expression is in the register wherever the code ends, and no list is left |
| LuaCodeGen.FuncState.CodeComp | software/os-app/apps/lua/src/lcode.c:1037-1060 | the code compares the values of the two operands, in the order that the operator needs |
| LuaCodeGen.FuncState.Infix | software/os-app/apps/lua/src/lcode.c:1086-1115 | after the first operand the state is ready for the second, for every operator |
| LuaCodeGen.FuncState.Posfix | software/os-app/apps/lua/src/lcode.c:1121-1172 | the code of both operands together has the meaning of the operation |
| LuaCodeGen.FuncState.Prefix | software/os-app/apps/lua/src/lcode.c:1066-1079 | the code has the meaning of the operation `not` |
| LuaCodeGen.FuncState.SubExpr | software/os-app/apps/lua/src/lparser.c:1048-1075 | for every expression, the code that infix, posfix and prefix emit has its meaning |
| LuaCodeGen.FuncState.ExprToNextReg | software/os-app/apps/lua/src/lcode.c:703-708 | for every expression of locals, constants, comparisons, `not`, `and`, `or` and parentheses: whatever the registers hold and however values compare, the code ends, leaves the value of the expression (`LuaExpr.ComparisonLaws`, `LuaExpr.LogicLaws`) in the next register, and leaves the registers in use as they were |
| LuaExpr.ComparisonLaws | software/os-app/apps/lua/src/lcode.c:1039-1058 | a comparison compares the values of its operands in their order; `>` and `>=` are `<` and `<=` of the operands exchanged, and `~=` is `not` of `==` |
| LuaExpr.LogicLaws | software/os-app/apps/lua/src/lcode.c:857-904 | only nil and false are false; `not` gives true or false, and `and` and `or` give the operand that section 3.4.5 of the Lua 5.3 manual says |
| LuaCode.ComparisonRuns | software/os-app/apps/lua/src/lvm.c:1087-1115 | a comparison, a jump and two loads leave whether the comparison of the two operands, registers or constants, is what the first field says |
| LuaCode.TestRuns | software/os-app/apps/lua/src/lvm.c:1116-1132 | a test of a register lets the jump be taken exactly if the register is true or false as asked, and its other form copies the register exactly then |
| LuaCode.LoadsRun | software/os-app/apps/lua/src/lvm.c:806-833 | moves, loads and `not` write the registers that they name and no other |
| LuaCode.RunRewritten | software/os-app/apps/lua/include/lopcodes.h:171-262 | code of which jumps were patched, tests quieted and more was emitted behind, runs as before up to where it used to end, and goes on from there |
| LuaExprLemmas.Conditional | software/os-app/apps/lua/src/lcode.c:839-851 | a test with a jump splits the value of an expression by its truth |
| LuaExprLemmas.ToHereMeans | software/os-app/apps/lua/src/lcode.c:252-255 | exits of the other truth value may be made to lead here |
| LuaExprSteps.JoinMeans | software/os-app/apps/lua/src/lcode.c:1124-1135 | the code of an `and` or `or` means what the operands mean together, including which operand is evaluated |
| LuaExprFinish.NegateMeans | software/os-app/apps/lua/src/lcode.c:910-939 | exchanging the exits and negating the condition negates the meaning |
| LuaExprFinish.CompareMeans | software/os-app/apps/lua/src/lcode.c:1037-1060 | a comparison of two operands in registers or constants has the meaning of the operation |
| LuaExprFinish.LoadMeans | software/os-app/apps/lua/src/lcode.c:595-635 | loading a value into a register keeps the meaning |
| LuaExprFinish.MergeNilMeans | software/os-app/apps/lua/src/lcode.c:64-83 | so does widening the instruction before that loads nils |
| LuaExprFinish.FinishMeans | software/os-app/apps/lua/src/lcode.c:675-696 | with the two loads of truth values and the lists patched, the value is in the register on every path |
| LuaTable.Table.GetGeneric | software/os-app/apps/lua/src/ltable.c:541-553 | the search from the main position finds the key's node exactly if there is one |
| LuaTable.Table.Get | software/os-app/apps/lua/src/ltable.c:570-584 | the value that the map holds for the key, wherever it is kept |
| LuaTable.Table.Write | software/os-app/apps/lua/src/ltable.c:591-596 | writing a value, nil included, changes the map at that key only |
| LuaTable.Table.GetFreePos | software/os-app/apps/lua/src/ltable.c:422-431 | gives the last node without a key, or none if there is none left below |
| LuaTable.Table.Displace | software/os-app/apps/lua/src/ltable.c:456-473 | a colliding node that is out of its main position moves, and the new key takes its place; all keys stay where searches find them |
| LuaTable.Table.PutKey | software/os-app/apps/lua/src/ltable.c:442-491 | the key is inserted; all invariants hold: every key reachable from its main position, links injective, no key twice |
| LuaTable.Table.NumUseArray | software/os-app/apps/lua/src/ltable.c:257-280 | counts the keys of the array part by slices, exactly |
| LuaTable.Table.NumUseHash | software/os-app/apps/lua/src/ltable.c:283-296 | counts the keys of the hash part by slices, exactly |
| LuaTable.Table.Resize | software/os-app/apps/lua/src/ltable.c:333-365 | the table holds the same map after any change of sizes that leaves room for its keys |
| LuaTable.Table.Rehash | software/os-app/apps/lua/src/ltable.c:376-393 | the map is the same, the new array size is optimal for the keys, and there is room for the key that had none |
| LuaTable.Table.NewKey | software/os-app/apps/lua/src/ltable.c:442-491 | inserting a key ends (the table that was resized has room), and changes the map at that key only |
| LuaTable.Table.Set | software/os-app/apps/lua/src/ltable.c:591-596 | so does a key that may be there already |
| LuaTable.Table.Assign | software/os-app/apps/lua/src/lapi.c:773-813 | fails exactly for nil and NaN; otherwise the key, and every representation of the same number, gets the value, and what any other key gives stays |
| LuaTable.Table.Run | software/os-app/apps/lua/src/ltable.c:570-605 | after any sequence of assignments, nil included, the table holds the map that those assignments make: for every key the value that was assigned last to the same key, where numbers are the same key exactly if they are the same real number |
| TableState.NormalExact | software/os-app/apps/lua/src/ltable.c:440-460 | two keys have the same normal form exactly if they are the same real number, or the same value of another kind |
| TableLemmas.PlaceChained | software/os-app/apps/lua/src/ltable.c:474-490 | taking over a node in place, and leaving its link, keeps the invariants of the chains |
| TableLemmas.InsertChained | software/os-app/apps/lua/src/ltable.c:474-490 | so does putting the new key into a free node behind the main position |
| TableLemmas.MoveChained | software/os-app/apps/lua/src/ltable.c:456-473 | so does moving the colliding node to the free one |
| TableSizes.CeilLog2 | software/os-app/apps/lua/src/lobject.c:65-80 | the least power of two that is not below the number |
| TableSizes.ComputeSizes | software/os-app/apps/lua/src/ltable.c:219-238 | the result is the largest power of two of whose slots more than half are used, or 0, and the number of keys within it; stopping early and skipping empty slices lose nothing |
| PatternMatcher.MatchState.FindClassEnd | software/os-app/apps/lua/src/lstrlib.c:258-279 | the end of a single-character class, or the error that it has none |
| PatternMatcher.MatchState.MatchClass | software/os-app/apps/lua/src/lstrlib.c:282-299 | membership in a class of characters, and its complement |
| PatternMatcher.MatchState.MatchBracketClass | software/os-app/apps/lua/src/lstrlib.c:302-322 | membership in a set of characters, ranges and classes |
| PatternMatcher.MatchState.SingleMatch | software/os-app/apps/lua/src/lstrlib.c:325-338 | one character of the subject matches the class at the pattern position |
| PatternMatcher.MatchState.MatchBalance | software/os-app/apps/lua/src/lstrlib.c:341-358 | the end of the first balanced stretch, or none |
| PatternMatcher.MatchState.MaxExpand | software/os-app/apps/lua/src/lstrlib.c:361-373 | the longest repetition first, then shorter ones |
| PatternMatcher.MatchState.MinExpand | software/os-app/apps/lua/src/lstrlib.c:376-386 | the shortest repetition first, then longer ones |
| PatternMatcher.MatchState.StartCapture | software/os-app/apps/lua/src/lstrlib.c:389-400 | matches with a capture open, which is undone on failure |
| PatternMatcher.MatchState.EndCapture | software/os-app/apps/lua/src/lstrlib.c:403-411 | matches with the last open capture closed, which is undone on failure |
| PatternMatcher.MatchState.MatchCapture | software/os-app/apps/lua/src/lstrlib.c:414-422 | the ways left after a back reference are those of the rest from where it ends, none, or the error of a bad index |
| PatternMatcher.MatchState.Match | software/os-app/apps/lua/src/lstrlib.c:425-524 | the result is the first of all ways in which the pattern matches, in the order in which they are to be tried, with its captures; on failure level, captures and depth are as they were; it ends with too deep a recursion only if the pattern is longer than the depth left |
| PatternLaws.Repetitions | software/os-app/apps/lua/src/lstrlib.c:487-520 | for an item of one character and any rest of the pattern: `*` tries all numbers of repetitions from the greatest down, `+` the same without zero, `-` from zero up, `?` one and then none, and without a suffix there is just one |
| PatternLaws.RepetitionAlone | software/os-app/apps/lua/src/lstrlib.c:487-520 | a plain character with a suffix: its first match is the longest, the shortest, or there is none |
| PatternLaws.ClassRanges | software/os-app/apps/lua/src/lstrlib.c:282-299 | the classes by the ranges of bytes that they hold |
| PatternLaws.CapitalLaw | software/os-app/apps/lua/src/lstrlib.c:282-299 | a capital stands for the complement of its class |
| PatternLaws.OtherEscapes | software/os-app/apps/lua/src/lstrlib.c:282-299 | a character that names no class stands for itself |
| PatternLaws.OneCharacter | software/os-app/apps/lua/src/lstrlib.c:325-338 | what a dot, a plain character and an escape match, and where they end |
| PatternLaws.ListedSet | software/os-app/apps/lua/src/lstrlib.c:302-322 | a set that lists its members matches just those |
| PatternLaws.ComplementSet | software/os-app/apps/lua/src/lstrlib.c:302-322 | with a caret, just the others |
| PatternLaws.RangeSet | software/os-app/apps/lua/src/lstrlib.c:302-322 | a range matches everything between its ends, both included |
| PatternLaws.ClassSet | software/os-app/apps/lua/src/lstrlib.c:302-322 | a class in a set matches what the class does |
| PatternLaws.GroupAlone | software/os-app/apps/lua/src/lstrlib.c:389-411 | a captured repetition: where it began and how long it was |
| PatternLaws.PositionAlone | software/os-app/apps/lua/src/lstrlib.c:431-434 | an empty capture is the position |
| PatternLaws.BackAlone | software/os-app/apps/lua/src/lstrlib.c:414-422 | a back reference matches exactly the text that was captured |
| PatternLaws.EndAlone | software/os-app/apps/lua/src/lstrlib.c:442-447 | a dollar sign at the end matches at the end only |
| PatternLaws.MalformedLaws | software/os-app/apps/lua/src/lstrlib.c:216-279 | the errors of malformed patterns |
| PatternLaws.Balanced | software/os-app/apps/lua/src/lstrlib.c:341-358 | balanced text ends at the first place where there are as many of both characters, and there is none exactly if no such place exists |
| PatternLaws.PositionLaws | software/os-app/apps/lua/src/lstrlib.c:63-68 | positions count from 1, and negative ones from the end |
| PatternFind.NoSpecials | software/os-app/apps/lua/src/lstrlib.c:580-588 | whether the pattern has special characters |
| PatternFind.FindText | software/os-app/apps/lua/src/lstrlib.c:528-552 | the first place at which the text occurs, or none |
| PatternFind.Scan | software/os-app/apps/lua/src/lstrlib.c:638-648 | the leftmost position at which the pattern matches, and its first match there |
| PatternFind.FindAux | software/os-app/apps/lua/src/lstrlib.c:607-651 | searching, with an initial position, an anchor and the plain shortcut |
| PatternFind.ShortcutAgrees | software/os-app/apps/lua/src/lstrlib.c:580-626 | for a pattern without special characters, the plain search finds what matching would find, for all subjects, exactly if the pattern has no closing parenthesis |
| PatternFind.ShortcutDisagrees | software/os-app/apps/lua/src/lstrlib.c:580-626 | for the pattern `)` matching would be an error, while the plain search finds it |
| LexString.AddQuoted | software/os-app/apps/lua/src/lstrlib.c:916-936 | what quoting gives: a closed form, byte by byte |
| LexString.ReadQuoted | software/os-app/apps/lua/src/llex.c:366-426 | reading a quoted string, whatever follows it, gives the string back and consumes exactly the quotation |
| LexString.Utf8Encode | software/os-app/apps/lua/src/lobject.c:346-361 | the encoding of a code point, shortest form |
| LexString.LexState.IncLineNumber | software/os-app/apps/lua/src/llex.c:151-159 | skips one line end, of one or two characters, and counts it once |
| LexString.LexState.ReadDecEsc | software/os-app/apps/lua/src/llex.c:353-363 | up to three decimal digits, at most 255, are one character |
| LexString.LexState.Utf8Esc | software/os-app/apps/lua/src/llex.c:327-350 | the escape of a code point, or its error |
| LexString.LexState.ReadHexaEsc | software/os-app/apps/lua/src/llex.c:319-324 | exactly two hexadecimal digits |
| LexString.LexState.ReadString | software/os-app/apps/lua/src/llex.c:366-426 | reads a literal as the grammar of escapes gives it (`LexLaws`), counts its lines, and fails as that does |
| LexLaws.SimpleEscapes | software/os-app/apps/lua/src/llex.c:381-387 | the letters `abtnvfr` stand for the same bytes as the decimal escapes 7 to 13 |
| LexLaws.QuoteEscapes | software/os-app/apps/lua/src/llex.c:392-393 | a backslash and the two quotes stand for themselves |
| LexLaws.OtherEscapes | software/os-app/apps/lua/src/llex.c:404-408 | whatever begins no escape sequence is refused |
| LexLaws.DecimalLaw | software/os-app/apps/lua/src/llex.c:353-363 | three decimal digits are the byte of that value, or too large |
| LexLaws.HexLaw | software/os-app/apps/lua/src/llex.c:319-324 | two hexadecimal digits, in either case, stand for the same byte as its decimal escape |
| LexLaws.HexRefused | software/os-app/apps/lua/src/llex.c:311-316 | anything else in the place of one is refused |
| LexLaws.CodePointLaw | software/os-app/apps/lua/src/llex.c:327-342 | digits in braces, as many as there are, stand for the encoding of their number, or are too large |
| LexLaws.Utf8Encodes | software/os-app/apps/lua/src/lobject.c:346-361 | what is written for a code point is its shortest encoding in UTF-8 |
| LexLaws.LineEndLaws | software/os-app/apps/lua/src/llex.c:390-391 | a backslash before a line end gives a newline and counts a line |
| LexLaws.PairLaws | software/os-app/apps/lua/src/llex.c:151-159 | two different characters of line ends are one line end, and two of the same are two |
| LexLaws.SkipLaw | software/os-app/apps/lua/src/llex.c:395-403 | `z` skips white space and nothing else |
| LexLaws.BodyLaws | software/os-app/apps/lua/src/llex.c:366-376 | what stands for itself in a literal, what ends it, and what it may not hold |
| LexLaws.QuotedLaws | software/os-app/apps/lua/src/lstrlib.c:916-936 | what `%q` writes for each byte |
| LexString.LexState.ReadBack | software/os-app/apps/lua/src/llex.c:366-426 | quoting a string and reading the quotation gives every string back, NUL, line ends, control bytes before digits, quotes and backslashes included, and leaves the input that follows |
| LuaPrecedence.PrioritiesAsInManual | software/os-app/apps/lua/src/lparser.c:1028-1042 | the numbers of the table order operators as section 3.4.8 of the manual does, with its associativity, and put unary operators below exponentiation only |
| LuaPrecedence.SubexprSound | software/os-app/apps/lua/src/lparser.c:1044-1075 | the tree that is read has the tokens that were consumed, fits the priorities, takes no operator at or below the limit, and what follows is an operator that it may not take, or none |
| LuaPrecedence.SubexprComplete | software/os-app/apps/lua/src/lparser.c:1044-1075 | a tree that fits, followed by nothing that would belong to it, is read; too many levels is the answer exactly if it is nested deeper than allowed |
| LuaPrecedence.ReadsOnce | software/os-app/apps/lua/src/lparser.c:1044-1075 | a list of tokens begins with at most one such tree |
| LuaPrecedence.OneTree | software/os-app/apps/lua/src/lparser.c:1028-1042 | two trees that fit do not have the same tokens |
| LuaPrecedence.PrintRead | software/os-app/apps/lua/src/lparser.c:1044-1075 | any operator tree, printed with the parentheses that it needs, is read back as the same operators |
| LuaPrecedence.FitsAsIs | software/os-app/apps/lua/src/lparser.c:1028-1042 | a tree that fits needs no parentheses |
| LuaPrecedence.OnlyFits | software/os-app/apps/lua/src/lparser.c:1028-1042 | one that does not fit is not read back without them |
| LuaPrecedence.OperatorTokens | software/os-app/apps/lua/src/lparser.c:975-1014 | a token is an operator exactly if it is that operator's token |
| LuaPrecedence.OperatorsWritten | software/os-app/apps/lua/src/lparser.c:986-1022 | the token of an operator is written as section 3.4 of the manual writes the operator |
| LuaParser.LexState.SubExpr | software/os-app/apps/lua/src/lparser.c:1048-1075 | climbs over operators by priorities, and returns the first operator that is not taken |
| LuaParser.LexState.Expr | software/os-app/apps/lua/src/lparser.c:1078-1080 | gives the only tree that fits at the beginning of the tokens, if there is one and it is not nested too deeply, and leaves the rest |
| LuaParser.LexState.PrimaryExp | software/os-app/apps/lua/src/lparser.c:871-890 | a simple expression, or an expression in parentheses that must be closed |
| LuaDump.DumpState.DumpBlock | software/os-app/apps/lua/src/ldump.c:40-46 | writes a block unless an earlier one failed |
| LuaDump.DumpState.DumpString | software/os-app/apps/lua/src/ldump.c:73-87 | a string with its size in one byte or in five, or the null pointer |
| LuaDump.DumpState.DumpConstants | software/os-app/apps/lua/src/ldump.c:98-125 | all constants, each with its tag |
| LuaDump.DumpState.DumpUpvalues | software/os-app/apps/lua/src/ldump.c:137-144 | the upvalues without their names |
| LuaDump.DumpState.DumpDebug | software/os-app/apps/lua/src/ldump.c:147-163 | lines, local variables and names, or none when stripped |
| LuaDump.DumpState.DumpProtos | software/os-app/apps/lua/src/ldump.c:128-134 | the functions inside, in order |
| LuaDump.DumpState.DumpFunction | software/os-app/apps/lua/src/ldump.c:166-181 | the bytes of the function; after a failure of the writer, a beginning of them |
| LuaDump.Dump | software/os-app/apps/lua/src/ldump.c:201-214 | the whole chunk |
| ChunkLaws.HeaderBytesAre | software/os-app/apps/lua/src/ldump.c:184-196 | the header, byte by byte |
| ChunkLaws.NumberIs | software/os-app/apps/lua/include/lundump.h:18-19 | the bits of the number in it are those of 370.5 |
| ChunkLaws.ConstantLaws | software/os-app/apps/lua/src/ldump.c:98-125 | a constant has the tag of its type, and its value behind it |
| ChunkLaws.StringLaws | software/os-app/apps/lua/src/ldump.c:73-87 | a string has the tag of its length, one more than its length in one byte or five, and its bytes |
| ChunkLaws.EmptyChunk | software/os-app/apps/lua/src/ldump.c:147-181 | the dump of an empty chunk, stripped or not, byte by byte in the order of the format |
| LuaUndump.LoadState.LoadString | software/os-app/apps/lua/src/lundump.c:88-104 | a string, or the null pointer, or the error of a short input |
| LuaUndump.LoadState.LoadConstants | software/os-app/apps/lua/src/lundump.c:118-149 | as many constants as the size says |
| LuaUndump.LoadState.LoadDebug | software/os-app/apps/lua/src/lundump.c:180-199 | lines, local variables, and the names of upvalues |
| LuaUndump.LoadState.LoadProtos | software/os-app/apps/lua/src/lundump.c:152-163 | the functions inside |
| LuaUndump.LoadState.LoadFunction | software/os-app/apps/lua/src/lundump.c:202-216 | a function, read from the stream as the format has it |
| LuaUndump.LoadState.Undump | software/os-app/apps/lua/src/lundump.c:257-279 | a chunk that was dumped is loaded, and what follows is left |
| LuaUndump.ExpectExactly | software/os-app/apps/lua/src/lundump.c:219-252 | the header is accepted exactly if the input begins with it |
| LuaUndump.ChunkTrip | software/os-app/apps/lua/src/lundump.c:257-279 | loading what was dumped, stripped or not |
| LuaChunkTrips.FunctionTrip | software/os-app/apps/lua/src/lundump.c:202-216 | for every nested prototype, loading after dumping gives it back (stripped: without sources, lines, local names and upvalue names at every depth) and leaves the bytes that follow |
| LuaChunkTrips.RoundTrip | software/os-app/apps/lua/src/ldump.c:166-181 | without stripping, for every nested prototype, an equal one comes back and what follows is left |
| LuaChunkTrips.StrippedBare | software/os-app/apps/lua/src/ldump.c:147-163 | what comes back from a stripped dump has no debug information at any depth |
| LuaChunkTrips.DumpsDiffer | software/os-app/apps/lua/src/ldump.c:166-181 | no dump is the beginning of another one |
| LuaUpvalues.LState.FindUpval | software/os-app/apps/lua/src/lfunc.c:57-80 | the one open upvalue of a stack level, made if there is none; the list stays strictly descending; no other variable changes |
| LuaUpvalues.LState.Close | software/os-app/apps/lua/src/lfunc.c:83-96 | no open upvalue is left at or above the level; every one that a closure refers to keeps its variable, the others are freed |
| LuaUpvalues.LState.ReallocStack | software/os-app/apps/lua/src/ldo.c:177-188 | after the stack has moved every variable is the one it was, and `top` and frames are at their distances |
| LuaUpvalues.LState.CorrectStack | software/os-app/apps/lua/src/ldo.c:158-170 | every open upvalue, and every frame, moves by the same distance |
| LuaUpvalues.LState.PushClosure | software/os-app/apps/lua/src/lvm.c:635-653 | a new closure shares the variables that it captures, from the stack and from the enclosing closure |
| LuaUpvalues.LState.UpvDecCount | software/os-app/apps/lua/src/lgc.c:677-682 | one reference less; an upvalue is freed only if no reference is left and it is closed |
| LuaUpvalues.LState.FreeClosure | software/os-app/apps/lua/src/lgc.c:685-693 | freeing a closure leaves every upvalue that another one refers to |
| LuaUpvalues.LState.InitUpvals | software/os-app/apps/lua/src/lfunc.c:45-54 | a closure with new closed upvalues that hold nil |
| LuaUpvalues.LState.SetRegister | software/os-app/apps/lua/src/lvm.c:858-863 | a write to a register is a write to the variable that lives there |
| LuaUpvalues.LState.SetUpval | software/os-app/apps/lua/src/lvm.c:858-863 | a write through an upvalue is a write to its variable, wherever that lives |
| LuaUpvalues.LState.SharingReads | software/os-app/apps/lua/src/lfunc.c:57-96 | two upvalues of closures are one variable exactly if they are one object, and both read the cell of that variable |
| LuaUpvalues.LState.Step | software/os-app/apps/lua/src/lfunc.c:57-96 | each operation writes the one variable that it names or none, adds or takes away the closure that it should with the variables captured, gives closed slots new variables, and leaves every variable of a closure that lives on |
| LuaUpvalues.LState.Run | software/os-app/apps/lua/src/lfunc.c:57-96 | any run of captures, closes, moves of the stack, frees and writes does what its operations do, one after the other; so every closure keeps its variables, and every variable holds what was written to it last, through whichever register or closure |
| LuaSort.Partition | software/os-app/apps/lua/src/ltablib.c:310-339 | with any comparison, it is called with elements of the range only, nothing outside moves, and the elements are a permutation; with a strict weak order of these elements, no error is raised and they are split around the pivot |
| LuaSort.ChoosePivot | software/os-app/apps/lua/src/ltablib.c:346-351 | a pivot in the middle half |
| LuaSort.SortStep | software/os-app/apps/lua/src/ltablib.c:354-408 | one turn of the loop recurses into the smaller side, for which one level less is enough |
| LuaSort.AuxSort | software/os-app/apps/lua/src/ltablib.c:354-408 | always a permutation, with the comparison called with elements of the range only, and calls nest no deeper than the logarithm of the size, which bounds the termination measure; with a strict weak order of these elements, sorted and never an error |
| LuaSort.Sort | software/os-app/apps/lua/src/ltablib.c:411-421 | the elements 1 to n are permuted, and sorted without an error if the comparison is a strict weak order of them, whatever it does elsewhere |
| WordArith.CountLeadingZeros | software/base-port/tool/src/int64.c:295-311 | the number of zeros before the first bit |
| WordArith.CountTrailingZeros | software/base-port/tool/src/int64.c:319-341 | the number of zeros after the last bit |
| Int64Division.PlaceFew | software/base-port/tool/src/int64.c:243-249 | shifting within words leaves exactly the number shifted right, and the bits that were shifted out at the top of the quotient |
| Int64Division.PlaceMany | software/base-port/tool/src/int64.c:198-206 | the same for a shift by more than a word |
| Int64Division.DivideBit | software/base-port/tool/src/int64.c:260-283 | one round keeps: the divisor goes so often into the bits taken so far and leaves a remainder below it; the remainder stays so small that the sign of the difference is exact |
| Int64Division.SignTest | software/base-port/tool/src/int64.c:280-282 | the sign bit of the difference tells which number is larger, when they are less than 2^63 apart |
| Int64Division.LoopStart | software/base-port/tool/src/int64.c:127-206 | the shift is chosen so that the first remainder is below the divisor, and stays in range |
| Int64Division.DivideLoop | software/base-port/tool/src/int64.c:251-288 | from any such start the loop ends with quotient and remainder |
| Int64Division.DivideByHigh | software/base-port/tool/src/int64.c:120-172 | the paths for a divisor of which the low word is zero |
| Int64Division.DivideByLow | software/base-port/tool/src/int64.c:174-215 | the paths for a divisor of which the high word is zero |
| Int64Division.DivideByBoth | software/base-port/tool/src/int64.c:217-249 | the paths for a divisor of which neither is zero |
| Int64Division.UDivModDi4 | software/base-port/tool/src/int64.c:81-289 | for every dividend and every divisor but zero, a = q * b + r and r < b, on every path |
| Int64Division.TruncatedOnly | software/base-port/tool/src/int64.c:26-37 | the truncated quotient is the only one that leaves a remainder smaller than the divisor with the sign of the dividend |
| Int64Division.DivDi3 | software/base-port/tool/src/int64.c:26-37 | the truncated quotient modulo 2^64, the smallest number divided by -1 included |
| Int64Division.ModDi3 | software/base-port/tool/src/int64.c:50-63 | the remainder, with the sign of the dividend |
| Int64Division.DivModDi4 | software/base-port/tool/src/int64.c:40-47 | both, the remainder by multiplying back with wrapping words |
| PackInt.Pack | software/os-app/apps/lua/src/lstrlib.c:1303-1317 | the bytes of the number in the given order, with the sign in all bytes above the eighth |
| PackInt.Unpack | software/os-app/apps/lua/src/lstrlib.c:1458-1481 | the integer that the bytes stand for, or none if it does not fit into 64 bits |
| PackInt.UnpackedSigned | software/os-app/apps/lua/src/lstrlib.c:1458-1481 | a signed result is the only integer of 64 bits, in the range of that many bytes, that is the number modulo 256^size |
| PackInt.StoredUnpacked | software/os-app/apps/lua/src/lstrlib.c:1303-1317 | every integer that fits is unpacked again, for all sizes, signed or not |
| PackFormat.PaddingAligns | software/os-app/apps/lua/src/lstrlib.c:1276-1294 | the padding for an alignment is the least that makes the position a multiple |
| PackFormat.DetailsAnywhere | software/os-app/apps/lua/src/lstrlib.c:1276-1294 | apart from padding, an option is read the same way at every position |
| PackFormat.Header.ReadNum | software/os-app/apps/lua/src/lstrlib.c:1190-1200 | a numeral, read until one more digit might be too large |
| PackFormat.Header.ReadOption | software/os-app/apps/lua/src/lstrlib.c:1229-1264 | kind, size and settings of an option, or its error |
| PackFormat.Header.ReadDetails | software/os-app/apps/lua/src/lstrlib.c:1276-1294 | the same with the padding, and the option after `X` |
| PackStrings.ItemTrip | software/os-app/apps/lua/src/lstrlib.c:1338-1422 | what an option packs it unpacks, and takes as many bytes |
| PackStrings.RoundTrip | software/os-app/apps/lua/src/lstrlib.c:1484-1545 | for every format and every accepted list of arguments, unpacking what was packed gives the arguments back, fixed strings filled with zeros, and stops exactly at the end, whatever follows |
| PackStrings.SizeExact | software/os-app/apps/lua/src/lstrlib.c:1425-1447 | if a format has a size, everything that it packs is exactly as long |
| PackStrings.StrPack | software/os-app/apps/lua/src/lstrlib.c:1338-1422 | packs by the format, or fails as it should; and what it gives unpacks |
| PackStrings.StrUnpack | software/os-app/apps/lua/src/lstrlib.c:1484-1545 | unpacks by the format from a position, or fails as it should |
| PackStrings.StrPackSize | software/os-app/apps/lua/src/lstrlib.c:1425-1447 | the size of everything the format packs |
| PackLaws.SizedLaws | software/os-app/apps/lua/src/lstrlib.c:1229-1266 | options with a digit have that size |
| PackLaws.LetterLaws | software/os-app/apps/lua/src/lstrlib.c:1229-1266 | letters are integers of the sizes of types in C |
| PackLaws.FloatLaws | software/os-app/apps/lua/src/lstrlib.c:1243-1245 | the sizes of floats |
| PackLaws.DefaultLaws | software/os-app/apps/lua/src/lstrlib.c:1229-1266 | what is taken where a number is left out |
| PackLaws.OrderOptions | software/os-app/apps/lua/src/lstrlib.c:1229-1266 | the options for the byte order, and a blank |
| PackLaws.SizeLimits | software/os-app/apps/lua/src/lstrlib.c:1207-1213 | sizes are from 1 to 16 |
| PackLaws.NoOption | software/os-app/apps/lua/src/lstrlib.c:1261-1261 | any other character is an error |
| PackLaws.OrderLaws | software/os-app/apps/lua/src/lstrlib.c:1303-1315 | the bytes of a number in both orders |
| PackLaws.SignLaws | software/os-app/apps/lua/src/lstrlib.c:1349-1362 | a negative number has its complement, and one out of range is refused |
| PackLaws.PositionLaws | software/os-app/apps/lua/src/lstrlib.c:63-68 | positions to unpack from count from 1, and negative ones from the end |
| PackLaws.StringLaws | software/os-app/apps/lua/src/lstrlib.c:1377-1415 | strings with a zero behind, with their length before them, or filled up with zeros |
| LuaStrings.NotBack | software/os-app/apps/lua/src/lstring.c:79-89 | a string that was moved does not come into a bucket that is still to be rehashed, since sizes are powers of two |
| LuaStrings.RehashTake | software/os-app/apps/lua/src/lstring.c:79-82 | when a bucket's turn comes, it holds exactly the strings that the old size put there |
| LuaStrings.RehashMove | software/os-app/apps/lua/src/lstring.c:82-88 | one string is put where the new size has it; no other bucket changes |
| LuaStrings.RehashDone | software/os-app/apps/lua/src/lstring.c:79-95 | at the end every string is in the bucket of the new size, and what is cut off is empty |
| LuaStrings.OneForEach | software/os-app/apps/lua/src/lstring.c:167-193 | there are as many contents as strings |
| LuaStrings.StringTable.Resize | software/os-app/apps/lua/src/lstring.c:71-96 | growing or shrinking in place loses and duplicates nothing |
| LuaStrings.StringTable.InternShrStr | software/os-app/apps/lua/src/lstring.c:167-193 | the one string with these contents, brought back to life if it was dead, or a new one; no other string changes |
| LuaStrings.StringTable.Remove | software/os-app/apps/lua/src/lstring.c:154-161 | exactly that string leaves the table |
| LuaStrings.StringTable.CheckSizes | software/os-app/apps/lua/src/lgc.c:777-784 | halves the table if it is mostly empty, and loses nothing |
| AxiLog.ReadsGoOn | simulator/sim/memory/paddr.cpp:79-101 | a beat more in a burst of reads: the next address, and marked as last exactly at the length asked for |
| AxiLog.ReadBeatAt | simulator/sim/memory/paddr.cpp:79-101 | beat number k of a burst is at the first address plus k times the size |
| AxiLog.LastWriteRead | simulator/sim/memory/paddr.cpp:57-151 | in any run, a beat reads what the last write to its bytes left |
| AxiLog.BurstStores | simulator/sim/memory/paddr.cpp:108-151 | a burst of whole words puts exactly those words into memory, one after the other, and changes nothing else |
| AxiLog.BurstReadBack | simulator/sim/memory/paddr.cpp:57-151 | after such a burst, a later read finds the words, until something is written there |
| AxiLog.AddressesAgree | simulator/sim/memory/paddr.cpp:84-84 | the addresses of a burst are those of section A3.4.1 of ARM IHI 0022 exactly if it has one beat or begins at an aligned address |
| AxiBursts.StrobesExact | simulator/sim/memory/paddr.cpp:113-143 | a beat of a burst in memory is accepted and writes what the protocol asks for, whatever data and memory, exactly if its strobes are the lanes from that of the first address on, without gaps, at the same lane as the first beat, and number 1, 2 or 4 |
| AxiBursts.ThreeStrobesStop | simulator/sim/memory/paddr.cpp:177-197 | three strobes side by side stop the simulator, and so do none |
| AxiBursts.WriteBurst | simulator/sim/memory/paddr.cpp:108-151 | a burst of whole words at an aligned address in memory is always accepted, whatever the pauses, and leaves exactly its words |
| AxiBursts.ReadBurst | simulator/sim/memory/paddr.cpp:62-103 | a burst of reads of whole words in memory is always served, and gives the words that are there |
| AxiBursts.WriteThenRead | simulator/sim/memory/paddr.cpp:57-151 | what a burst of words wrote a later one reads, whatever the pauses of both |
| AxiChannel.CountStrobes | simulator/sim/memory/paddr.cpp:132-138 | the number of strobes |
| AxiChannel.ReadHanded | simulator/sim/memory/paddr.cpp:79-101 | handing over a beat keeps the account of complete bursts, and of memory |
| AxiChannel.WriteTaken | simulator/sim/memory/paddr.cpp:113-143 | so does taking one |
| AxiMemory.AxiMemory.Fetch | simulator/sim/memory/paddr.cpp:84-85 | a read is fine exactly if a burst that began in memory stays there with a size that the host has, or one that did not keeps out of it |
| AxiMemory.AxiMemory.PmemRead | simulator/sim/memory/paddr.cpp:62-103 | one step of the read channels: exactly when it goes well, its next state and signals; a beat is handed over only when the master is ready, and offered again until then |
| AxiMemory.AxiMemory.PmemWrite | simulator/sim/memory/paddr.cpp:108-151 | one step of the write channels: exactly when it goes well, its next state, signals and memory |
| AxiMemory.AxiMemory.HostWrite | simulator/sim/memory/paddr.cpp:177-197 | the low bytes of a word are written at the address, exactly for the sizes that there are and within the array |
| AxiMemory.AxiMemory.HostRead | simulator/sim/memory/paddr.cpp:158-174 | the bytes at the address as a number, exactly for the sizes that there are and within the array |
| AxiMemory.AxiMemory.Tick | simulator/sim/memory/paddr.cpp:57-151 | one cycle, the step of the write channels before that of the read channels: exactly when both go well, its next state, memory and what is handed over, and the data that is offered to be read |
| AxiMemory.AxiMemory.Run | simulator/sim/memory/paddr.cpp:57-151 | for any signals over any number of cycles: exactly when all steps go well; then channels, memory and what was handed over are what the signals make of them cycle by cycle, and the data offered in each cycle is what memory held; so complete bursts of exactly the length asked for were read, in order, and at most one is not complete; writes are bursts that end with their last beat and one response each; every beat read from memory has what was written there last |
| NemuPattern.MaskTest | simulator/nemu/include/cpu/decode.h:90-97 | masking a word gives the key exactly if every fixed bit of the pattern agrees |
| NemuPattern.TestExact | simulator/nemu/include/cpu/decode.h:56-59 | leaving out the bits behind the last fixed one changes nothing |
| NemuPattern.PatternDecode | simulator/nemu/include/cpu/decode.h:31-60 | for every pattern of fewer than 64 characters over `0`, `1`, `?` and space, the compiled numbers accept a word exactly if every fixed bit agrees; every other pattern is refused |
| NemuCpu.NewValueOnly | simulator/nemu/src/isa/riscv32/inst.c:190-196 | the setting and clearing of bits in section 9.1 of the RISC-V ISA determines the new value |
| NemuCpu.ComputedRight | simulator/nemu/src/isa/riscv32/inst.c:190-196 | what is computed sets or clears exactly the bits of the operand |
| NemuCpu.TrapReturn | simulator/nemu/src/isa/riscv32/inst.c:99-109 | a trap and the return from it restore the stack of modes exactly if its oldest entry is the one that a return puts in |
| NemuCpu.Cpu.ExecCsr | simulator/nemu/src/isa/riscv32/inst.c:190-196 | the register named gets its new value and the destination the old one, even if the destination is register 0 and serves as scratch, or is the operand as well |
| NemuCpu.Cpu.ExecOnce | simulator/nemu/src/isa/riscv32/inst.c:113-212 | one instruction: registers, control and status registers and next address, with register 0 zero again |
| NemuCpu.Cpu.Run | simulator/nemu/src/isa/riscv32/inst.c:113-212 | any number of instructions: each does what it should, register 0 is zero between any two, and the run ends early only at an instruction that names a control and status register that does not exist |
| NemuLaws.DecodedLaw | simulator/nemu/src/isa/riscv32/inst.c:186-200 | which instruction a word is, by its seven lowest bits and its bits 12 to 14, or as a whole |
| NemuLaws.FieldLaws | simulator/nemu/src/isa/riscv32/inst.c:20-56 | where the fields of an instruction are, as quotients and remainders |
| NemuLaws.CsrLaws | simulator/nemu/src/isa/riscv32/inst.c:58-93 | the numbers of the control and status registers |
| NemuLaws.StackLaws | simulator/nemu/src/isa/riscv32/inst.c:99-109 | what a trap and a return make of the stack of modes, by arithmetic |

## Left out

Garbage collector:
- GcProgram.Run: finalizers that run between steps of a sweep are not operations of a run, and a metatable write that would lose the
  metatable is skipped; `GcProgram.SetMetatable` and `GcCycleLemmas.PopFinalizerSafe` say exactly when each is safe. Objects with finalizers
  are not registered during a run, and C closures are not made.
- GcAtomicLemmas.MarkedKeeps: tables on `allweak` since the marking phase, whose weak mode the program may have changed since, or which got a
  metatable unseen, are excepted.
- GcProgram.SetMetatable: userdata, and the search for a finalizer in the new metatable, are not modelled.
- GcProgram.NewState: the registry, the string table and the fixed strings that are built next are not in it.
- GcCollector.Collector.FreeObj: the reference counts that a freed closure drops are in `LuaUpvalues` only.
- The calls of finalizers themselves, `luaC_checkfinalizer`, debt and pacing, emergency collections in the middle of other operations,
  allocator failure, `luaC_freeallobjects`, and the shrinking of stacks and of the string cache.
- Dead keys: an entry whose value is nil is taken to be without a key, which is what marking and clearing make of it.
- Reference counts of upvalues during collection; `LuaUpvalues` has them, without colours. `luaC_upvaljoin` and the cache of closures.
- The bits of the `marked` byte: a colour is one of two whites, gray or black; a swept or fixed object is in the list that says so.

Code generator:
- Arithmetic, concatenation, indexing, calls, upvalues, globals, varargs and constant folding: expressions made of those would be leaves here.
- `LOADKX`, the range of `sBx`, and the limit on registers, which is a precondition (`Need`). Expression descriptors are passed and
  returned instead of changed in place. Comparisons are any pure functions of two values.

Tables:
- Infinities as keys, sizes beyond the limits of the array and the hash part, dead keys, `luaH_next` and `luaH_getn`. Array and node vector
  are sequences that are assigned to.

Strings, parser and chunks:
- `gmatch`, `gsub` and the other functions of the library; locales.
- Floating point: the options `f`, `d` and `n` of formats are refused with an error of their own. Values are not converted between numbers
  and strings. Sizes are those of a 32-bit machine with little-endian words. A length with which the check of a counted
  string wraps around is an outcome of its own (`Overrun`), of which nothing more is said.
- Suffixes of names and parentheses (fields, calls) belong to one token together with what they follow; a parenthesis directly behind an
  operand ends the expression here.
- Code that the parser emits while it climbs; `LuaCodeGen` has it, from the tree.
- A function with a null source inside one that has a source: neither the parser (`lparser.c` 546) nor the loader (`lundump.c` 203-205) makes one.
- LuaUndump.LoadState.LoadDebug: more names than upvalues, and a null string as a constant, are undefined in C and an error of their own
  here. An allocation that is too large but not negative in size does not fail here.
- `luaF_newproto` and the collector during loading. Strings are their contents; short or long is decided by length.
- Upvalues of a thread that is on no list any more, and everything about them that only the collector reads.
- The hash function of strings is any function, and long strings are not interned. The seed and the cache of C strings are not part of
  this model.
- LuaSort.Sort: an array is sorted from index 1 on, and comparison is a function; errors raised by a comparison, and reads through
  metamethods, are not modelled. The random pivot is any number. How deep calls nest is bounded in the contract of `LuaSort.AuxSort`, by
  the number that goes down with every call; it gets the logarithm of n + 1.

Bus and emulator:
- AxiMemory.AxiMemory.Run: nothing is said after an assertion of the simulator failed, or after an access that leaves the array of memory
  in the middle of a burst. Devices are any function for reads, ignore writes, and take every size.
- NemuCpu.Cpu.ExecOnce: rows of the table that are not on control and status registers, traps or returns are a parameter. None of them fits
  an instruction that a modelled row fits: they have another opcode, or another fixed field in the case of `ebreak`.
- Verilator, devices, the debugger and the loader; the file system; the rest of the Lua libraries and of the virtual machine.
