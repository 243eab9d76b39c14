# Verification of the Lua core

This project models the core of Lua 5.1.2 that is bundled in `open-ldb/` and proves what that code promises. Each
part is a small group of modules; code that updates state in place is a class or a method over an array, proved against
functions whose properties are lemmas.

- **Garbage collector** (`Gc*.dfy`): the heap is a graph of objects with colours, lists and phases. The collector's
  steps and the program's moves are methods of one class, `GlobalState`; `GcState.G` is its whole state as a value, and
  `GcState.Inv` the invariant that every step keeps.
- **Code generator and interpreter** (`LuaVm`, `ExprSem`, `*Proofs`, `CodeGen`): expressions are compiled with delayed
  code, jump lists threaded through the code, and registers allocated as a stack. The meaning of unfinished code is the
  set of runs through jumps that are still pending.
- **Tables** (`HashPart`, `Sizing`, `Table*`): the array part, and the hash part with its chains.
- **Patterns** (`Pattern`, `PatternMeaning`, `Matcher`, `Finder`, `PlainPattern`, `PatternText`, `Gsub`): the
  backtracking matcher against a list of outcomes in order of preference, that list against a declarative meaning, and
  both against what the texts of patterns stand for.
- **Sort** (`Sort`), **chunks** (`Zio`, `Chunk`, `ChunkProofs`, `Dump`, `Undump`), **%q and string literals** (`Quote`),
  **string table** (`Strings`), **operator precedence** (`Subexpr`), **references** (`Ref`), **floating point bytes**
  (`FbByte`).

Errors raised by longjmp are failure results; after one, nothing is claimed about the state unless said.
`dafny verify dfyconfig.toml` checks everything.

Four places where the code does not meet what it is meant to do came up, each with an input and the exact condition:

- `lua_setupvalue` (lapi.c:1064-1078) applies the barrier to the closure, although the store is into the upvalue, which
  closures share: `GcApi.SetUpvalueApi`, `GcApi.ApiFails`.
- the barriers assert a phase (lgc.c:665) that a userdata with a pending finalizer, found through a weak key, can miss:
  `GcApi.BarrierPhase`, `GcApi.BarrierPhaseFails`.
- a full collection that begins while finalizers are still to be called (lgc.c:636-659) does not look into the userdata
  that await theirs before it queues more, so that it can queue one that the program still reaches:
  `GcState.QueuedAt` in `Gc.GlobalState.Atomic`, `GcApi.ReachedQueued`, `GcState.QueuedExactly`.
- `string.find` looks for special characters without `)` and only up to the first NUL (lstrlib.c:501-503), so that its
  shortcut and its matcher disagree on such patterns: `PlainPattern.ShortcutAgrees`.

One round trip has a condition that the format asks for and that all writers of prototypes in the repository meet: a
function without a source of its own comes back from a chunk with one (lundump.c:164), `Undump.SameTree`.

## Model

| member | source | states |
|---|---|---|
| GcRun.ReachableSafe | open-ldb/lgc.c:407-428 | In every state that keeps the collector's invariant, whatever the phase, each path of fields from a root ends at a non-object or at an object that is allocated and that sweeplist will not free. |
| GcOps.SelectAll | open-ldb/lgc.c:69-112 | The fields that paths of the safety theorem follow are all the references of an object, kind by kind, and no others, upvalues being followed to the stack slot or value they stand for. |
| Gc.GlobalState.Run | open-ldb/lgc.c:556-607 | For any sequence of program moves, single collector steps and full collections, from any state that keeps the invariant: each move has its effect and no other, and in every state on the way everything a program can reach over any path is allocated and safe from the sweep, and no finalizer has been called twice. |
| Gc.GlobalState.Do | open-ldb/lgc.c:662-683 | Each move does what it is meant to: a push, an assignment, a read through a field, a write with its barrier, a new object, string or closure, the closing of upvalues, a change of thread or metatable, or a collection; and only a store into a userdata that awaits its finalizer, outside the marking phase, can take the black from such userdata. |
| GcRun.StackLaws | open-ldb/lapi.c:160-174 | A program holds what is on its stack; setting the top cuts the stack or fills it with nil, and an assignment copies one slot to another and leaves the rest. |
| GcRun.FetchLaws | open-ldb/lapi.c:224-230 | A move that reads pushes the constant, the slot, the field of an object on the stack, the registry or the metatable it names, and nothing when there is none. |
| Gc.GlobalState.SingleStep | open-ldb/lgc.c:556-607 | A step frees nothing that is live, and outside Pause makes a rank smaller, so that a cycle always ends; marking and sweeping leave the contents of live objects, but for keys of empty entries, and the atomic step removes from weak tables exactly the entries with a dead half or a finalized userdata. |
| Gc.GlobalState.Atomic | open-ldb/lgc.c:525-553 | After the atomic step the white is flipped and the live objects are exactly the marked ones. In every table an entry stays as it is when each half is not collectable, a string or alive, and its value is no finalized userdata; in the tables on the weak list, which are the live ones that are weak by their metatable and were not black before, every other entry is gone. Of the userdata whose finalizer is still to be called, exactly those are queued that no strong references reach from the roots and the marked objects without leaving a userdata queued and marked before; root list and tmudata together keep all userdata. |
| GcState.QueuedExactly | open-ldb/lgc.c:525-553 | With nothing queued before, as in every cycle that starts from Pause, a userdata with a finalizer is queued exactly when no strong references reach it from the roots and the marked objects. |
| GcState.AtomicQueued | open-ldb/lgc.c:128-155 | The userdata queued in one cycle come newest first and are those the marking did not reach, the finalizer bit is set exactly on them, and queue and root list together hold the same userdata as before, each as often. |
| GcReach.ClosureLeast | open-ldb/lgc.c:158-320 | What strong references reach from a set of objects, the strong halves and the strings of weak tables included and the references of given objects left out, is the least set that holds them and is closed under those references. |
| GcState.AtomicAll | open-ldb/lgc.c:525-553 | The state after the atomic step keeps the invariant of the sweep phases: every field of a live object leads to a live object. |
| GcLists.AtomicCloses | open-ldb/lgc.c:539-552 | When the gray lists are empty and the weak lists are traversed, the marked objects are closed under strong references, so that the flip kills nothing reachable. |
| Gc.GlobalState.SeparateUdata | open-ldb/lgc.c:128-155 | luaC_separateudata moves to the end of tmudata exactly the white userdata not finalized yet whose metatable has a __gc, marks those without one as finalized, and leaves the others in their order. |
| Gc.GlobalState.TraverseTable | open-ldb/lgc.c:158-196 | Traversing a table marks what its entries hold strongly under its weak mode, and nothing beyond what strong fields reach, empties the keys of nil entries, and keeps the tri-colour invariant. |
| Gc.GlobalState.PropagateMark | open-ldb/lgc.c:277-320 | One gray object is traversed: less work is left, no black object points to a white one afterwards, and only threads, which never turn black, are put on grayagain. |
| Gc.GlobalState.ClearWeakTables | open-ldb/lgc.c:351-375 | The heap afterwards is the one that clearing each table of the weak list once gives, with the strings it meets marked; what that leaves and removes is said in terms of what is alive by GcWeak.EntriesAfter. |
| GcWeak.EntriesAfter | open-ldb/lgc.c:337-375 | An entry of a cleared table goes when its key or its value is collectable, no string and dead, or its value is a finalized userdata, and its key is then tagged as dead; every other entry, and every entry of a table that is not cleared, is untouched; what is left in a live table is alive. |
| GcWeak.WeakListed | open-ldb/lgc.c:158-174 | When everything is marked the weak list holds only live tables that their metatable makes weak, and all of these but for tables that were black before and weak only since. |
| GcRun.CycleDone | open-ldb/lgc.c:636-659 | At the end of a whole collection each table that is left has, against the heap that the collection started with, lost exactly those entries, and all live tables that are weak by their metatable have been cleared. |
| Gc.GlobalState.MarkRoot | open-ldb/lgc.c:501-512 | Starting a cycle marks the main thread, its globals, the registry and the basic metatables, so that the invariant of the mark phase holds from the first step, and whatever was needed is needed still. |
| Gc.GlobalState.SweepRoot1 | open-ldb/lgc.c:407-428 | A step of the sweep frees a dead object, with the open upvalues of a dead thread, or gets one object further; live objects keep their contents and become white for the next cycle. |
| Gc.GlobalState.GCTM | open-ldb/lgc.c:445-471 | The first pending userdata goes back to the root list, not finalizable again, and its finalizer is called exactly when its metatable has one; the list of calls grows by that userdata and by nothing else. |
| Gc.GlobalState.FullGc | open-ldb/lgc.c:636-659 | A full collection ends in Pause with nothing pending, and loses nothing live before its own mark phase; strings aside, what is allocated at its end is exactly what was needed when that phase began, and no string is left that was neither needed nor fixed; the tables that are weak by their metatable have lost exactly the entries one half of which is gone, and those whose value is a finalized userdata. |
| GcRun.NeededBound | open-ldb/lgc.c:636-659 | What the roots, the marked objects and the userdata with a finalizer reach through strong references is the least set that bounds what a cycle starting now can mark. |
| GcRun.InitialInv | open-ldb/lstate.c:70-82 | The first state, with only the main thread, its globals and the registry, keeps the invariant. |
| GcRun.CalledOnce | open-ldb/lgc.c:445-480 | In every state that keeps the invariant no userdata occurs twice among the finalizers called. |
| GcUpval.UpAddedInv | open-ldb/lfunc.c:68-78 | A new open upvalue put at its place keeps the open list strictly descending by level, the ring of open upvalues exact, and the rest of the invariant. |
| Gc.GlobalState.Store | open-ldb/lgc.c:662-683 | A store with its barrier changes exactly that object, keeps the invariant, and makes no live object dead. |
| GcOps.EditReads | open-ldb/lvm.c:134-160 | The field written reads as the value written, and every other field as before. |
| GcOps.KeyReads | open-ldb/ltable.c:494-505 | A key put in place is read from its entry once the entry has a value. |
| Gc.GlobalState.FindUpval | open-ldb/lfunc.c:53-79 | The upvalue for a stack level is the open one there already is, brought back if it was dead, or a new one; every other object is as before. |
| Gc.GlobalState.Close | open-ldb/lfunc.c:96-112 | Exactly the open upvalues at or above the level are closed, each keeps the value it had on the stack, those below stay open in their order, and no other object changes. |
| GcUpval.CloseInv | open-ldb/lfunc.c:96-112 | Taking the topmost open upvalue off its thread and the ring, and closing it on its value, keeps the invariant in every phase but that of marking. |
| Gc.GlobalState.NewClosure | open-ldb/lvm.c:721-740 | A new closure has one cell per captured variable: the open upvalue of that stack slot, so that closures over one variable share it, or the cell of the enclosing closure. |
| Gc.GlobalState.SetUpvalue | open-ldb/lvm.c:449-454 | Assigning to an upvalue changes the cell all its closures read, on the stack while it is open, and keeps the invariant through the barrier. |
| Gc.GlobalState.Intern | open-ldb/lstring.c:75-93 | Interning gives a live string: the one of the table, resurrected if the sweep had still to free it, or a new one. |
| GcApi.SetUpvalueApi | open-ldb/lapi.c:1064-1078 | lua_setupvalue, whose barrier looks at the closure instead of the upvalue, keeps the invariant exactly when the closure is black, or the upvalue is not, or the value is not white, while marking. |
| GcApi.ApiFails | open-ldb/lapi.c:1064-1078 | There is a state that keeps the invariant and a call in it where that condition does not hold: a white closure shares its upvalue with a black closure that the program reaches through its globals. |
| GcApi.BarrierPhase | open-ldb/lgc.c:662-665 | The assertion on the phase in the barriers can fail only in the finalizing phase and only for userdata still queued for their finalizer; it does fail for every one of these as long as they are all black, which a run changes only by a store into one of them. |
| GcApi.BarrierPhaseFails | open-ldb/lgc.c:662-665 | The case exists: a state that keeps the invariant, in which no strong references lead from the roots to such a userdata, so that it was queued, and the program reaches it as the key of a weak table. |
| GcApi.ReachedQueued | open-ldb/lgc.c:636-659 | There is a state that keeps the invariant, at the end of the marking of a full collection begun between two finalizers, in which a userdata is strongly reached from the roots and is queued for its finalizer all the same. |
| GcApi.FinalizeReached | open-ldb/lgc.c:525-553 | The atomic step, run in that state, queues that userdata. |
| CodeGen.FuncState.ExprToNextReg | open-ldb/lcode.c:414-419 | For every expression of the fragment, when the code emitted so far runs to its end so does the code extended by it: it leaves the value in the first free register, changes no register below, and takes exactly that register; it fails only when the code is too long for a jump or no constant or register is left, and adds code, constants and registers at most in proportion to the size and the nesting of the expression. |
| CodeGen.CompileAndRun | open-ldb/lvm.c:404-583 | Compiling an expression for a new function and running the code in the interpreter puts the value of the expression in the target register and keeps the parameters: for arithmetic the number when both operands are numbers and otherwise what the metamethod gives for the operands in their order, for > and >= the answer of < and <= with the operands exchanged, for ~= the negation of ==, for and/or the operand that decides; it always succeeds for expressions whose size and nesting stay below bounds given by the jump range and the number of registers. |
| LuaVm.Execute | open-ldb/lvm.c:404-583 | The interpreter loop does what the steps of the instructions say, from any start to any end, and an arithmetic instruction on its own leaves the number, or what the metamethod gives for its operands in their order. |
| LuaVm.ValueLaws | open-ldb/lvm.c:404-531 | What each instruction that gives a value leaves in its register: operands from 256 on are constants, two numbers are computed with, anything else goes to the metamethod in the order of the operands, and no other register changes. |
| LuaVm.TestLaws | open-ldb/lvm.c:539-583 | A test goes on with the jump behind it when it comes out as asked and skips it otherwise, and a test that stores does so only when it jumps. |
| ExprSem.EvalLaws | open-ldb/lvm.c:362-373 | The value of each operator in terms of what the machine computes for its operands, exchanged for > and >=, negated for ~=. |
| ExprSem.FoldLaws | open-ldb/lcode.c:635-658 | Folded are operations on two numerals, but for division and modulo by 0 and results that are no number. |
| CodeGen.FuncState.CodeExpr | open-ldb/lparser.c:828-853 | Compiling a tree gives an expression descriptor that denotes its value, with its lists of pending true and false jumps, for every expression of the fragment. |
| LuaVm.RunPatched | open-ldb/lcode.c:131-160 | Patching retargets exactly the listed jumps: a run that left through one of them goes on at its destination with the tested value stored if there was one to store, and every other run is as before. |
| CodeGen.FuncState.Concat | open-ldb/lcode.c:185-196 | luaK_concat is list append on two disjoint jump lists threaded through the code, and changes nothing else of the code. |
| CodeGen.FuncState.PatchListAux | open-ldb/lcode.c:150-160 | Each jump of the list is sent to its destination, tests with a value to one and the others to the other, with the test before it rewritten accordingly, and no other instruction changes. |
| CodeGen.FuncState.FixJump | open-ldb/lcode.c:80-87 | A jump is stored exactly when its offset fits the operand, and otherwise the code is unchanged. |
| CodeGen.FuncState.NeedValue | open-ldb/lcode.c:122-128 | The answer is whether the list has a jump that brings no value, so that a LOADBOOL pair is needed. |
| CodeGen.FuncState.Jump | open-ldb/lcode.c:59-66 | The new jump is linked with the jumps waiting for this position, which then wait with it. |
| CodeGen.FuncState.PatchToHere | open-ldb/lcode.c:179-182 | The jumps of a list are put among those waiting for the next instruction, and leave the lists that are open. |
| CodeGen.FuncState.DischargeJpc | open-ldb/lcode.c:163-166 | The waiting jumps come to point to the end of the code, which then reads as the view of the code did before. |
| CodeGen.FuncState.Nil | open-ldb/lcode.c:35-56 | Setting registers to nil is dropped at the start of a function, merged with the LOADNIL before it when no jump lands between them, or emitted. |
| CodeGen.FuncState.Exp2Reg | open-ldb/lcode.c:390-411 | The value of an expression with pending jumps ends in the register by every path, fall-through and jumps alike. |
| CodeGen.FuncState.Exp2NextReg | open-ldb/lcode.c:414-419 | The value of an expression is in the first free register, which is then in use. |
| CodeGen.FuncState.Exp2AnyReg | open-ldb/lcode.c:422-433 | The value of an expression is in a register: the one where it already is, when its jumps allow it, or the next one. |
| CodeGen.FuncState.Exp2RK | open-ldb/lcode.c:444-469 | The result is an operand, a register or an index of a constant that fits, that denotes the value of the expression. |
| CodeGen.FuncState.GoIfTrue | open-ldb/lcode.c:539-564 | Afterwards control falls through exactly when the expression is true, and otherwise leaves through the jumps of the returned list, with the value stored where one is wanted. |
| CodeGen.FuncState.GoIfFalse | open-ldb/lcode.c:567-591 | The same for an expression that is false. |
| CodeGen.FuncState.JumpOnCond | open-ldb/lcode.c:524-536 | The jump emitted is taken exactly when the expression has the truth value asked for, a NOT before it being taken back and the test inverted. |
| CodeGen.FuncState.CodeNot | open-ldb/lcode.c:594-626 | The descriptor denotes the negation: the true and false lists change places and jumps in them lose their values. |
| CodeGen.FuncState.CodeArith | open-ldb/lcode.c:661-678 | An arithmetic operation, folded when both operands are numerals and folding is safe, denotes the result of the operation on the operands in their order, with the temporaries of its operands released in order. |
| CodeGen.FuncState.CodeComp | open-ldb/lcode.c:681-694 | A comparison denotes its truth value by a conditional jump, > and >= through exchanged operands. |
| CodeGen.FuncState.PosfixLogic | open-ldb/lcode.c:745-760 | The pending jumps of the first operand of and/or join those of the second, and the result denotes the value of the short-circuit expression. |
| RegProofs.LabelsAll | open-ldb/lcode.c:390-411 | After the two LOADBOOL labels are emitted for the jump of a comparison, every path delivers the value of the expression in the register: jumps without a value through a label, jumps with one past them. |
| CondProofs.LinkedList | open-ldb/lcode.c:185-196 | Linking the last jump of a list to the head of a disjoint one gives the list of both. |
| Table.Table.Run | open-ldb/ltable.c:435-517 | Every sequence of assignments (nil included), readings, array enlargements and collections of dead keys gives the readings of a finite map and leaves the table equal to that map; it always succeeds while keys and operations together stay within the size limit. |
| Table.Table.Put | open-ldb/ltable.c:494-505 | An assignment changes the value of its key and of no other; nil and NaN as keys are refused with the table unchanged; below the size limit it always succeeds. |
| Table.Table.NewKey | open-ldb/ltable.c:399-429 | A new key gets a slot with all values unchanged; a colliding node out of its main position is moved, and when no node is free one rehash makes room, after which the insertion succeeds. |
| Table.Table.SetKey | open-ldb/ltable.c:494-505 | The slot of a key is found or made, and the table maps every key to the value it had. |
| Table.Table.Rehash | open-ldb/ltable.c:333-349 | Rehashing keeps all values, makes the array part the largest n with more than n/2 of the keys 1..n in use, the new key included, and leaves room for that key. |
| Table.Table.Resize | open-ldb/ltable.c:297-324 | Resizing to sizes that the keys need puts every key back without running out of free nodes, and keeps all values. |
| Table.Table.Predecessor | open-ldb/ltable.c:410-412 | The search for the node before the main position always ends, and finds the one node whose link leads there. |
| HashPart.MoveAwayOk | open-ldb/ltable.c:410-417 | Moving a node out of a foreign main position and taking its place keeps the chain invariant: every live key is reached from its main position and links are acyclic with in-degree at most one. |
| HashPart.InsertAfterOk | open-ldb/ltable.c:418-423 | Putting the new key in a free node, second in the chain of its main position, keeps the chain invariant. |
| HashPart.KeyReached | open-ldb/ltable.c:435-449 | The node of a live key is reached along the links from its main position. |
| HashPart.OneLink | open-ldb/ltable.c:399-429 | No two nodes link to the same node. |
| Sizing.ComputeSizes | open-ldb/ltable.c:189-208 | From the histogram of the integer keys, the result is the largest power of two with more than half of its slots in use, or 0, together with the number of keys it takes. |
| Sizing.BestUse | open-ldb/ltable.c:189-208 | More than half of the slots of the array size chosen are used by integer keys, and no larger power of two up to 2^26 has more than half of its slots used. |
| Sizing.CountInt | open-ldb/ltable.c:211-219 | A key is counted in the slice of its ceiling logarithm exactly when it can be an array index. |
| TableCount.NumUseArray | open-ldb/ltable.c:222-244 | The counts per slice and their sum are those of the non-nil entries of the array part. |
| TableCount.NumUseHash | open-ldb/ltable.c:247-260 | The counts are extended by the integer keys of the hash part, and all its valued keys are counted. |
| Table.Table.Next | open-ldb/ltable.c:162-179 | The entry after a key is the first one with a value at a later position; an unknown key is an error. |
| Table.Table.Traverse | open-ldb/ltable.c:162-179 | A traversal visits every entry that keeps a value exactly once, none without a value, and then stops, even when entries are cleared or reassigned and their keys die between the steps; an entry that nothing touched is visited with its value. |
| TableIter.KilledOk | open-ldb/ltable.c:137-159 | Marking the key of an empty entry as dead keeps the chain invariant and all values. |
| Table.Table.GetN | open-ldb/ltable.c:560-576 | The length is a border, whatever the holes: 0 or an index in use, with the next index not in use. |
| Table.Table.UnboundSearch | open-ldb/ltable.c:532-553 | Doubling, bisection and the linear search for very large tables all end at a border. |
| Table.Table.New | open-ldb/ltable.c:358-371 | A new table has the sizes asked for and maps every key to nil. |
| Matcher.MatchState.Match | open-ldb/lstrlib.c:364-439 | The matcher reports the preferred outcome of the pattern from a position, a match with its captures or an error, and when there is none the captures are what they were; which outcomes the texts of patterns have is said by the rows on PatternText. |
| PatternText.ClassLetters | open-ldb/lstrlib.c:225-242 | A class letter takes the characters of its list, a capital all others, and any other character only itself. |
| PatternText.Classes | open-ldb/lstrlib.c:225-242 | The classes in terms of each other: %a is %l or %u, %w is %a or %d, and %p is what is printable and not in %w. |
| PatternText.PlainText | open-ldb/lstrlib.c:266-274 | A character that is not special matches exactly itself. |
| PatternText.DotText | open-ldb/lstrlib.c:266-274 | A dot matches every character and nothing at the end of the subject. |
| PatternText.EscapedText | open-ldb/lstrlib.c:225-242 | A percent before a character that is no letter and no digit matches exactly that character. |
| PatternText.ClassVerdict | open-ldb/lstrlib.c:266-274 | Matching one class against a character succeeds, one character further on, exactly when the character is in the class. |
| PatternText.SetVerdict | open-ldb/lstrlib.c:244-264 | Matching a set written as any list of classes, ranges and characters succeeds exactly for the characters of one of them, and for a complemented set exactly for the others. |
| PatternText.SuffixText | open-ldb/lstrlib.c:410-436 | On a run of n equal characters the star tries n down to none, the plus n down to one, the minus none up to n, and the question mark one and then none. |
| PatternText.CaptureText | open-ldb/lstrlib.c:328-350 | An empty pair of brackets captures the place, brackets around an item the text it matched, and an open bracket leaves the capture open. |
| PatternText.BackText | open-ldb/lstrlib.c:353-362 | A capture followed by a reference to it matches exactly where its text comes twice. |
| PatternText.DollarText | open-ldb/lstrlib.c:405-409 | A dollar at the end of the pattern matches at the end of the subject only, and elsewhere stands for itself. |
| PatternText.BalanceText | open-ldb/lstrlib.c:280-297 | A balanced item starts only at its opening character and ends at the closing character that belongs to it, over nested pairs. |
| PatternText.FrontierText | open-ldb/lstrlib.c:383-396 | A frontier matches, with no text, exactly where a character of its set follows one that is not in it. |
| PatternText.MalformedText | open-ldb/lstrlib.c:200-222 | The malformed patterns raise the error that belongs to each. |
| PatternText.CaptureErrors | open-ldb/lstrlib.c:185-198 | A closing bracket without an opening one, a reference to a capture that is not there, and a capture beyond the 32nd raise the error that belongs to each. |
| PatternText.AnchorText | open-ldb/lstrlib.c:513-515 | A caret in front is no part of what is matched and ties the search to one place; without it the pattern is matched as it stands. |
| PatternText.FindsClass | open-ldb/lstrlib.c:494-534 | A search for a class finds its first character from the start on, and nothing exactly when there is none. |
| PatternMeaning.OutsMean | open-ldb/lstrlib.c:364-439 | The outcomes that the matcher explores are exactly the ways in which the pattern can be read declaratively: sound and complete. |
| PatternMeaning.NoMatch | open-ldb/lstrlib.c:364-439 | When the matcher finds nothing, there is no end and no captures with which the pattern could be read. |
| PatternMeaning.StarLongest | open-ldb/lstrlib.c:300-312 | The star takes the longest run after which the rest of the pattern can go on. |
| PatternMeaning.PlusLongest | open-ldb/lstrlib.c:426-428 | The plus takes the longest run of at least one character after which the rest can go on. |
| PatternMeaning.MinusShortest | open-ldb/lstrlib.c:315-325 | The minus takes the shortest run after which the rest can go on. |
| PatternMeaning.BalanceMeans | open-ldb/lstrlib.c:280-297 | The balance loop ends where the number of opening brackets first equals that of closing ones, or fails when there is no such place. |
| PatternMeaning.MatchInside | open-ldb/lstrlib.c:328-350 | A match goes forward, and its captures are at most 32 pieces of the text that it covers. |
| Matcher.MatchState.MaxExpand | open-ldb/lstrlib.c:300-312 | The verdict is that of the rest of the pattern after the most repetitions, then one less at a time. |
| Matcher.MatchState.EndCapture | open-ldb/lstrlib.c:342-350 | The innermost open capture is closed at this position for the rest of the match, and open again when that fails. |
| Matcher.MatchState.MatchBracketClass | open-ldb/lstrlib.c:244-264 | The answer is whether one of the elements of the set, read from the pattern between its brackets, has the character, or none for a complemented set. |
| Finder.FindAux | open-ldb/lstrlib.c:494-534 | The answer is the preferred match at the leftmost start, or the first plain occurrence when a plain search is asked for or the pattern has no special character; value i of the answer is the text that the record of capture i delimits, or its place, and the whole match when there is no capture, or the error of a capture left open. |
| Finder.MemFind | open-ldb/lstrlib.c:443-462 | The result is the first occurrence, and none when there is none. |
| PlainPattern.ShortcutAgrees | open-ldb/lstrlib.c:501-511 | The plain search used for patterns without special characters gives the matcher's answers, for all subjects and starts, exactly when the pattern has no closing parenthesis and no NUL. |
| Gsub.StrGsub | open-ldb/lstrlib.c:647-679 | The result is the subject with each of at most max successive leftmost matches replaced by the expansion of the replacement for it, and everything between them copied; %k puts in the text that the record of capture k delimits or its place, %0, or %1 without captures, the match, and an escaped character that is no digit itself; it fails only at a place reached before that, with the error that matching or replacing gives there. |
| Gsub.UnitLaws | open-ldb/lstrlib.c:589-608 | A replacement is read unit by unit: a character outside an escape for itself, then escapes, captures and their errors, whatever comes before and after. |
| Gsub.SameText | open-ldb/lstrlib.c:647-679 | Replacing every match by itself gives the subject back, for every pattern. |
| Gsub.Identity | open-ldb/lstrlib.c:647-679 | gsub with the replacement %0 returns its subject, unless matching the pattern raises an error at some place of it. |
| Sort.AuxSort | open-ldb/ltablib.c:184-245 | Under any strict weak order the range is sorted in place and permuted only within itself, and recursive calls nest at most as deep as the logarithm of its size. |
| Sort.Partition | open-ldb/ltablib.c:209-234 | The scans never leave the range, so the invalid-order error is never raised, and the pivot ends between elements not greater and elements not smaller than it. |
| Sort.SplitSettled | open-ldb/ltablib.c:235-244 | After a partition with one side sorted, only pairs on the other side can still be out of order. |
| Sort.SortAll | open-ldb/ltablib.c:247-255 | table.sort leaves a permutation of the elements with no later one smaller than an earlier one. |
| Undump.RoundTrip | open-ldb/lundump.c:191-205 | A prototype tree dumped and then loaded through a reader that cuts the bytes into any non-empty pieces comes back equal, and with strip without exactly its debug data. |
| ChunkProofs.FunctionBack | open-ldb/lundump.c:160-177 | Reading what was written for a function gives its loaded form and stops exactly where the writing stopped, nested functions included. |
| Undump.SameTree | open-ldb/lundump.c:160-164 | Without strip the loaded tree is the dumped one exactly when every function in it has a source of its own. |
| Undump.BareTree | open-ldb/ldump.c:111-127 | With strip every function loses its lines, local names, upvalue names and source, and nothing else. |
| ChunkProofs.Layout | open-ldb/ldump.c:60-151 | The bytes of a chunk one by one, for a function with one entry in each of its lists: header, little-endian counts, sizes of strings with their NUL, constant tags, and the order of the parts. |
| ChunkProofs.SharedSource | open-ldb/ldump.c:129-141 | The source of a function is written as no string at all when the enclosing function has the same one, and with strip, and as itself otherwise. |
| Dump.DumpState.DumpChunk | open-ldb/ldump.c:153-164 | All bytes of the chunk are written, or those of the blocks before the first one the writer refused, and nothing after it. |
| Undump.LoadState.LoadFunction | open-ldb/lundump.c:160-177 | On every input, malformed ones included, the loader returns the value, leaves the rest or raises the error that the byte format determines. |
| Zio.ZIO.Read | open-ldb/lzio.c:58-71 | The bytes read are the next ones of the stream wherever its pieces end, and the number missing at its end is reported. |
| Quote.ReadQuoted | open-ldb/llex.c:276-329 | For every byte string the lexer reads the quoted form back as that string and consumes exactly it, unless the line count passes its limit. |
| Quote.RoundTrip | open-ldb/lstrlib.c:695-722 | Quoting a string and lexing the result gives the string and the text after it exactly when the number of lines stays below the limit. |
| Quote.QuotedForms | open-ldb/lstrlib.c:695-722 | Quotes, backslashes and newlines are written after a backslash, a return as \r and a NUL as \000, and every other character as it is. |
| Quote.LexState.ReadString | open-ldb/llex.c:276-329 | On every input the string lexer returns the text, the rest and the line, or the error, that the rules for escapes determine. |
| Quote.LetterEscape | open-ldb/llex.c:288-316 | Each letter escape adds its own character, and a backslash before any other character that is no digit and no line break adds that character. |
| Quote.PlainCharacter | open-ldb/llex.c:276-329 | Any other character adds itself, and the delimiter ends the literal. |
| Quote.DecimalEscape | open-ldb/llex.c:303-314 | Up to three digits a, b and c add the character 100a + 10b + c, and above 255 raise the error. |
| Quote.BreakEscape | open-ldb/llex.c:281-299 | A backslash before a line break of one or two characters adds a newline and counts one line; a bare line break and the end of the input leave the literal unfinished. |
| Quote.LexState.IncLineNumber | open-ldb/llex.c:127-135 | A line break of one or two different characters is skipped and counted once. |
| Strings.Run | open-ldb/lstring.c:75-93 | In every run of interning, marking, sweeping, growing and shrinking, two handles still in the table are equal exactly when their contents are. |
| Strings.StringTable.Intern | open-ldb/lstring.c:75-93 | The string with this content is returned, not dead: the one there is, or a new one when there is none; no other string changes. |
| Strings.StringTable.Resize | open-ldb/lstring.c:22-47 | The table holds the same strings, each in the bucket of its hash, unless a sweep is under way, when nothing changes. |
| Strings.StringTable.Sweep | open-ldb/lgc.c:572-579 | A whole sweep frees exactly the dead strings that are not fixed and paints the others for the next cycle. |
| Strings.GoodFree | open-ldb/lgc.c:389-393 | Freeing a string keeps the contents distinct, each string in its bucket, and the use count right. |
| Subexpr.ParseIff | open-ldb/lparser.c:828-853 | subexpr returns a tree exactly when the tokens read as that tree in the shape that the priorities ask for, followed by no operator above the limit, within the nesting limit, whatever that is. |
| Subexpr.TwoOperators | open-ldb/lparser.c:810-824 | Of two operators in a row the one on the higher of the seven levels of binary operators in section 2.5.6 of the Lua 5.1 Reference Manual takes the operand between them; on one level it is the left one, but for power and concatenation the right one. |
| Subexpr.OneLevel | open-ldb/lparser.c:810-819 | Every binary operator stands on exactly one of the levels. |
| Subexpr.PrefixOperator | open-ldb/lparser.c:821-836 | A prefix operator applies to a power as a whole, and before any other binary operator to its first operand only. |
| Subexpr.Parenthesised | open-ldb/lparser.c:828-853 | Parentheses around an operand of two operators make it the operand, whatever the levels. |
| Subexpr.NestingLimit | open-ldb/lparser.c:828-853 | A name in n pairs of parentheses is read for n up to 199 and is a nesting error from 200 on. |
| Subexpr.OneReading | open-ldb/lparser.c:810-824 | A token list has at most one reading under the priority table, however deeply it is nested. |
| Subexpr.PrintParse | open-ldb/lparser.c:828-858 | Printing any operator tree with parentheses where they are needed and parsing the print gives the tree back, unless it is nested too deeply. |
| Subexpr.FewestParens | open-ldb/lparser.c:828-853 | No expression that reads as a given operator tree has fewer parentheses than the print of that tree. |
| Subexpr.GuardNeeded | open-ldb/lparser.c:828-853 | A right operand printed in parentheses would be read differently without them. |
| Subexpr.GuardLeftNeeded | open-ldb/lparser.c:828-853 | A left operand printed in parentheses would lose its last operand to the operator without them. |
| Subexpr.LexState.SubExpr | open-ldb/lparser.c:828-853 | The parser on the token stream returns the tree and stops, or raises the error, as the recursive definition says. |
| Ref.Registry.Ref | open-ldb/lauxlib.c:481-501 | A new reference is not in use, stands for its object from then on, and every reference in use keeps its object; two keys below the size limit of the table it always succeeds. |
| Ref.Registry.Unref | open-ldb/lauxlib.c:504-512 | A reference given back becomes the first of the free list, which stays without repetition and apart from the references in use; two keys below the size limit this always succeeds. |
| Ref.Registry.Deref | open-ldb/lauxlib.c:481-512 | A reference in use reads as the object it was made for. |
| Ref.Run | open-ldb/lauxlib.c:481-512 | Every program that gives back only what it holds keeps the table, its references and its free list in order, and succeeds as long as two keys for each operation fit below the size limit. |
| Ref.BorderTop | open-ldb/lauxlib.c:495-498 | With an empty free list the only border of the table is the largest reference in use. |
| Ref.TakeFree | open-ldb/lauxlib.c:491-494 | Taking the first free reference leaves the rest of the list linked as it was. |
| FbByte.Int2Fb | open-ldb/lobject.c:35-43 | The result is the byte, below 256, for the number halved, rounding up, until it has four bits. |
| FbByte.FbClose | open-ldb/lobject.c:35-51 | Decoding the encoded number gives at least the number, and exceeds it by less than an eighth. |
| FbByte.FbLeast | open-ldb/lobject.c:35-51 | No representable number lies between a number and its encoding. |
| FbByte.FbMonotone | open-ldb/lobject.c:35-43 | The encoding keeps the order of the numbers. |

## Left out

- Collector: byte counts, thresholds and the pacing of steps; `luaC_freeall` and closing a state; the resizing of the
  string table while it belongs to the collector (it is modelled in `Strings`); memory errors.
- Collector: references are never used again, where the source may reuse an address; the stack of a thread is the part
  below its top; a coroutine is resumed and yields, but the C stack of its resumers is not modelled; which node of a
  table holds an entry is left open here and modelled in `Table`.
- Collector: weak modes and the presence of `__gc` are attributes of a metatable, not looked up by name; a finalizer's
  body is whatever program moves follow its call; a weak table is put on its list after its traversal instead of
  before, and empty entries are dropped at once, two orders that no later step can tell apart.
- Gc.GlobalState.FullGc: says that live contents are kept up to the start of its finalizers, because the finalizers
  that it calls afterwards are program moves, covered by Gc.GlobalState.Run.
- Code generator: calls, varargs, concatenation, assignments and statements; constants as operands of and/or and unary
  minus on nil, true or false, for which the general theorem does not hold; the limit on the size of a function's code.
- Interpreter: metamethods, hooks and coroutines; table and global reads are pure lookups.
- Tables: metatables and their flags, shrinking by `luaH_resizearray`, memory errors, negative zero; the hash function
  is any function.
- Patterns: character classes are those of the C locale; `gmatch` is one search per step and adds no case; table and
  function replacements of `gsub` call into the program.
- Sort: comparison functions that are not strict weak orders; indices are unbounded, where `(l+u)/2` in the source
  would overflow above 2^30 elements.
- Chunks: `luaG_checkcode` is any predicate, and round trips assume that it accepts what is loaded; a little-endian
  machine with a 64-bit size_t; sizes that overflow a buffer length.
- Strings: the hash is any function of the content; one object per address.
- Operator precedence: operands are names and parentheses; a call, an index or a constructor would be one operand, so
  that a name followed by `(` ends an expression here where the source reads a call; the order in which code is emitted
  belongs to the code generator.
- References: entries given back twice or never handed out, which the manual excludes.
- The string buffers of lauxlib.c, the bit layout of object headers (lgc.h) and of instructions (lopcodes.h), and the
  names of locals (lfunc.c:163-173): only easy members.
- The debugger, its sockets and user interface, and the other libraries: plumbing around the core.
