# Lua 5.1.4 in the kernel: the language engine

The repository carries Lua 5.1.4 into the Linux kernel. This project models its language engine
under `lib/lunatik` in Dafny and proves what the engine's parts promise each other and their callers.
`dafny verify dfyconfig.toml` checks all of it.

| part | files | what it models |
|---|---|---|
| collector | `Gc*.dfy` | the incremental collector of `lgc.c` with the barriers, allocation, string interning (`lstring.c`) and open upvalues (`lfunc.c`), as steps that the mutator's steps interleave with |
| code generator | `Cg*.dfy` | `lcode.c` for expressions, against the interpreter loop of `lvm.c` and the checker of `ldebug.c` |
| table | `Tbl*.dfy` | the array-plus-hash table of `ltable.c`, and the references of `lauxlib.c` inside it |
| checker | `Chk*.dfy` | the bytecode checker of `ldebug.c` against the interpreter loop: exactly which code it accepts, and where runs of it can go |
| parser | `Prs*.dfy` | precedence climbing (`subexpr` of `lparser.c`) |
| scopes | `Scp*.dfy` | name resolution, blocks and closures (`lparser.c`, `lvm.c`) |
| dump | `Dmp*.dfy` | precompiled functions (`ldump.c`, `lundump.c`) on buffered input (`lzio.c`) |

`Wrappers.dfy` holds what all of them use.

What the source changes step by step is a class whose methods work in place: `GcMachine.GlobalState`,
`CgFuncState.FuncState` (on instruction words, with jump lists threaded through their offsets),
`TblTable.Table`, `TblRef.References`, both `LexState` classes, `DmpZio.Zio` and `DmpDump.DumpState`.
Their methods are tied to functions on values, about which the theorems are proved.

In the kernel build a number is a `long` (`luaconf.h:522-527`): numbers are integers here, division
truncates, and `luai_numpow` is a product (`luaconf.h:577-580`). Hash functions, and the arithmetic of the virtual
machine on values that are not numbers, are arbitrary functions.

The collector has no single invariant: `Inv` says per phase what holds between two steps. While
marking, a black object holds no white one and nothing is condemned; while sweeping, live objects hold
live objects, and what was swept is of the current white. A run (`GcRuns.IsRun`) starts at the state of `lua_newstate` and takes any enabled steps.
What every step does to heap and roots is told a second time without the functions that compute it
(`GcEffects.Effect`), and proved of every step of every run.

A descriptor of the generator (`expdesc`) has a meaning in `Cg*.dfy`: a run of the code so far
either gets to its end, where the descriptor gives the value, or waits at a jump of one of its lists, where
the list and the test in front of the jump give it. An expression is exact in a run (`ExactIn`) if control comes
to none of its literals by a jump that carries another value (see below); it is sound in it (`SoundIn`) if this
holds of the operands whose values are needed to know its truth. `Exact` and `Sound` ask it of every run.

## Findings

Three properties fail in the code as it is. The condition under which each holds is proved to be exact.

- `lapi.c:1070-1085`: `lua_setupvalue` stores into an upvalue but gives `luaC_barrier` the closure. If the
  upvalue is already black, which it is when another closure that shares it was visited, and this closure is
  not, the stored value stays white. `GcMissed.ReachableIsFreed` follows such a call in a run: an object that is
  reachable through the closure is freed. `GcSetUpvalue.SetUpvalueExact`: the invariant holds after the call exactly outside that case.
  `lua_setupvalue` outside that case is a step of the runs of `GcRuns.RunSafe`.
- `lcode.c:58-65`: `luaK_jump` joins the jumps that wait for the next instruction to the list of the new jump.
  For a literal on the left of `and` or `or` that list is the one of the exits with the literal's value, but a
  joined jump may carry another value: `((1 or false) and true) or false` gives 1 and not true
  (`CgSplice.SplicedValue`). `CgSplice.LiteralExact`: between exact operands the value is
  right exactly if control does not come by such a jump. The branch on `(...) == true` goes where `1 == true` sends
  it (`CgSplice.SplicedBranch`).
- `ldebug.c:373`: the checker looks at the skip of a `LOADBOOL` only if C is 1, while `lvm.c:410-413` skips for
  every C that is not 0. The code generator emits 0 and 1 only; but a precompiled function with C = 2 in front of
  the last instruction is accepted, and its run leaves the code
  (`ChkSafe.SkipsOutOfTheCode`). `ChkSafe.ClosedExactly`: control stays inside exactly if the skips that are not looked at pass the same test.

One more condition is exact: a dump that is not stripped comes back the same exactly if every function in it has a
source name (`DmpRoundTrip.UndumpDump`).

## Model

| member | source | states |
|---|---|---|
| GcRuns.RunSafe | lib/lunatik/lgc.c:556-607 | In every run that interleaves collector steps with mutator steps, whatever is reachable is allocated and not condemned, and no step frees an object that was reachable when it was taken |
| GcRuns.StepKeeps | lib/lunatik/lgc.c:525-607 | Every step, of the collector in any phase or of the mutator with its barrier, keeps the phase invariant and frees garbage only |
| GcRuns.InitialInv | lib/lunatik/lstate.c:70-81 | The state lua_newstate leaves meets the invariant |
| GcTheorems.BlackHoldsNoWhite | lib/lunatik/lgc.h:86-97 | At every point of every run in the propagate phase, no black object holds a white one and nothing is condemned |
| GcTheorems.ReachableHoldsNoDead | lib/lunatik/lgc.c:407-428 | At every point of every run, mid-sweep included, nothing a reachable object holds is condemned |
| GcTheorems.FullGcAnywhere | lib/lunatik/lgc.c:636-659 | luaC_fullgc at any point of any run leaves exactly the reachable and the fixed objects, all of the current white |
| GcTheorems.StringsAreUnique | lib/lunatik/lstring.c:74-92 | At every point of every run two strings have the same bytes exactly if they are one object |
| GcTheorems.InternAnywhere | lib/lunatik/lstring.c:74-92 | luaS_newlstr at any point gives a live string with the bytes, and the old one if there was one, revived if it was condemned |
| GcTheorems.OpenListDescends | lib/lunatik/lfunc.c:53-79 | At every point of every run the upvalues open on a thread are in its list, whose slots strictly descend; two of them are on one slot exactly if they are the same |
| GcTheorems.CaptureAnywhere | lib/lunatik/lfunc.c:53-79 | luaF_findupval at any point gives a live upvalue open on the slot, and the one that was open there if there was one |
| GcTheorems.CloseAnywhere | lib/lunatik/lfunc.c:96-112 | luaF_close at any point detaches exactly the open upvalues at or above the level, each with the value of its slot, and changes nothing else |
| GcShared.StepChanges | lib/lunatik/lvm.c:446-451 | Every step leaves the value of an upvalue as it was, open or closed, unless it writes that upvalue or the slot it is open on; then the value is the one written |
| GcShared.LastWrite | lib/lunatik/lvm.c:422-451 | Over any stretch of any run, the value of an upvalue is what the writes into it, taken in order, make of the value at the start; a step on the stack counts only if it changes the slot, and closes and collections do not show |
| GcShared.SameCapture | lib/lunatik/lfunc.c:53-79 | Two captures of one stack slot in a run give the same upvalue, if the slot was not closed in between |
| GcShared.SeesWrite | lib/lunatik/lvm.c:422-451 | What is written through one of two closures that captured the same slot, before or after the second capture, is what the other one reads later, if no other value was written into the variable in between: whether it is open or closed by then, whatever happens to the rest of the stack and whatever was collected |
| GcShared.WhileReachable | lib/lunatik/lfunc.c:89-112 | An upvalue that stays reachable stays allocated |
| GcValues.SingleStepValues | lib/lunatik/lgc.c:407-607 | No collector step, in any phase, changes the contents of an object that it leaves: a table keeps its metatable, its array and every entry, but for dead keys of empty entries, a thread its globals, its top and the slots below it, an upvalue its value, and anything else is the same |
| GcValues.FullGcValues | lib/lunatik/lgc.c:636-659 | Nor does luaC_fullgc: what it leaves has its old contents |
| GcEffects.RunEffect | lib/lunatik/lvm.c:134-147 | At every point of every run a step does what it is there for and nothing else, told without the functions that compute it: a store leaves the object with the given contents (a table with its old metatable, a thread with its old open list), a write through an upvalue goes to its slot while it is open and into itself afterwards, a new object has its contents, a string that was there is not made again, a slot that was captured is not captured again, luaF_close detaches exactly the upvalues at or above the level; no other object and no root changes; the collector keeps contents and roots |
| GcEffects.SingleStepGlobals | lib/lunatik/lgc.c:556-607 | No collector step changes the threads in the roots, the registry, the metatables of the basic types or the set of fixed strings |
| GcEffects.FullGcGlobals | lib/lunatik/lgc.c:636-659 | Nor does luaC_fullgc |
| GcEffects.Untouched | lib/lunatik/lgc.c:556-607 | Over any stretch of any run an object that no step assigns to keeps its contents, whatever else is stored, closed and collected in between |
| GcEffects.LastStore | lib/lunatik/lvm.c:134-147 | What was stored into a table last is in it at any later point, with the metatable it had, if nothing is stored into it in between |
| GcEffects.StoredIsReachable | lib/lunatik/lvm.c:134-147 | What is stored into the array or an entry of a reachable table can be reached through it afterwards |
| GcEffects.StoredByBarrier | lib/lunatik/lapi.c:696-757 | The same for a metatable, and for what is stored into a closure, a prototype, a userdata or a closed upvalue |
| GcEffects.AccessIsChild | lib/lunatik/lgc.c:69-270 | The collector follows exactly the pointers that an access of the mutator can yield: fields, elements, live keys and values of entries that are not empty, slots below the top |
| GcEffects.AccessSafe | lib/lunatik/lgc.c:556-607 | At every point of every run what an access to a reachable object yields is allocated, not condemned, and still there after the next step |
| GcSetUpvalue.SetUpvalueExact | lib/lunatik/lapi.c:1070-1085 | lua_setupvalue keeps the invariant exactly if it is not the case that, while marking, a white value goes into a black upvalue through a closure that is not black |
| GcMissed.ReachableIsFreed | lib/lunatik/lapi.c:1070-1085 | A run leads to a state in which lua_setupvalue misses; after the call, the pop of the value and 37 collector steps the next step frees an object that is reachable |
| GcMissed.ItIsARun | lib/lunatik/lapi.c:1070-1085 | The state of that example is the end of a run that starts at the initial state |
| GcUnchecked.StepAgrees | lib/lunatik/lgc.c:556-607 | The collector step that the example uses where the invariant is broken is singlestep wherever the invariant holds |
| GcCollector.SingleStepKeeps | lib/lunatik/lgc.c:556-607 | Every step keeps the invariant, in every phase, and frees only objects that the mutator cannot reach |
| GcCollector.AtomicKeeps | lib/lunatik/lgc.c:525-553 | After the atomic step the sweep invariant holds, and everything outside any closed set that holds the roots and the marked objects is condemned |
| GcFull.FullGcExact | lib/lunatik/lgc.c:636-659 | luaC_fullgc from any phase: what is left is the reachable and the fixed objects, all of the current white, and the same objects are reachable |
| GcFull.SingleStepProgress | lib/lunatik/lgc.c:636-659 | Outside the pause every step decreases the measure of phase and work left within the phase, so luaC_fullgc ends |
| GcFull.CycleKeepsOnly | lib/lunatik/lgc.c:501-607 | A cycle that is run to its end without the mutator leaves only members of any closed set that holds the roots and the marked objects, and the fixed objects |
| GcFull.CycleExact | lib/lunatik/lgc.c:501-607 | A whole cycle started with nothing marked leaves exactly the reachable and the fixed objects |
| GcTricolor.MarkKeeps | lib/lunatik/lgc.c:69-115 | Marking an object leaves it marked, keeps the tri-colour invariant and marks only inside any closed set that holds it |
| GcPropagate.PropagateMarkKeeps | lib/lunatik/lgc.c:273-314 | One turn of propagatemark keeps the marking invariant, marks only inside any closed set that holds the marked objects, and leaves fewer objects to visit |
| GcAtomic.PropagateAllKeeps | lib/lunatik/lgc.c:317-321 | Emptying the gray list keeps the marking invariant and marks only inside any closed set that holds the marked objects |
| GcAtomic.AtomicMarkKeeps | lib/lunatik/lgc.c:525-553 | The marking of the atomic step leaves no gray object unvisited, marks all roots, and marks only inside any closed set that holds the roots and the marked objects |
| GcSweep.SweepOneKeeps | lib/lunatik/lgc.c:407-428 | One turn of sweeplist keeps the invariant, frees only a condemned object, turns every other white, and leaves less to sweep |
| GcSweep.SweepBucketKeeps | lib/lunatik/lgc.c:407-428 | Sweeping a bucket of the string table frees its condemned strings only and leaves the others white |
| GcSweep.SweepOpenKeeps | lib/lunatik/lgc.c:407-428 | Sweeping the open upvalues of a thread frees the condemned ones only and leaves the others white |
| GcBarrier.StoreStatic | lib/lunatik/lgc.h:86-97 | A store of live contents keeps all structural invariants |
| GcBarrier.StoreOk | lib/lunatik/lgc.h:86-97 | After a store of live contents only the barriers for the objects that were stored are pending |
| GcBarrier.ObjBarrierOk | lib/lunatik/lgc.c:662-672 | The forward barrier settles the pending store of one object, in every phase |
| GcBarrier.ObjBarrierBackOk | lib/lunatik/lgc.c:675-683 | The back barrier settles the pending store of one object into a table, in every phase |
| GcBarrier.BarrierSettles | lib/lunatik/lgc.c:662-683 | After either barrier none is due for the pair, in any phase: the target is marked, or the parent is not black any more |
| GcBarrier.BarrierAssertions | lib/lunatik/lgc.c:662-683 | The assertions at the head of both barriers hold whenever one of them is reached |
| GcStore.StoreThreadKeeps | lib/lunatik/lgc.c:273-314 | Stack slots are written without a barrier: the invariant stays |
| GcStore.SlotStoreKeeps | lib/lunatik/lvm.c:446-451 | So are they through an open upvalue that is alive, even on a condemned thread |
| GcUpval.FindUpvalKeeps | lib/lunatik/lfunc.c:53-79 | luaF_findupval keeps the invariant, gives the live upvalue open on the slot and leaves every object but the thread as it is |
| GcUpval.CloseUpvalsCloses | lib/lunatik/lfunc.c:96-112 | luaF_close keeps the invariant and detaches exactly the open upvalues at or above the level with their values |
| GcAlloc.LinkKeeps | lib/lunatik/lgc.c:686-692 | A new object with live contents keeps the invariant in every phase and is alive |
| GcAlloc.InternKeeps | lib/lunatik/lstring.c:49-92 | Interning keeps the invariant in every phase; a string that was there is returned alive, and no other object changes |
| GcAlloc.ResizeStringsOk | lib/lunatik/lstring.c:21-46 | Resizing moves every string to the bucket of its hash and loses none |
| GcMachine.GlobalState.ReallyMarkObject | lib/lunatik/lgc.c:69-112 | In place, reallymarkobject does what the marking function does |
| GcMachine.GlobalState.TraverseTableObject | lib/lunatik/lgc.c:158-197 | traversetable in place: array and nodes from the end, empty entries removed |
| GcMachine.GlobalState.TraverseProtoObject | lib/lunatik/lgc.c:203-220 | traverseproto in place |
| GcMachine.GlobalState.TraverseClosureObject | lib/lunatik/lgc.c:224-238 | traverseclosure in place |
| GcMachine.GlobalState.TraverseStackOf | lib/lunatik/lgc.c:256-270 | traversestack in place: the slots below the top are marked, those above cleared |
| GcMachine.GlobalState.PropagateMarkOne | lib/lunatik/lgc.c:277-314 | propagatemark in place |
| GcMachine.GlobalState.RemarkOpenUpvals | lib/lunatik/lgc.c:515-522 | remarkupvals in place |
| GcMachine.GlobalState.MarkRootSet | lib/lunatik/lgc.c:501-512 | markroot in place |
| GcMachine.GlobalState.AtomicStep | lib/lunatik/lgc.c:525-553 | atomic in place |
| GcMachine.GlobalState.SweepOpenUpvals | lib/lunatik/lgc.c:407-428 | sweepwholelist on the open upvalues in place |
| GcMachine.GlobalState.SweepRootList | lib/lunatik/lgc.c:407-428 | sweeplist on rootgc in place |
| GcMachine.GlobalState.SingleStepOf | lib/lunatik/lgc.c:556-607 | singlestep in place |
| GcMachine.GlobalState.FullCollection | lib/lunatik/lgc.c:636-659 | luaC_fullgc in place: the heap is left with the reachable and the fixed objects |
| GcMachine.GlobalState.BarrierForwardTo | lib/lunatik/lgc.c:662-672 | luaC_barrierf in place |
| GcMachine.GlobalState.BarrierBackValue | lib/lunatik/lgc.c:675-683 | luaC_barriert with luaC_barrierback in place |
| GcMachine.GlobalState.Link | lib/lunatik/lgc.c:686-692 | luaC_link in place |
| GcMachine.GlobalState.LinkUpval | lib/lunatik/lgc.c:695-709 | luaC_linkupval in place: the head of rootgc, the sweep position, and the color of the upvalue |
| GcMachine.GlobalState.NewLstr | lib/lunatik/lstring.c:74-92 | luaS_newlstr in place |
| GcMachine.GlobalState.ResizeStringTable | lib/lunatik/lstring.c:21-46 | luaS_resize in place |
| GcMachine.GlobalState.NewUserdata | lib/lunatik/lstring.c:95-110 | luaS_newudata in place: the userdata goes behind the main thread |
| GcMachine.GlobalState.FindUpvalue | lib/lunatik/lfunc.c:53-79 | luaF_findupval in place |
| GcMachine.GlobalState.CloseUpvalsFrom | lib/lunatik/lfunc.c:96-112 | luaF_close in place |
| CgTheorems.ValueTheorem | lib/lunatik/lcode.c:389-432 | In a run in which no jump brings another value to a literal, the code of an expression leaves its value in the first free register, changes no register below it and leaves freereg one higher; control that had left already is not touched |
| CgTheorems.BranchTheorem | lib/lunatik/lparser.c:965-972 | Control falls through the code of a condition exactly if the condition is true and leaves by a jump of the returned list otherwise, in every run in which no jump brings another value to a literal in an operand whose value is needed; where only truth matters, nothing is excluded |
| CgTheorems.Compiles | lib/lunatik/lparser.c:828-853 | By induction over the expression: the descriptor that the calls of subexpr make denotes the value of the expression, from every exit |
| CgTheorems.MeansDecides | lib/lunatik/lparser.c:965-972 | A descriptor decides as the expression whose truth it denotes |
| CgTheorems.CompileStructure | lib/lunatik/lcode.c:696-788 | Without any condition on literals: jump lists stay disjoint and waiting, registers are given up in order, and what waits elsewhere is not touched |
| CgSplice.LiteralExact | lib/lunatik/lcode.c:58-65 | For and/or between operands that are exact in the run, the value theorem holds exactly if control does not come to a literal on the left by a waiting jump that carries another value |
| CgSplice.SplicedValue | lib/lunatik/lcode.c:538-588 | The example ((1 or false) and true) or false: its value is true, its code leaves 1 |
| CgSplice.SplicedBranch | lib/lunatik/lparser.c:965-972 | Where the branch goes wrong: the spliced example compared with true decides as 1 == true does, so rightly exactly if that is the same |
| CgCompile.ExactInAnyRun | lib/lunatik/lcode.c:538-588 | Where no jump that carries a value is spliced, no run brings one to a literal |
| CgSplice.NoLiteralIsExact | lib/lunatik/lcode.c:538-588 | Expressions without literals on the left of and/or are exact, whatever was compiled before |
| CgSplice.ValueWithoutLiterals | lib/lunatik/lcode.c:389-432 | The value theorem with a condition on the source text only |
| CgEndToEnd.CompileValue | lib/lunatik/lcode.c:413-418 | The generator works in place on any function state; running the words that it leaves puts the value of the expression into the register |
| CgEndToEnd.RunExpression | lib/lunatik/lvm.c:384-580 | An expression over parameters is compiled from nothing and its words are executed: the result is its value |
| CgBranch.IfTheorem | lib/lunatik/lparser.c:1130-1160 | if e then v = y end: whatever was compiled before, control leaves the statement with the value of y in the register if e is true and with what was there otherwise; no register below changes |
| CgEndToEnd.CompileIf | lib/lunatik/lparser.c:1130-1160 | The same for the generator working in place and the words that it leaves |
| CgEndToEnd.RunIf | lib/lunatik/lparser.c:1130-1160 | The statement over parameters, compiled from nothing and executed |
| CgTidy.CompileTidy | lib/lunatik/lcode.c:198-219 | The code of an expression names registers of its frame only, within the number that the expression needs, its operands have constant indices that fit, and every jump without a target is on a list |
| CgAccepted.FinishedAccepted | lib/lunatik/lparser.c:356-374 | Finished code with its returns passes luaG_checkcode, as close_func asserts, and its LOADBOOLs skip with C = 0 or 1 |
| CgAccepted.CompileReturn | lib/lunatik/lparser.c:1238-1268 | return e from open_func to close_func, in place: the function passes the checker, and there is one exactly if the frame is not too large and every instruction fits its fields |
| CgAccepted.ReturnStays | lib/lunatik/lvm.c:384-761 | So every run of it stays on instructions whose operands are there |
| CgInterpret.ReturnTheorem | lib/lunatik/lvm.c:374-610 | Interpreting the assembled words of the function of return e, opcode by opcode, returns the value of e |
| CgInterpret.InterpretRuns | lib/lunatik/lvm.c:374-610 | Where control gets to the end of the model, interpreting the assembled words gets there with the same registers |
| CgInterpret.TurnSteps | lib/lunatik/lvm.c:374-610 | Where the interpreter goes from an instruction is one of the successors that the statements about the checker speak of |
| CgWords.ExecuteSettled | lib/lunatik/lvm.c:384-580 | Words whose jumps to here are settled do what the model says of the code |
| CgWords.ExecuteRuns | lib/lunatik/lvm.c:536-580 | Where the words encode the model of the code and control gets to the end, executing them leaves the same registers |
| CgWords.ExecuteValue | lib/lunatik/lvm.c:384-580 | The value theorem for the words in memory |
| CgCode.RunRewired | lib/lunatik/lcode.c:130-159 | Settling waiting jumps changes a run only in what happens after they are taken |
| CgState.PatchRewired | lib/lunatik/lcode.c:149-159 | patchlistaux settles jumps in the sense of that theorem |
| CgState.RemoveRewired | lib/lunatik/lcode.c:143-146 | So does removevalues, which leaves all jumps where they go |
| CgState.DischargeRuns | lib/lunatik/lcode.c:162-165 | dischargejpc does not change where control goes |
| CgState.JumpRuns | lib/lunatik/lcode.c:58-65 | After luaK_jump control is on the list of the new jump and nowhere else |
| CgState.CondJumpRuns | lib/lunatik/lcode.c:73-76 | A test and its jump: control leaves by the jump exactly if the test says so |
| CgState.AddKOk | lib/lunatik/lcode.c:228-246 | addk gives an index at which the constant is, and keeps all others |
| CgExp.Discharge2RegRuns | lib/lunatik/lcode.c:342-378 | discharge2reg fills the register with the value of the descriptor where control gets to its end |
| CgReg.Exp2RegRuns | lib/lunatik/lcode.c:389-410 | exp2reg: from every exit of the expression control comes to the end with the value in the register |
| CgReg.Exp2RegGone | lib/lunatik/lcode.c:389-410 | Control that has left by another list stays where it is |
| CgOperand.Exp2NextRegRuns | lib/lunatik/lcode.c:413-418 | luaK_exp2nextreg puts the value into the first register that belongs to no other operand |
| CgOperand.Exp2AnyRegRuns | lib/lunatik/lcode.c:421-432 | luaK_exp2anyreg: the register it returns holds the value |
| CgOperand.Exp2RKOk | lib/lunatik/lcode.c:443-468 | luaK_exp2RK gives a valid operand and keeps the function state in order |
| CgOperand.Exp2RKRuns | lib/lunatik/lcode.c:443-468 | The operand, register or constant, has the value of the expression |
| CgCond.GoIfTrueRuns | lib/lunatik/lcode.c:538-563 | luaK_goiftrue: control falls through exactly if the value is true and leaves by the list otherwise |
| CgCond.GoIfFalseRuns | lib/lunatik/lcode.c:566-590 | luaK_goiffalse, the other way round |
| CgNot.CodeNotDenotes | lib/lunatik/lcode.c:593-625 | codenot: the descriptor denotes the negation, and every exit delivers a boolean |
| CgArith.CodeArithDenotes | lib/lunatik/lcode.c:660-677 | codearith: the result denotes the operator applied to the values of both operands |
| CgArith.FoldsExactly | lib/lunatik/lcode.c:634-657 | Two numerals are folded exactly if they have no jumps and it is no division by zero |
| CgArith.FoldedDivision | lib/lunatik/luaconf.h:563-580 | The folded quotient q and remainder r of a by b: a is b*q + r, r is smaller than b in magnitude, and 0 or of the sign of a |
| CgArith.FoldedLaws | lib/lunatik/luaconf.h:563-580 | Sum, difference, product and power are determined by laws: a + 0 is a, a + (b+1) is (a+b) + 1, (a-b) + b is a, a*0 is 0, a*(b+1) is a*b + a, and the power is the product |
| CgArith.FoldedMinus | lib/lunatik/lcode.c:634-660 | A numeral behind a minus becomes the numeral that adds up with it to 0 |
| CgCompile.RelationsOnNumbers | lib/lunatik/lvm.c:572-610 | Each of the six relations on numbers is the one its sign says, although only equal, less and less-or-equal are instructions |
| CgArith.CodeCompDenotes | lib/lunatik/lcode.c:680-693 | codecomp: the result denotes the comparison, also where the operands are exchanged |
| CgCompile.JoinedDenotes | lib/lunatik/lcode.c:744-760 | The end of and/or: the joined descriptor denotes the operand that the left value chooses |
| CgLists.ListUnique | lib/lunatik/lcode.c:99-105 | The head of a jump list in memory determines the list |
| CgLists.ListDistinct | lib/lunatik/lcode.c:99-105 | A jump list in memory never runs in a circle |
| CgLists.ListJoined | lib/lunatik/lcode.c:184-195 | Linking the end of one list to the head of another gives exactly the joined list |
| CgLists.PatchOneMore | lib/lunatik/lcode.c:149-159 | Walking a list and patching jump after jump settles exactly its members |
| CgLists.RemoveOneMore | lib/lunatik/lcode.c:143-146 | The same for the walk of removevalues |
| CgFuncState.FuncState.Concat | lib/lunatik/lcode.c:184-195 | luaK_concat on the words: the joined list, and no other word changes |
| CgFuncState.FuncState.PatchListAux | lib/lunatik/lcode.c:149-159 | patchlistaux on the words: what the model settles, and no other jump changes |
| CgFuncState.FuncState.DischargeJpc | lib/lunatik/lcode.c:162-165 | dischargejpc on the words |
| CgFuncState.FuncState.Code | lib/lunatik/lcode.c:796-808 | luaK_code on the words |
| CgFuncState.FuncState.JumpHere | lib/lunatik/lcode.c:58-65 | luaK_jump on the words |
| CgFuncState.FuncState.LoadNilOf | lib/lunatik/lcode.c:34-55 | luaK_nil for one register: omitted at the start, joined with a LoadNil just before |
| CgFuncState.FuncState.DischargeToReg | lib/lunatik/lcode.c:342-378 | discharge2reg on the words |
| CgFuncState.FuncState.ExpToReg | lib/lunatik/lcode.c:389-410 | exp2reg on the words; lists of others stay as they are |
| CgFuncState.FuncState.ExpToRK | lib/lunatik/lcode.c:443-468 | luaK_exp2RK on the words |
| CgFuncState.FuncState.GoIfTrueOf | lib/lunatik/lcode.c:538-563 | luaK_goiftrue on the words |
| CgFuncState.FuncState.GoIfFalseOf | lib/lunatik/lcode.c:566-590 | luaK_goiffalse on the words |
| CgFuncState.FuncState.CodeNotOf | lib/lunatik/lcode.c:593-625 | codenot on the words |
| CgFuncState.FuncState.ConstFoldOf | lib/lunatik/lcode.c:634-657 | constfolding on descriptors |
| CgFuncState.FuncState.CodeArithOf | lib/lunatik/lcode.c:660-677 | codearith on the words |
| CgFuncState.FuncState.CodeCompOf | lib/lunatik/lcode.c:680-693 | codecomp on the words |
| CgFuncState.FuncState.InfixOf | lib/lunatik/lcode.c:717-741 | luaK_infix on the words |
| CgFuncState.FuncState.PosfixOf | lib/lunatik/lcode.c:744-788 | luaK_posfix on the words |
| CgFuncState.FuncState.SubExpr | lib/lunatik/lparser.c:828-853 | The calls of subexpr on the words give the code and the descriptor of the model, and keep all lists of others |
| CgFuncState.FuncState.ExprToNextReg | lib/lunatik/lcode.c:413-418 | expr and luaK_exp2nextreg on the words |
| CgFuncState.FuncState.CondOf | lib/lunatik/lparser.c:965-972 | cond on the words: the head that is returned is the head of the list of the model |
| TblReplay.ReplayFromNew | lib/lunatik/ltable.c:382-529 | Any sequence of sets and gets on a table made by luaH_new, of whatever sizes, answers as a finite map does |
| TblReplay.Replay | lib/lunatik/ltable.c:382-529 | The same for a table in any shape and a map that agrees with it; they agree again at the end |
| TblReplay.LastAssignment | lib/lunatik/ltable.c:469-505 | In the map the last assignment to a key is what a get answers |
| TblTable.Table.Get | lib/lunatik/ltable.c:469-491 | luaH_get finds the value of the key along the chain of its main position, or in the array |
| TblTable.Table.Set | lib/lunatik/ltable.c:494-505 | luaH_set gives the slot of the key and changes no content; with room for the key the sizes stay |
| TblTable.Table.NewKey | lib/lunatik/ltable.c:399-432 | newkey gives a slot for the key after at most one rehash; no content changes |
| TblTable.Table.Rehash | lib/lunatik/ltable.c:333-349 | rehash keeps all contents and leaves room for the new key; the array part gets the largest power of two of which more than half the slots are used by the old keys with the new one, the hash part the smallest power of two for the rest |
| TblTable.Table.Resize | lib/lunatik/ltable.c:297-324 | resize with counts that suffice keeps all contents, none of its insertions rehashes, and both parts get their sizes |
| TblTable.Table.GrowArray | lib/lunatik/ltable.c:327-330 | luaH_resizearray to a larger size keeps all contents |
| TblTable.Table.GetFreePos | lib/lunatik/ltable.c:382-389 | getfreepos returns a node without a key, or none only if every node has one |
| TblTable.Table.PlaceKey | lib/lunatik/ltable.c:399-432 | Both collision cases keep the chains in order and add exactly the new key |
| TblTable.Table.NumUseArray | lib/lunatik/ltable.c:222-244 | numusearray counts exactly the keys of each slice in the array part |
| TblTable.Table.NumUseHash | lib/lunatik/ltable.c:247-260 | numusehash adds the integer keys of the hash part to their slices and counts all its live keys |
| TblTable.Table.SetNodeVector | lib/lunatik/ltable.c:271-296 | setnodevector leaves an empty hash part: none for size 0, otherwise the smallest power of two not below the size |
| TblTable.Table.RawSet | lib/lunatik/lapi.c:670-681 | lua_rawset stores the value with the key and changes no other content; a nil key is an error |
| TblTable.Table.constructor | lib/lunatik/ltable.c:358-371 | luaH_new: a valid table without content, with the sizes asked for |
| TblNode.InPlaceOk | lib/lunatik/ltable.c:399-432 | A key put into its unoccupied main position keeps chains and main positions in order |
| TblNode.InsertAfterOk | lib/lunatik/ltable.c:399-432 | So does linking a free node behind the main position |
| TblNode.MoveOutOk | lib/lunatik/ltable.c:399-432 | So does moving a colliding node out of its main position and relinking its predecessor |
| TblNode.ChainDistinct | lib/lunatik/ltable.c:469-491 | A chain never visits a node twice |
| TblSizes.ComputeSizes | lib/lunatik/ltable.c:189-208 | computesizes returns the largest power of two of which more than half the keys are there, with the number of these keys, and stays inside nums |
| TblSizes.OptimalUnique | lib/lunatik/ltable.c:189-208 | That size is determined by the keys |
| TblSizes.AllCounted | lib/lunatik/ltable.c:189-208 | Once all keys are counted no larger size qualifies, so the early exit loses nothing |
| TblSizes.CeilLog2Slice | lib/lunatik/lobject.c:55-70 | The slice of a key k is i exactly if 2^(i-1) < k <= 2^i |
| TblSizes.Log2 | lib/lunatik/lobject.c:55-70 | luaO_log2 is the floor of the binary logarithm, -1 for 0 |
| TblCount.CountOne | lib/lunatik/ltable.c:211-219 | countint adds a key to the count of its slice |
| TblCount.RestSize | lib/lunatik/ltable.c:333-349 | The size given to the hash part is the number of the keys, with the new one, that the array part does not take |
| TblNext.FindIndex | lib/lunatik/ltable.c:137-159 | findindex gives the position of the key, which may have lost its value, or an error if the key is nowhere |
| TblNext.Next | lib/lunatik/ltable.c:162-179 | luaH_next gives the first entry behind the key, and an error exactly if the key is nowhere |
| TblNext.Traverse | lib/lunatik/ltable.c:137-179 | A traversal whose body assigns to existing fields, nil among the values, ends; it visits no key twice, only keys of the table it started with, and every key that is left at the end |
| TblLength.GetN | lib/lunatik/ltable.c:560-575 | luaH_getn ends and returns a border |
| TblLength.UnboundSearch | lib/lunatik/ltable.c:532-554 | unbound_search, by doubling or one by one, ends and returns a border |
| TblLength.Bisect | lib/lunatik/ltable.c:532-575 | The binary searches return a border between their bounds |
| TblLength.DenseBorder | lib/lunatik/ltable.c:560-575 | If the integer keys are 1 to n, n is the only border |
| TblRef.References.Ref | lib/lunatik/lauxlib.c:491-511 | luaL_ref gives a positive reference that is not in use for a value that is not nil, keeps all live references and no other content changes |
| TblRef.References.Unref | lib/lunatik/lauxlib.c:514-522 | luaL_unref ends one live reference and keeps all others |
| TblRef.References.Get | lib/lunatik/lauxlib.c:491-522 | A live reference retrieves the value it was made for |
| TblRef.Dense | lib/lunatik/lauxlib.c:491-511 | With an empty free list the references are exactly 1 to n, so the length operator leads to a fresh one |
| ChkSafe.RunsStay | lib/lunatik/ldebug.c:316-485 | In accepted code with the LOADBOOLs of the code generator, no run leaves the code or reaches a SETLIST count, and every instruction it reaches names registers, constants, upvalues and prototypes that are there |
| ChkSafe.ClosedExactly | lib/lunatik/ldebug.c:370-380 | Control stays on the instructions of accepted code exactly if every LOADBOOL with a C operand other than 0 and 1 passes the test that the checker makes for C = 1 |
| ChkSafe.SkipsOutOfTheCode | lib/lunatik/ldebug.c:370-380 | An accepted function with C = 2 in a LOADBOOL, whose run leaves the code |
| ChkSafe.StepStays | lib/lunatik/lvm.c:384-761 | Where control goes from an instruction of accepted code there is an instruction |
| ChkSafe.OperandsStay | lib/lunatik/ldebug.c:303-313 | The operands of an instruction of accepted code are in bounds |
| ChkSafe.SkipStays | lib/lunatik/ldebug.c:370-380 | The target of a skipping LOADBOOL is an instruction exactly if it passes the test of the checker |
| ChkCode.Parity | lib/lunatik/ldebug.c:345-361 | The word at a target is a count exactly if an odd number of words that look like SETLIST with a count stand in front of it |
| ChkCode.CheckDest | lib/lunatik/ldebug.c:345-361 | The backward loop over the words decides whether the target is an instruction |
| ChkCode.CheckCaptures | lib/lunatik/ldebug.c:440-462 | The check of the words behind CLOSURE |
| ChkCode.CheckFormat | lib/lunatik/ldebug.c:323-369 | The checks of a word by its format, with jump targets and the jump behind a test |
| ChkCode.CheckOp | lib/lunatik/ldebug.c:370-475 | The checks of the single opcodes |
| ChkCode.CheckCode | lib/lunatik/ldebug.c:275-485 | luaG_checkcode returns true exactly for accepted code |
| ChkExact.AcceptsExactly | lib/lunatik/ldebug.c:275-485 | Code is accepted exactly if the frame is in order and every instruction is well formed: what it names is there, control goes from it to instructions, a test is followed by its jump, open results by an instruction that takes them, unused fields are 0, and varargs are there if they are asked for |
| PrsSubexpr.LexState.Subexpr | lib/lunatik/lparser.c:828-853 | subexpr in place: it consumes the tokens of the expression that the specification reads, returns the first operator it left alone, and keeps the call level |
| PrsSubexpr.SubExactly | lib/lunatik/lparser.c:828-853 | subexpr reads an expression exactly if its tokens are there with the parentheses that the priorities force, no operator above the limit follows, and the levels suffice |
| PrsSubexpr.RoundTrip | lib/lunatik/lparser.c:810-858 | An operator tree that is printed with only the parentheses its priorities force is parsed back |
| PrsSubexpr.NoShorterText | lib/lunatik/lparser.c:810-858 | No text that is parsed to the same tree is shorter |
| PrsReading.TwoOperators | lib/lunatik/lparser.c:806-853 | x op1 y op2 z is read as the order of section 2.5.6 of the Lua 5.1 Reference Manual groups it: or, and, comparisons, .., + and -, * / %, ^, equals to the left but .. and ^ to the right |
| PrsReading.PrefixOperator | lib/lunatik/lparser.c:806-853 | un x op y is read as un (x op y) exactly if op is ^ |
| PrsReading.PrefixBehind | lib/lunatik/lparser.c:806-853 | x op un y is read as x op (un y), whatever the operator |
| PrsReading.OperatorSigns | lib/lunatik/lparser.c:768-800 | Every operator has its own token |
| ScpParser.LexState.SingleVarAux | lib/lunatik/lparser.c:224-245 | singlevaraux finds the innermost visible declaration, through upvalues of every function in between; exactly the variables that are captured are recorded as such |
| ScpParser.LexState.SingleVar | lib/lunatik/lparser.c:248-253 | singlevar: a local, an upvalue that stands for the innermost declaration further out, or a global exactly if nothing is declared |
| ScpParser.LexState.SearchVar | lib/lunatik/lparser.c:207-214 | searchvar finds the last active variable with the name |
| ScpParser.LexState.IndexUpvalue | lib/lunatik/lparser.c:183-204 | indexupvalue returns the upvalue that is there or adds it at the end |
| ScpParser.LexState.MarkUpval | lib/lunatik/lparser.c:217-221 | markupval marks the block that declares the register and no other |
| ScpParser.LexState.Declare | lib/lunatik/lparser.c:160-173 | A declaration is what the name means from then on |
| ScpParser.LexState.LeaveBlock | lib/lunatik/lparser.c:296-307 | leaveblock makes a CLOSE exactly if a variable that goes out of scope was captured |
| ScpParser.LexState.BreakStat | lib/lunatik/lparser.c:975-988 | break makes a CLOSE exactly if a variable inside the innermost loop was captured |
| ScpParser.LoopLeft | lib/lunatik/lparser.c:975-988 | The marks on the blocks that a break leaves tell exactly whether a variable inside the loop was captured |
| ScpChain.OneUpvalue | lib/lunatik/lparser.c:183-204 | A function has at most one upvalue for a variable |
| ScpChain.CapturedStays | lib/lunatik/lparser.c:183-204 | Upvalues go on standing for the same variable while more is captured |
| ScpClosure.PushClosure | lib/lunatik/lparser.c:310-325 | pushclosure makes one word for each upvalue |
| ScpClosure.NewClosure | lib/lunatik/lvm.c:718-736 | OP_CLOSURE fetches one cell for each of these words |
| ScpClosure.ClosureHolds | lib/lunatik/lvm.c:718-736 | A closure made where registers and upvalues hold the right cells holds the cell of the variable in each of its upvalues |
| ScpClosure.NestHolds | lib/lunatik/lvm.c:718-736 | So do the closures of a whole nest of functions |
| ScpClosure.SharedCell | lib/lunatik/lparser.c:310-325 | A function of a nest reaches a captured variable at the same cell as the function that declares it in a register |
| DmpRoundTrip.UndumpDump | lib/lunatik/lundump.c:161-209 | Undumping a dump gives the same tree of functions back exactly if every function has a source name, and the erased tree if it was stripped; bytes behind the dump are left |
| DmpRoundTrip.FunctionBack | lib/lunatik/lundump.c:161-180 | For one function inside others: what comes back, with the source name it inherits |
| DmpRoundTrip.SameTree | lib/lunatik/ldump.c:129-140 | The source names that are left out are restored exactly if no function is without one |
| DmpRoundTrip.StrippedTree | lib/lunatik/ldump.c:111-140 | Stripping erases the debug information and nothing else |
| DmpRoundTrip.LoadedAccepted | lib/lunatik/lundump.c:161-180 | What is loaded passes the bytecode checker again |
| DmpLayout.HeaderDecides | lib/lunatik/lundump.c:183-190 | A chunk whose first twelve bytes are not the header is refused, whichever of them differs |
| DmpLayout.OpcodeOrder | lib/lunatik/lopcodes.h:150-208 | The 38 opcodes have their numbers |
| DmpLayout.Fields | lib/lunatik/lopcodes.h:37-48 | The instruction fields: six bits of opcode, eight of A, nine of C, nine of B |
| DmpLayout.SampleDump | lib/lunatik/ldump.c:60-163 | The bytes of one whole chunk, worked out: every field of a function in its order and width |
| DmpBytes.IntBack | lib/lunatik/lundump.c:61-67 | A non-negative int comes back from its bytes |
| DmpBytes.StringBack | lib/lunatik/lundump.c:76-88 | A string or its absence comes back from its bytes |
| DmpUndump.Reload | lib/lunatik/lundump.c:195-209 | A dump that a reader hands out in any non-empty blocks is loaded as the theorem says |
| DmpUndump.LoadChunk | lib/lunatik/lundump.c:195-209 | luaU_undump on the stream agrees with undumping its bytes, errors included |
| DmpUndump.LoadFunction | lib/lunatik/lundump.c:161-180 | LoadFunction on the stream agrees with reading the bytes, errors and the call limit included |
| DmpUndump.LoadString | lib/lunatik/lundump.c:76-88 | LoadString on the stream |
| DmpUndump.LoadBlock | lib/lunatik/lundump.c:48-52 | LoadBlock on the stream |
| DmpDump.DumpState.DumpFunction | lib/lunatik/ldump.c:129-140 | DumpFunction means to write exactly the bytes of the function |
| DmpDump.DumpChunk | lib/lunatik/ldump.c:153-163 | luaU_dump through a writer that may fail: the whole dump if it never fails, otherwise a part from its start and the first status that was not 0; after a failure the writer is not called again |
| DmpZio.Zio.Read | lib/lunatik/lzio.c:57-69 | luaZ_read returns the next bytes of the stream, however it is split, and the number of those missing |
| DmpZio.Zio.Lookahead | lib/lunatik/lzio.c:34-44 | luaZ_lookahead tells the next byte and consumes nothing |
| DmpZio.Zio.Fill | lib/lunatik/lzio.c:20-31 | luaZ_fill takes the first byte of the next block, and reports the end exactly at the end |

## Left out

Collector:

- GcPropagate.PropagateMarkKeeps: tables with weak keys or values, which stay gray on the list `weak` (lgc.c:158-197, lgc.c:277-290), are not modelled; every table is a strong one. traversestack clears stale slots only up to the largest frame limit (lgc.c:252-269), while here it clears all above the top, so stale pointers above that limit do not occur; checkstacksizes does not move a stack.
- GcAtomic.AtomicMarkKeeps: the weak list, the separation and marking of userdata to be finalized (luaC_separateudata, marktmu) and cleartable (lgc.c:525-553) are not part of the atomic step; without `__gc` and weak modes they have nothing to do.
- GcFull.FullGcExact: for the same reason there is no finalizer left to call in the last phase.
- GcMachine.GlobalState.TraverseStackOf: see GcPropagate.PropagateMarkKeeps for the slots above the frame limit.
- GcMachine.GlobalState.TraverseTableObject: without weak keys and values, as said there; the same holds for propagatemark.
- GcMachine.GlobalState.PropagateMarkOne: a weak table would stay gray.
- GcMachine.GlobalState.AtomicStep: without the weak list, the userdata to be finalized and cleartable, as said above.
- GcMachine.GlobalState.LinkUpval: the barrier at the end of luaC_linkupval is made by its caller, CloseTopUpval.
- GcUnchecked.StepFreely: where the invariant is broken, a condemned thread goes without closing its upvalues; the example has none.
- Pacing: luaC_step, the estimate and the thresholds. Collector steps come at any time instead, and the load figures that let the string table grow or shrink are the parameters `grow` and `shrink`.
- The bucket of a string is its hash modulo the number of buckets; the mask that the source computes it with presupposes a power of two.
- lua_replace on the registry index, which no barrier covers, is no step.
- Coroutine switches are the step `Resume`, without their calls and returns; hooks and errors do not occur.

Code generator:

- CgTheorems.BranchTheorem: an operand that is needed as a value, such as that of a comparison, has to be exact in the run (`SoundIn`); CgSplice.SplicedBranch shows why.
- CgBranch.IfTheorem: the register is the last one in use, and there is no `else`.
- CgAccepted.CompileReturn: the frame is as large as the expression may need (`Need`); luaK_checkstack makes it as large as the registers that were reserved, which is no more. Limits are those of the instruction fields.
- CgFuncState.FuncState.LoadNilOf: luaK_nil is called for one register only.
- CgFuncState.FuncState.AddConstant: the table of constants has no limit; the errors "constant table overflow", "function or expression too complex" (MAXSTACK) and "control structure too long" are not modelled.
- CgArith.CodeArithDenotes: numbers are unbounded, without the wrap-around of a `long`.
- CgFuncState.FuncState.PatchTestReg: the register NO_REG is `None`.
- Globals, upvalues, indexed expressions, calls, concatenation, varargs, constructors and assignments as operands; line information; backward jumps of loops.
- Metamethods: arithmetic, comparison and length are total functions on values.

Table:

- TblTable.Table.Rehash: "table overflow" (more than 2^26 nodes) is not modelled.
- TblTable.Table.SetNodeVector: nor is it here.
- TblTable.Table.GrowArray: the only call of luaH_resizearray (lvm.c:705-706) is guarded to enlarge the array part; a smaller size is not modelled.
- TblLength.UnboundSearch: indices are unbounded; the point at which the doubling gives up is the one of the source (MAX_INT).
- Keys are integers and other values that are compared as they are; a key NaN does not exist for integers. Dead keys belong to the collector part. Hash functions are arbitrary.
- The cache of absent metamethods (`flags`).

Checker, parser, scopes, dump:

- ChkSafe.RunsStay: the scratch registers that TFORLOOP uses for its call, and the dynamic top of open calls, are not looked at. Symbolic execution that traces a register for error messages (getobjname) is not modelled.
- PrsSubexpr.LexState.Subexpr: operands are single tokens or parentheses; calls and fields behind them (primaryexp), and the other simple expressions, are taken as atoms.
- ScpParser.LexState.Declare: a local is active at once, so there are no pending locals between new_localvar and adjustlocalvars; its initial value is not compiled. The limit on locals and its error are not modelled.
- ScpParser.LexState.IndexUpvalue: the limit on upvalues and its error are not modelled.
- ScpClosure.SharedCell: the cells are parameters; that a slot and its upvalue are one cell over time is GcShared.SeesWrite.
- ScpParser.LexState.LeaveBlock: the scope of `repeat ... until`, whose condition sees the locals of the block, is not modelled.
- DmpRoundTrip.UndumpDump: the layout is that of a 64-bit little-endian machine, and a stream has less than 2^63 bytes; string constants are not NULL, as the compiler makes none. LUAC_TRUST_BINARIES is not set.
- DmpZio.Zio.Read: reading a byte after the end of the stream (zgetc) is not modelled, nor the chunk name in error messages.

Everywhere: allocation failures, longjmp, kernel glue (`lunatik.c`, the bindings and the headers), and the text of error messages.
