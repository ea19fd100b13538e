# Verified models of shaco's runtime

This project models the parts of shaco that are hardest to get right, and proves what they promise:

- the incremental garbage collector of the Lua it is built on, with its barriers, weak tables, ephemerons and
  finalizers, interleaved with the program it collects for (modules `Lua*`);
- LPeg's pattern compiler, its backtracking machine and the check of loop bodies (modules `Lpeg*`);
- the big-integer arithmetic and the exact digit generation of dtoa (modules `Dtoa*`, over `Arithmetic`);
- the byte and message path: the serializer over chains of blocks (`Serial*`), sockets and their send queues
  (`SocketStream`, `SocketEvents`, `SocketPool`), framing (`Deframer`, `Harbor`), the message ring (`MessageRing`) and
  the timers (`TimerHeap`);
- the arithmetic modulo a 64-bit prime of the key exchange (`KeyExchange`) and SHA-1 (`Sha1`, `Sha1Stream`,
  `Sha1Example`).

Where the C code updates state step by step, the model is a class or a method over arrays with the same steps, proved
against a specification function; the properties are lemmas about those functions and invariants over runs. Memory
that the C code allocates is arbitrary until it is written. Answers of the operating system, clocks and what callbacks
do are parameters, so the results hold for all of them.

`dafny verify dfyconfig.toml` checks everything.

## Reading the project

**Lua.** `LuaObjects` holds the heap and the collector's global state. `LuaMark`, `LuaTraverse`, `LuaPropagate`,
`LuaAtomic`, `LuaClear` and `LuaSweep` are the collector's functions as transitions with what each keeps;
`LuaInvariant` is what holds between any two steps; `LuaCollect`, `LuaMutator`, `LuaTableStore`, `LuaLists` and
`LuaFinalize` show that collector steps and program operations keep it. `LuaRun` and `LuaCycle` are the results over
runs: nothing in reach is freed, garbage is, and every cycle ends. `LuaSeparate` and `LuaFinalizers` tell for which
objects finalizers are called, how often and in which order, `LuaWeak` what weak tables lose, and `LuaEffects` what an
operation of the program changes. `LuaCollector` is the collector as a class whose methods run the loops of the C code
in place and are proved equal to the transitions (`LuaFull` is about its full collections), and `LuaProgram` runs whole
programs on it, each store with its barrier. `LuaUnsafe`, `LuaExact`, `LuaExactPop` and `LuaUnseen` are about the two
cases the code leaves open.

**LPeg.** `LpegMachine` is the machine, `LpegSemantics` the meaning of parsing expressions, `LpegBuild` what the
combinators emit. `LpegCorrect` to `LpegJumps` prove each combinator, `LpegVerify` and `LpegChecked` the walk of
`verify`. `LpegCompile` is the theorem for whole expressions, `LpegAccept` and `LpegSize` tell which of them are built,
and why others are not. `LpegMatch`, `LpegPatterns` and `LpegLibrary` are the loops and the in-place construction.
`LpegFlaws` has the expressions that are compiled wrong.

**dtoa.** `DtoaWords` is positional notation in base 2^32; `DtoaBigint`, `DtoaShift`, `DtoaQuotient` and `DtoaPowers`
are the operations on word arrays; `DtoaDecimal` defines rounding half to even on its own; `DtoaDigits` and
`DtoaConvert` connect them.

## Model

| member | source | states |
|---|---|---|
| LuaCycle.ProgramsAreSafe | 3rd/lua/src/lgc.h:14-25 | in every run from the state of a new Lua state, with any interleaving of program operations and collector steps, an object the program can reach is allocated and not about to be freed |
| LuaRun.NothingReachableIsFreed | 3rd/lua/src/lgc.c:985-1101 | the same from any state with the invariant, for the reachability the program has at the end of the run |
| LuaRun.EventFine | 3rd/lua/src/lgc.c:155-216 | every store with its barrier, allocation, write to a stack or the registry without one, finalizer call and collector step keeps the invariant, except two: a metatable stored into a gray weak table, and a finalizer called for the object at the sweep cursor with others behind it |
| LuaRun.StepFine | 3rd/lua/src/lgc.c:1048-1101 | every collector step keeps the invariant, in every phase, for any batch size of the sweep, in emergency mode or not |
| LuaCycle.GarbageIsFreed | 3rd/lua/src/lgc.c:337-344 | an object unreachable when a cycle starts, finalizers counted as roots, is gone before the next pause, whatever the program does meanwhile short of finding it again in the string table, unless luaC_fullgc gives up the marking |
| LuaCycle.StepDescends | 3rd/lua/src/lgc.c:1048-1101 | with an idle program every step outside the pause lowers an explicit measure |
| LuaCycle.CycleEnds | 3rd/lua/src/lgc.c:1108-1112 | with an idle program every cycle comes to its pause |
| LuaCycle.CollectsExactly | 3rd/lua/src/lgc.c:985-1101 | with an idle program, up to the first finalizer call, a cycle keeps nothing outside any set that is closed under the references the collector follows and contains the roots; weak references keep nothing |
| LuaFixpoint.MarksAreLeast | 3rd/lua/src/lgc.c:608-623 | after convergence the marked set lies within every set that contains the roots and is closed, ephemeron entries taken as implications from key to value |
| LuaFixpoint.MarksAreClosed | 3rd/lua/src/lgc.c:394-430 | after convergence the marked set is itself so closed, for chains of any length, where every table on 'allweak' still is all-weak |
| LuaFixpoint.MarksStart | 3rd/lua/src/lgc.c:985-1006 | after convergence the roots, and all that was marked before, are among the marks |
| LuaMark.ReallyMarkKeeps | 3rd/lua/src/lgc.c:235-283 | marking a white object keeps the tri-colour invariant, only adds marks and leaves the object marked |
| LuaMark.ReallyMarkDarkens | 3rd/lua/src/lgc.c:235-283 | what was marked keeps its colour; a newly marked string or userdata is black, any other newly marked object is gray and on the gray list, which only grows at its front |
| LuaMark.MarkValueKeeps | 3rd/lua/src/lgc.c:83-84 | after markvalue the invariant holds, marks only grow, and the value is marked if it is an object |
| LuaPropagate.PropagateMarkKeeps | 3rd/lua/src/lgc.c:559-600 | traversing one gray object keeps the invariant: nothing turns black before its references are marked, and weak tables go on the right list |
| LuaPropagate.PropagateAllKeeps | 3rd/lua/src/lgc.c:603-605 | emptying the gray list terminates and keeps the invariant |
| LuaAtomic.ConvergeKeeps | 3rd/lua/src/lgc.c:608-623 | convergence terminates with no ephemeron entry left whose key is marked and whose value is not |
| LuaAtomicStep.AtomicMarkKeeps | 3rd/lua/src/lgc.c:985-1006 | the first half of atomic leaves the gray list empty and the roots marked |
| LuaAtomicStep.AtomicClearKeeps | 3rd/lua/src/lgc.c:1007-1029 | after the second half nothing marked refers to anything unmarked, weakly or strongly, and all objects with pending finalizers are marked |
| LuaSeparate.AtomicSeparates | 3rd/lua/src/lgc.c:880-895 | the atomic step puts exactly the objects with finalizers that were not marked when convergence had ended on 'tobefnz', behind those that were there and in the order they had; all others stay on 'finobj' in their order |
| LuaFinalizers.EventQueues | 3rd/lua/src/lgc.c:880-921 | no operation or step changes the two lists but three: giving an object its finalizer puts it first on 'finobj', the atomic step divides that list, and a finalizer call takes the first object off 'tobefnz' |
| LuaFinalizers.FinalizedWereUnmarked | 3rd/lua/src/lgc.c:809-863 | in every run from a new state, an object whose finalizer is called was left unmarked by an earlier atomic step and has waited since |
| LuaFinalizers.UsedNotFinalized | 3rd/lua/src/lgc.c:880-895 | from an atomic step to the next pause no finalizer is called for an object that the step had marked, unless it was waiting for its finalizer before |
| LuaFinalizers.FinalizedOnce | 3rd/lua/src/lgc.c:790-801 | between two calls of an object's finalizer the program has given it one again |
| LuaFinalizers.FinalizedInReverse | 3rd/lua/doc/manual.html:778-785 | of two objects that the same atomic step finds out of use, the finalizer of the one that was given its finalizer later is called first, in every run |
| LuaWeak.AtomicSpares | 3rd/lua/src/lgc.c:639-674 | the atomic step takes nothing out of a table but entries whose value was not marked before objects were resurrected or whose key is not live at its end, and changes no other object that is left |
| LuaWeak.WeakValuesGo | 3rd/lua/doc/manual.html:874-885 | a table in use with weak values holds no value after the atomic step that was out of use: resurrected objects have gone from it before their finalizers are called |
| LuaWeak.StepSpares | 3rd/lua/src/lgc.c:1048-1101 | no other step of the collector takes anything out of a table or changes what an object holds, but a finalizer call, which pushes its argument |
| LuaWeak.GiveSpares | 3rd/lua/src/lgc.c:902-921 | giving an object its finalizer changes no object that is left and no root |
| LuaWeak.AbandonSpares | 3rd/lua/src/lgc.c:1163-1179 | nor does giving up a marking |
| LuaWeak.StepRoots | 3rd/lua/src/lgc.c:1048-1101 | no step of the collector, finalizer calls included, changes the running thread, the registry, the metatables of basic types or what is kept for ever |
| LuaEffects.MutationDoes | 3rd/lua/src/lgc.h:118-132 | every store, allocation, string lookup and root change of a program, its barrier included, leaves exactly the heap, roots and lists that it says, and touches nothing else but colours and gray lists |
| LuaEffects.CallDoes | 3rd/lua/src/lgc.c:790-821 | the first object of 'tobefnz' is pushed as the argument of its finalizer, is first on 'allgc' again and has no finalizer any more |
| LuaCollect.AtomicGood | 3rd/lua/src/lgc.c:985-1029 | the whole atomic step, with the flip of the whites, keeps the invariant: exactly the unmarked are dead |
| LuaCollect.AbandonGood | 3rd/lua/src/lgc.c:1163-1179 | luaC_fullgc gives up a marking in progress without freeing anything |
| LuaSweep.SweepListKeeps | 3rd/lua/src/lgc.c:734-751 | sweeplist visits as many objects as asked, in order: it frees the dead and whitens the others |
| LuaSweep.SweepToLiveKeeps | 3rd/lua/src/lgc.c:757-766 | sweeptolive stops behind the first object that is not dead, or at the end |
| LuaSweepGood.StretchGood | 3rd/lua/src/lgc.c:734-766 | sweeping any stretch keeps the invariant: no live object keeps the old white behind the cursor |
| LuaMutator.StoreFieldGood | 3rd/lua/src/lgc.c:155-164 | a field store with its forward barrier keeps the invariant in every phase, except that of a metatable into a gray weak table |
| LuaMutator.StoreCellGood | 3rd/lua/src/lgc.c:185-191 | a store into a closed upvalue with its barrier keeps the invariant, whatever closures share it |
| LuaTableStore.StoreTableGood | 3rd/lua/src/lgc.c:171-176 | a store into a table, new key or old, with its backward barriers keeps the invariant |
| LuaLists.NewObjectGood | 3rd/lua/src/lgc.c:208-216 | allocation keeps the invariant in every phase |
| LuaLists.InternGood | 3rd/lua/src/lstring.c:174-180 | a string found in the string table is live afterwards, even if it was dead and not swept yet |
| LuaFinalize.CheckFinalizerGood | 3rd/lua/src/lgc.c:902-921 | moving an object to the list of those with finalizers keeps the invariant, also while the list is swept |
| LuaFinalize.CallFinalizerGood | 3rd/lua/src/lgc.c:809-838 | taking the next object off 'tobefnz' and calling its finalizer keeps the invariant, except where the sweep stands at that object with others behind it |
| LuaMutator.BadMetaBreaks | 3rd/lua/src/lgc.c:451-471 | that store breaks the invariant in every state |
| LuaFinalize.BadPopBreaks | 3rd/lua/src/lgc.c:790-838 | that call breaks the invariant in every state |
| LuaExact.BadMetaExact | 3rd/lua/src/lapi.c:845-876 | a table gets a metatable that the program then drops: the collector frees it under the table exactly if, while marking went on, the table waited on 'allweak' and the metatable was white |
| LuaExactPop.BadPopExact | 3rd/lua/src/lgc.c:790-838 | of two objects on 'tobefnz' the second is saved by its finalizer: a cycle frees what it holds exactly if the first was popped while the sweep stood at it |
| LuaUnsafe.WeakMetatableBreaksSafety | 3rd/lua/src/lgc.c:451-471 | a run of safe operations from a new state leads to such a store, and on to an object the program reaches and the collector has freed |
| LuaUnsafe.EarlyFinalizerBreaksSafety | 3rd/lua/src/lgc.c:790-863 | a run of safe operations from a new state, with sweep steps of one object, leads to such a finalizer call, and on to a freed object in reach |
| LuaCollector.Collector.FullGC | 3rd/lua/src/lgc.c:1163-1179 | the loops of luaC_fullgc terminate in a pause with the invariant; nothing is left that was out of reach when it was called, in emergency mode nor what only weak references reached; in the other mode every finalizer that was due has been called |
| LuaCollector.Collector.OneStep | 3rd/lua/src/lgc.c:1048-1101 | singlestep in place makes the state the transition function gives |
| LuaCollector.Collector.AtomicPhase | 3rd/lua/src/lgc.c:985-1029 | atomic in place makes the state the transition function gives |
| LuaCollector.Collector.ConvergeEphemerons | 3rd/lua/src/lgc.c:608-623 | the nested loops of convergeephemerons make the state the transition function gives |
| LuaCollector.Collector.ForwardBarrier | 3rd/lua/src/lgc.c:155-164 | luaC_barrier in place, with the macro's tests, makes the state the transition function gives |
| LuaCollector.Collector.BackBarrier | 3rd/lua/src/lgc.c:171-176 | the same for luaC_barrierback |
| LuaCollector.Collector.UpvalueBarrier | 3rd/lua/src/lgc.c:185-191 | the same for luaC_upvalbarrier |
| LuaCollector.Collector.NewObj | 3rd/lua/src/lgc.c:208-216 | the same for luaC_newobj |
| LuaCollector.Collector.Sweep | 3rd/lua/src/lgc.c:734-751 | sweeplist in place makes the state the transition function gives |
| LuaProgram.PutFieldOf | 3rd/lua/src/lapi.c:845-876 | a field is written in place and luaC_objbarrier called: the state the transition function gives |
| LuaProgram.PutTableOf | 3rd/lua/src/lapi.c:800-813 | the same for a table and luaC_barrierback, for a new key and for the value |
| LuaProgram.PutCellOf | 3rd/lua/src/lapi.c:1235-1253 | the same for a closed upvalue and luaC_upvalbarrier |
| LuaProgram.PerformFine | 3rd/lua/src/lgc.h:118-132 | every safe operation of a program in place, its barrier included, and every collector step in place, keeps the invariant |
| LuaProgram.RunProgram | 3rd/lua/src/lgc.h:14-25 | any run of safe operations and collector steps in place, from a new state, ends with everything in reach allocated and not about to be freed |
| LpegCompile.CompileGood | 3rd/lpeg/lpeg.c:1172-1684 | the code of every expression of sets, characters, concatenation, difference, not, and, choice and repetition matches what its recursive semantics says, if no part meets one of the two flaws |
| LpegCompile.CompiledMatches | 3rd/lpeg/lpeg.c:440-636 | on every subject and position the machine ends at the position of the semantics, or fails when it fails, with the stack as it was |
| LpegCompile.VerdictSound | 3rd/lpeg/lpeg.c:656-782 | the walk of verify ends with exactly one verdict; if it accepts, and met no blind spot, every match consumes something |
| LpegCompile.CompileTotal | 3rd/lpeg/lpeg.c:1661-1684 | every expression whose loops star_l accepted comes to an end on every subject, if the walks met no blind spot |
| LpegAccept.CompileSober | 3rd/lpeg/lpeg.c:656-782 | the walk of verify through the code of any expression, also one that is compiled wrong, comes to its end only where the syntax says that the expression may be empty, and never has more choices pending than are nested in it |
| LpegAccept.VerifyEnds | 3rd/lpeg/lpeg.c:656-782 | verify comes to exactly one verdict on every pattern that is built |
| LpegAccept.AcceptsBody | 3rd/lpeg/lpeg.c:667-673 | verify accepts every body that cannot be empty by its syntax and has at most 200 choices nested |
| LpegAccept.GivesUpDeep | 3rd/lpeg/lpeg.c:667-673 | it reports too many pending choices only for bodies with more than 200 nested |
| LpegAccept.RejectsEmpty | 3rd/lpeg/lpeg.c:656-782 | it rejects only bodies that may be empty by their syntax |
| LpegAccept.ConsumesBySyntax | 3rd/lpeg/lpeg.c:1661-1684 | what cannot be empty by its syntax consumes at least one character in every match |
| LpegSize.IsBuilt | 3rd/lpeg/lpeg.c:1172-1684 | an expression is built whenever its loop bodies consume by their syntax, nest at most 200 choices, and its size, by a bound on the syntax, is less than 32756: nothing else is ever refused |
| LpegSize.RefusalMeans | 3rd/lpeg/lpeg.c:1172-1684 | each refusal has the reason it names: a loop body that may be empty by its syntax, one with more than 200 choices nested, or a size of 32756 cells and more |
| LpegSize.CompileWeight | 3rd/lpeg/lpeg.c:1172-1684 | the code of an expression is no larger than that bound |
| LpegSize.BuiltFits | 3rd/lpeg/lpeg.c:1043-1047 | no pattern with 32756 cells or more is ever built |
| LpegCorrect.ConcatGood | 3rd/lpeg/lpeg.c:1333-1351 | concatenation is right unless both sides are a single 'any' and one of them is optional |
| LpegCorrect.ConcatBreaks | 3rd/lpeg/lpeg.c:1329-1351 | in every such case the concatenation is wrong |
| LpegPredicates.DiffGood | 3rd/lpeg/lpeg.c:1354-1381 | difference is right in all of its three forms |
| LpegPredicates.UnmGood | 3rd/lpeg/lpeg.c:1384-1400 | the not-predicate succeeds without consuming exactly if its pattern fails |
| LpegPredicates.AndGood | 3rd/lpeg/lpeg.c:1403-1422 | the and-predicate succeeds without consuming exactly if its pattern matches |
| LpegSplit.SeparateGood | 3rd/lpeg/lpeg.c:1538-1568 | joining an alternative to code that is a choice already tries it behind all the others, whatever form these have |
| LpegSplit.UnionGood | 3rd/lpeg/lpeg.c:1572-1587 | ordered choice is right unless a part that goes back to a choice has a check of more than one character and can fail behind it |
| LpegSplit.ReopenedExact | 3rd/lpeg/lpeg.c:1553-1567 | such a union is right exactly if the remaining alternatives match the same from the place where they are taken up |
| LpegSplit.BadUnionExact | 3rd/lpeg/lpeg.c:1553-1567 | in front of an alternative that always matches the empty string it is right exactly if the part cannot fail behind its check |
| LpegSplit.DepthsHold | 3rd/lpeg/lpeg.c:440-636 | a body in which everything that can fail has a pending choice, by a count of the choices at each instruction, cannot fail behind its check |
| LpegUnion.LooseFormExact | 3rd/lpeg/lpeg.c:1553-1567 | the code with the fixed distance is an ordered choice if and only if the alternatives match the same from behind |
| LpegJumps.OptJumpsDoes | 3rd/lpeg/lpeg.c:904-916 | following chains of jumps changes nothing that the code matches |
| LpegRepeat.ChoiceLoopDoes | 3rd/lpeg/lpeg.c:1618-1632 | the loop with a partial commit repeats its body as often as it matches |
| LpegRepeat.HeadFailLoopDoes | 3rd/lpeg/lpeg.c:1603-1615 | the loop with a test and a jump does the same for a body that can only fail at its first instruction |
| LpegFlaws.OptionalAnyIsLost | 3rd/lpeg/lpeg.c:1329-1351 | P(1) * P(1)^-1 is compiled to P(2) and does not match "a" |
| LpegFlaws.WrongDistance | 3rd/lpeg/lpeg.c:1553-1567 | (P(2)*P"x" + S"") + P"a" matches two characters of "aab" where it should match one |
| LpegFlaws.HoistedPredicateLoops | 3rd/lpeg/lpeg.c:656-782 | the body of (#S"ab" + P"a")^0 is accepted, and the loop never ends on "a" |
| LpegFlaws.UnseenAlternativeLoops | 3rd/lpeg/lpeg.c:656-782 | the body of (#P"a" * P"a" + #P"b")^0 is accepted, and the loop never ends on "b" |
| LpegMatch.Match | 3rd/lpeg/lpeg.c:440-636 | the loop of match over a stack that doubles returns what the machine reaches, or an error exactly if the stack needs more room than allowed |
| LpegMatch.MatchPattern | 3rd/lpeg/lpeg.c:2330-2350 | matching a pattern that was built gives the outcome of its semantics: from the start for index 1, on the rest of the subject moved by as much for a larger one, counted from the end for a negative one, and at the nearest end beyond; the stack overflows exactly if the machine needs more room than allowed |
| LpegMatch.SemMoved | 3rd/lpeg/lpeg.c:2330-2350 | the semantics looks at nothing in front of the start: on the rest of a subject the outcome is the same, moved |
| LpegMatch.Verify | 3rd/lpeg/lpeg.c:656-782 | the loop of verify with its array of choices returns the verdict of the walk |
| LpegPatterns.SeparatePartsAt | 3rd/lpeg/lpeg.c:1538-1568 | building the parts from the last to the first in one array, with in-place test and jump changes, gives the code of the specification |
| LpegPatterns.OptimizeJumps | 3rd/lpeg/lpeg.c:904-916 | changing jump after jump in place, through chains that are partly changed, gives the code in which all are followed at once |
| LpegPatterns.Rotate | 3rd/lpeg/lpeg.c:838-856 | rotating by three inversions in place moves the last part to the front |
| LpegLibrary.BuildPattern | 3rd/lpeg/lpeg.c:1172-1684 | for every expression a program can write, the combinators working on arrays build the code of the specification, and refuse what it refuses |
| DtoaBigint.MultAdd | 3rd/lua-cjson/dtoa.c:613-667 | the value becomes b * m + a, in place or in a copy with one more word; no carry is lost |
| DtoaBigint.Mult | 3rd/lua-cjson/dtoa.c:806-913 | a new number with the value of the product and no leading zero; no sum leaves 64 bits and no word the array |
| DtoaPowers.Pow5Mult | 3rd/lua-cjson/dtoa.c:918-972 | the value is multiplied by 5^k, and the list that grows when needed holds 5^(4 * 2^i) at each place i |
| DtoaShift.LShift | 3rd/lua-cjson/dtoa.c:975-1032 | a new number with the value times 2^k |
| DtoaShift.HiZeros | 3rd/lua-cjson/dtoa.c:708-739 | the number of leading zero bits of a word |
| DtoaShift.DShift | 3rd/lua-cjson/dtoa.c:2107-2117 | after a shift by p2 and the result the top word has exactly four leading zero bits |
| DtoaQuotient.Cmp | 3rd/lua-cjson/dtoa.c:1035-1066 | the sign of the difference; only the two forms of 0 are told apart |
| DtoaQuotient.Diff | 3rd/lua-cjson/dtoa.c:1069-1160 | a new number with the distance of the two values, and the sign of the difference |
| DtoaQuotient.Estimate | 3rd/lua-cjson/dtoa.c:2145-2149 | the quotient of the top words is never too big and at most one too small, if the divisor has four leading zero bits and the quotient is a digit |
| DtoaQuotient.QuoRem | 3rd/lua-cjson/dtoa.c:2120-2241 | b == q * S + r with r < S: the digit is returned and the remainder is left in place of b |
| DtoaDecimal.HalfEvenNearest | 3rd/lua-cjson/dtoa.c:4298-4313 | the rounded quotient is nearest to the exact one, and even if another integer is as near |
| DtoaDigits.Produce | 3rd/lua-cjson/dtoa.c:4285-4296 | the digit loop writes the digits of b / S and leaves the remainder behind the last one |
| DtoaDigits.RoundOff | 3rd/lua-cjson/dtoa.c:4298-4329 | rounding by the remainder and the last digit, with nines carried and zeros trimmed, shows the number rounded half to even |
| DtoaDigits.ShowDigits | 3rd/lua-cjson/dtoa.c:4285-4329 | for 1 <= b / S < 10 the digits written, without zeros at their end, and the exponent show b / S rounded half to even at the digit asked for |
| DtoaDigits.ShownOnce | 3rd/lua-cjson/dtoa.c:4314-4329 | there is only one such string and exponent for a number |
| DtoaConvert.Convert | 3rd/lua-cjson/dtoa.c:4084-4343 | modes 2 and 3 from the exact quotient b * 2^b2 * 5^b5 / (2^s2 * 5^s5) and a given estimate of the exponent on: digits and decimal exponent show it correctly rounded, also if the exponent was estimated one too big, and if one digit or none is asked for |
| SerialFormat.EncIs | src-l/lserialize.c:9-29 | the bytes of every value, in numbers: type and cookie in the first byte, the width by the size of a number or a length, low bytes first |
| SerialFormat.PartsAre | src-l/lserialize.c:301-350 | an array is its values, one behind the other, and the pairs of a table are key and value in turn, with nil at the end |
| SerialFormat.PackableIs | src-l/lserialize.c:364-413 | exactly the values without unsupported parts and at most 32 tables deep can be packed |
| SerialFormat.CutIsInvalid | src-l/lserialize.c:526-648 | an encoding that is cut off anywhere is refused |
| SerialFormat.RefusedHeads | src-l/lserialize.c:536-640 | a type that does not exist, and widths that do not, are refused whatever follows |
| Serial.ValueBack | src-l/lserialize.c:364-413 | the bytes written for a value, whatever follows them, are read as that value, and what follows is left |
| Serial.IntBack | src-l/lserialize.c:226-257 | every 64-bit integer is read back from the shortest form it is written in |
| Serial.ListBack | src-l/lserialize.c:655-679 | every list of values that can be packed is unpacked as it was |
| Serial.AppendedBack | src-l/lserialize.c:435-442 | what is appended is unpacked behind what was there |
| SerialBlocks.WriteBlock.Push | src-l/lserialize.c:61-80 | bytes are added to the chain over any block boundary |
| SerialBlocks.ReadBlock.Read | src-l/lserialize.c:149-200 | the next bytes, over any block boundary, or none if there are fewer; blocks are freed in order, none twice |
| SerialPack.PackOne | src-l/lserialize.c:364-413 | packing writes the bytes of the value, and fails exactly for tables too deep and kinds not supported |
| SerialPack.Pack | src-l/lserialize.c:425-432 | a closed chain with its length in front and the bytes of all values |
| SerialPack.AppendTo | src-l/lserialize.c:435-442 | a closed chain is opened at its end, and closed again with the new bytes behind the old |
| SerialUnpack.UnpackOne | src-l/lserialize.c:644-652 | reading a value gives what the bytes stand for, or the error of a malformed stream |
| SerialUnpack.Unpack | src-l/lserialize.c:655-679 | unpacking gives the values of the payload, and every block of the chain has been freed exactly once |
| SerialUnpack.Flatten | src-l/lserialize.c:710-748 | the chain becomes one buffer with the same bytes, and every block is freed once |
| SerialUnpack.Deserialize | src-l/lserialize.c:751-766 | a flat buffer gives the values of its payload |
| SerialTrip.PackUnpack | src-l/lserialize.c:425-432 | packed into a chain and unpacked from it, values come back as they were, exactly if they can be packed |
| SerialTrip.PackFlatten | lua-shaco/shaco.lua:80-83 | the same through shaco.pack and shaco.unpack, by way of a flat buffer |
| SerialTrip.AppendFlatten | src-l/lserialize.c:435-442 | packed, appended to, flattened and read, the values come back as one list |
| SocketStream.FlushKeeps | src-shaco/socket.c:428-455 | for any sequence of short writes, EAGAIN and EINTR, bytes taken followed by bytes left are the bytes queued |
| SocketStream.RunKeeps | src-shaco/socket.c:428-587 | in every run of a connection, bytes taken followed by bytes queued are all that was accepted; once it is to be closed nothing more is accepted |
| SocketStream.ReleaseOfHalf | src-shaco/socket.c:491-523 | a connection that is to be closed is released when all it accepted is taken, on an error, by its peer or by force |
| SocketEvents.RunAccepts | src-shaco/socket.c:527-587 | as long as a connection is open it has accepted exactly the data of all sends before the first close, in order |
| SocketEvents.FlushIs | src-shaco/socket.c:428-455 | a write event takes whole buffers and the part of the next one that the last answer says, and fails exactly if that answer is an error |
| SocketEvents.AllWritten | src-shaco/socket.c:428-455 | a write event for which the system takes everything leaves nothing queued |
| SocketEvents.SendWrites | src-shaco/socket.c:527-587 | a send writes at once what the system takes, if nothing is queued, and queues the rest behind what is queued |
| SocketEvents.EndsExactly | src-shaco/socket.c:428-523 | a connection is released by exactly these events: a failed write or read, the end of its input, the last of its bytes when it is to be closed, a close that is forced or has nothing queued |
| SocketEvents.RunEnds | src-shaco/socket.c:428-587 | a run goes on exactly as long as no such event comes |
| SocketPool.Net.Create | src-shaco/socket.c:103-125 | the slot that has been free the longest, or failure exactly if no slot is free |
| SocketPool.Net.Release | src-shaco/socket.c:128-162 | the slot goes to the end of the list threaded through the descriptors, which stays acyclic and holds exactly the free slots |
| SocketPool.FullMeansLive | src-shaco/socket.c:103-125 | the list is empty exactly if all slots are live |
| SocketPool.TakenInOrder | src-shaco/socket.c:84-162 | in every run slots are taken in the order in which they became free |
| SocketPool.Net.SendBufferTcp | src-shaco/socket.c:428-455 | the loops over the queue write what the specification says, and the count of queued bytes stays right |
| SocketPool.Net.SendBuffer | src-shaco/socket.c:491-523 | a write event does to the connection what the specification says; its slot is released, and invalid, exactly on an error or when a closing queue is drained |
| SocketPool.Net.Send | src-shaco/socket.c:527-587 | a send does what the specification says; unless the result is -1 the data has been added to what was accepted, and the result is how much is queued; -1 is for a slot that is dead or to be closed and for a failed write only |
| SocketPool.Net.Close | src-shaco/socket.c:165-177 | a close releases the slot at once if forced or if nothing is queued, and else lets the queue drain |
| Deframer.CutAnyhow | src-mod/socket_buffer.c:97-150 | the packets of any stream are the same however it is cut into pieces |
| Deframer.PoppingIs | src-mod/socket_buffer.c:138-150 | popping gives just those packets where no length has its top bit set |
| Deframer.EmptyFrame | src-mod/socket_buffer.c:97-150 | a frame of length 0 is an empty packet, as soon as another byte is there |
| Deframer.NegativeLength | src-mod/socket_buffer.c:97-150 | nothing comes behind a length that is negative as an int and not all ones: that is an error |
| Deframer.CutExact | src-mod/socket_buffer.c:138-150 | for any lengths: it does not matter where a stream is cut, exactly if no packet is left behind a length of all ones, which is dropped |
| Deframer.CutMatters | src-mod/socket_buffer.c:138-150 | behind such a length a packet that comes later is popped, and one that comes at once is not |
| Deframer.SocketBuffer.PopAll | src-mod/socket_buffer.c:138-150 | popping until nothing comes gives what the specification says of the whole stream, and leaves its rest |
| Deframer.SocketBuffer.Pop | src-mod/socket_buffer.c:138-150 | the first packet exactly if it is complete; a length of all ones is dropped, and one that is negative as an int gives an error |
| Deframer.SocketBuffer.ReadN | src-mod/socket_buffer.c:118-135 | the next bytes over any number of nodes, with 'size' the number of unread bytes; a negative number of bytes is an error exactly if there are any |
| Deframer.SocketBuffer.FreeBuffer | src-mod/socket_buffer.c:69-94 | dropping what has been read leaves the unread bytes and their count |
| Harbor.ToRemote | src-mod/mod_harbor.c:160-178 | the frame of a message, byte by byte, for the socket of its node; nothing is sent exactly if the node is 0; the result is 0 exactly if the socket accepts |
| Harbor.FrameBytes | src-mod/mod_harbor.c:160-178 | the bytes of a frame in numbers: length, number of this node, low bytes of both handles and of the type, session, high bytes first, and the message |
| Harbor.HandlePackage | src-mod/mod_harbor.c:117-134 | what the specification says becomes of any stream: the messages delivered, what is left, and whether the connection stays, is closed, or fails |
| Harbor.HandleIs | src-mod/mod_harbor.c:117-134 | where no length has its top bit set: the messages of all complete packets are delivered, up to one without payload, which ends the connection |
| Harbor.FramesRead | src-mod/mod_harbor.c:160-178 | the frames of any messages are read as packets with their headers and payloads |
| Harbor.HeaderRead | src-mod/mod_harbor.c:61-67 | session, low destination byte, low type byte and source tag are read back |
| Harbor.DeliveredAre | src-mod/mod_harbor.c:117-134 | all messages arrive in order exactly if none is empty; else those in front of the first empty one |
| MessageRing.Ring.Push | src-shaco/shaco_msg_dispatcher.c:30-52 | the message is last, over every wrap and doubling |
| MessageRing.Ring.Pop | src-shaco/shaco_msg_dispatcher.c:55-65 | the first message, or none if the ring is empty |
| MessageRing.Ring.Dispatch | src-shaco/shaco_msg_dispatcher.c:68-80 | whatever handlers push, all messages queued at entry are delivered first and in order; no others are delivered exactly if the ring did not double while the entry batch wrapped around its end |
| MessageRing.SixMessagesOvertake | src-shaco/shaco_msg_dispatcher.c:44-51 | a ring of eight and a handler that sends six messages for which more is delivered |
| TimerHeap.TimeHeap.Push | src-shaco/shaco_timer.c:28-46 | heap order is kept and the node is added |
| TimerHeap.TimeHeap.Pop | src-shaco/shaco_timer.c:49-68 | heap order is kept and a node that expires first is taken out |
| TimerHeap.Timer.Trigger | src-shaco/shaco_timer.c:146-160 | nodes fired and nodes left are those at entry and those registered meanwhile; the fired were due, the left are not, and they come in order unless a callback registers a time in the past |
| TimerHeap.Timer.Register | src-shaco/shaco_timer.c:163-172 | one node is added, of the registered handle and session and with the time at which its interval ends |
| TimerHeap.Timer.MaxTimeout | src-shaco/shaco_timer.c:130-143 | the time until the first node is due, 0 if it is, -1 if there is none |
| TimerHeap.RegisterAndRun | src-shaco/shaco_timer.c:131-172 | a timer is registered and triggers follow, with others registered and fired in between: the first trigger at or past registration time plus interval fires exactly one node for it, and no other trigger fires any |
| TimerHeap.FiredAreDue | src-shaco/shaco_timer.c:146-160 | a trigger fires every due node as often as there is one, and no other |
| TimerHeap.FiredWereDue | src-shaco/shaco_timer.c:146-172 | where callbacks register only intervals of at least 1 that do not wrap around, exactly the nodes due at entry are fired, so that the trigger ends after so many rounds |
| KeyExchange.MulModP | src-l/lcrypt.c:636-655 | the product modulo P, though no sum leaves 64 bits |
| KeyExchange.PIs | src-l/lcrypt.c:632-634 | P is 59 less than 2 to the power of 64 |
| KeyExchange.ReturnsExactly | src-l/lcrypt.c:658-669 | the recursion of pow_mod_p comes to an end exactly for exponents other than 0 |
| KeyExchange.PowModp | src-l/lcrypt.c:658-676 | for every base and exponent: it returns exactly if the stack is deep enough for the halvings of the exponent, for 63 calls exactly if that is not 0; the result is the power modulo P exactly unless the base is P and the exponent 1 |
| KeyExchange.KeysAgree | src-l/lcrypt.c:672-676 | for exponents other than 0 both sides of the exchange come to the same key |
| Sha1.Transform | src-l/lsha1.c:122-171 | the rounds with rotating variables over a ring of sixteen words are those of section 6.1.2 of FIPS 180-4 with eighty |
| Sha1Example.AbcDigest | src-l/lsha1.c:76-78 | the specification gives the digest of "abc" that FIPS 180-1 lists |
| Sha1Example.KIsRoot | src-l/lsha1.c:122-171 | the round constants are the square roots of 2, 3, 5 and 10 times 2^30, rounded down |
| Sha1Stream.CountExact | src-l/lsha1.c:197-198 | the count of bits is right exactly for updates below 2^29 bytes, and where there is a carry indeed |
| Sha1Stream.StillCounted | src-l/lsha1.c:197-198 | a right count stays right exactly under that condition |
| Sha1Stream.Context.Update | src-l/lsha1.c:188-213 | for updates of any length whole blocks of all the data so far are hashed, the rest waits in the buffer, and the count of bits is that of the two words of the code |
| Sha1Stream.Context.Final | src-l/lsha1.c:217-242 | the padding loop terminates; the digest is that of the data padded as in section 5.1.1 of FIPS 180-4 with the count in the place of the length, which is the hash of the data if the count is right; the state is wiped |
| Sha1Stream.HashPieces | src-l/lsha1.c:188-242 | however a message is cut into updates, the digest is that of the whole, padded with the count that the updates leave |
| Sha1Stream.ShortCounted | src-l/lsha1.c:188-242 | after updates of less than 2^29 bytes each that count is right |

## Findings

Cases in which the code does not do what it promises. Each has a lemma with an input, or with the family of inputs, and
but for the walk of verify an exact condition.

- Lua, `lgc.c:790-838` with `1048-1101`: udata2finalize takes an object off 'tobefnz' without looking at the sweep
  cursor. If a finalizer is called while the cursor stands at that object (`GCSswptobefnz`), the objects behind it are
  not swept in this cycle and stay black; one that its finalizer saves keeps that colour into the next cycle, and what
  only it holds is freed. `LuaUnsafe.EarlyFinalizerBreaksSafety` is a run from a new state with userdata that have
  finalizers, `LuaExactPop.BadPopExact` the condition for two objects. The run sweeps one object at a time; with the
  batch size of the code more userdata are needed, by an estimate that is not proved some 4096.
- Lua, `lgc.c:451-471` with `lapi.c:845-876`: an all-weak table that has been traversed is gray on 'allweak', so the
  barrier of a new metatable does nothing, and 'allweak' is not traversed again: the metatable is freed under the
  table. `LuaUnsafe.WeakMetatableBreaksSafety` is a run, `LuaExact.BadMetaExact` the condition.
- LPeg, `lpeg.c:1329`: isany does not look at the offset, so an optional 'any' is taken for a plain one in a
  concatenation (`LpegFlaws.OptionalAnyIsLost`, `LpegCorrect.ConcatGood` and `ConcatBreaks`).
- LPeg, `lpeg.c:1553-1567`: separateparts puts back a choice with the distance 1, also where the check consumes more
  (`LpegFlaws.WrongDistance`, `LpegSplit.ReopenedExact`, `LpegSplit.BadUnionExact`).
- LPeg, `lpeg.c:656-782`: verify does not see that a test may stand in front of an and-predicate, and accepts loop
  bodies that match the empty string (`LpegFlaws.HoistedPredicateLoops`, `LpegFlaws.UnseenAlternativeLoops`).
- Messages, `shaco_msg_dispatcher.c:68-80`: the saved tail goes stale when the ring doubles while the entry batch wraps
  around (`MessageRing.Ring.Dispatch`, `MessageRing.SixMessagesOvertake`).
- Harbor, `mod_harbor.c:160-178` with `117-134`: a message without payload is sent, and makes the receiver close the
  connection (`Harbor.DeliveredAre`).
- Deframer, `socket_buffer.c:138-150`: a length of 2^32 - 1 is taken for 'no header yet' and dropped, so that what is
  popped depends on how the stream is cut (`Deframer.CutMatters`, `Deframer.CutExact`).
- Key exchange, `lcrypt.c:658-676`: the base P is not reduced for the exponent 1 (`KeyExchange.PowModp`), and with the
  exponent 0 pow_mod_p calls itself for ever (`KeyExchange.ReturnsExactly`).
- SHA-1, `lsha1.c:197-198`: the comparison for the carry is wrong for most updates of 2^29 bytes and more
  (`Sha1Stream.CountExact`).

## Left out

- Lua: open upvalues shared between threads (remarkupvals and the 'touched' list), memory debt and its pacing, the
  choice of emergency mode, resizing of the string table, the cache of API strings, errors in finalizers,
  luaC_freeallobjects; the number of objects swept at a time is a parameter.
- LuaCycle.GarbageIsFreed: is about cycles whose marking is not given up by luaC_fullgc, and about objects that the
  program does not bring back through the string table.
- LuaFixpoint.MarksAreClosed: leaves out tables on 'allweak' that are all-weak no more: they are not traversed again in
  this cycle, as the manual says that a change of weakness may take effect only at the next one
  (3rd/lua/doc/manual.html:855-859).
- LuaExactPop.BadPopExact: is about two objects on 'tobefnz'; LuaFinalize.CallFinalizerGood covers any number.
- LPeg: captures, grammars, functions at match time, look-behind, printing, and the tables of Lua values of a pattern.
- LpegCompile.VerdictSound: goes one way, because what lies behind a blind spot may never match; the other half would
  need a test whether an expression matches anything at all, which is not attempted. `LpegAccept.AcceptsBody` goes the
  other way by the syntax.
- dtoa: the path in floating point that is tried first, the estimate of the exponent (its possible error of one is a
  parameter), the modes that look for the shortest digits (lua-cjson calls dtoa in mode 2 only, g_fmt.c:51), other
  rounding modes, the reuse of freed numbers.
- DtoaBigint.MultAdd: is about m and a that are not negative, as in all calls.
- DtoaShift.LShift: is about numbers with a word at least.
- Serializer: pairs of light userdata and length, the type of raw memory, and total lengths of 2 GB and more; the order
  of the pairs of a table is given. Where the C code passes a missing string on, the model reports the error of a
  malformed stream.
- Sockets: descriptors as operating-system objects, the events a socket subscribes to, sending descriptors, connecting
  and accepting; the data that a reader gets.
- Deframer.SocketBuffer.Pop: a negative length ends the model with an error, where the C code asks malloc for a negative
  size; a frame of length 0 is delivered when a byte follows it, as in the C code.
- Harbor: the table of nodes and its commands.
- MessageRing.Ring.Dispatch: handlers are given by the messages that each of their calls sends.
- Message and ring sizes are not bounded by the range of int.
