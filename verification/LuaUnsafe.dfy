/** Runs from the state that lua_newstate makes to the two cases the code leaves open, and on to an object that the
    program reaches and the collector has freed. */
module LuaUnsafe {
  import opened LuaObjects
  import opened LuaMark
  import opened LuaTraverse
  import opened LuaPropagate
  import opened LuaAtomic
  import opened LuaAtomicStep
  import opened LuaSweep
  import opened LuaEvents
  import opened LuaInvariant
  import opened LuaMutator
  import opened LuaFinalize
  import opened LuaRun
  import opened LuaCycle
  import opened LuaExact
  import opened LuaExactPop

  // ---------- Runs ----------

  /** What a program can do, safe or not. */
  ghost predicate Can(s: State, e: Event) {
    Enabled(s, e) && OperandsReached(s, e)
  }

  ghost predicate CanRun(s: State, es: seq<Event>)
    decreases |es|
  {
    es == [] || (Can(s, es[0]) && CanRun(Apply(s, es[0]), es[1..]))
  }

  ghost function After(s: State, es: seq<Event>): State
    requires CanRun(s, es)
    decreases |es|
  {
    if es == [] then s else After(Apply(s, es[0]), es[1..])
  }

  ghost predicate CanReach(s: State, t: State) {
    exists es :: CanRun(s, es) && After(s, es) == t
  }

  /** A run of events that the code makes safe. */
  ghost predicate SafelyReaches(s: State, t: State) {
    exists es :: AllowedRun(s, es) && Final(s, es) == t
  }

  lemma {:induction false} SafeOneMore(s: State, es: seq<Event>, e: Event)
    requires AllowedRun(s, es) && Allowed(Final(s, es), e)
    ensures AllowedRun(s, es + [e]) && Final(s, es + [e]) == Apply(Final(s, es), e)
    decreases |es|
  {
    hide Allowed, Apply, Enabled;
    if es == [] {
      assert [e][1..] == [];
    } else {
      FirstAllowed(s, es);
      SafeOneMore(Apply(s, es[0]), es[1..], e);
      assert (es + [e])[1..] == es[1..] + [e];
    }
  }

  lemma SafeNext(s: State, t: State, e: Event)
    requires SafelyReaches(s, t) && Allowed(t, e)
    ensures Enabled(t, e) && SafelyReaches(s, Apply(t, e))
  {
    var es :| AllowedRun(s, es) && Final(s, es) == t;
    assert Enabled(t, e);
    hide Allowed, Apply, Enabled;
    SafeOneMore(s, es, e);
  }

  lemma SafeStart(s: State)
    ensures SafelyReaches(s, s)
  {
    assert AllowedRun(s, []) && Final(s, []) == s;
  }

  lemma {:induction false} CanOneMore(s: State, es: seq<Event>, e: Event)
    requires CanRun(s, es) && Can(After(s, es), e)
    ensures CanRun(s, es + [e]) && After(s, es + [e]) == Apply(After(s, es), e)
    decreases |es|
  {
    hide OperandsReached, Apply, Enabled;
    if es == [] {
      assert [e][1..] == [];
    } else {
      CanOneMore(Apply(s, es[0]), es[1..], e);
      assert (es + [e])[1..] == es[1..] + [e];
    }
  }

  lemma CanNext(s: State, t: State, e: Event)
    requires CanReach(s, t) && Can(t, e)
    ensures Enabled(t, e) && CanReach(s, Apply(t, e))
  {
    var es :| CanRun(s, es) && After(s, es) == t;
    assert Enabled(t, e);
    hide Can, Apply, Enabled;
    CanOneMore(s, es, e);
  }

  lemma CanStart(s: State)
    ensures CanReach(s, s)
  {
    assert CanRun(s, []) && After(s, []) == s;
  }

  lemma {:induction false} IdleReach(s: State, t: State, max: nat, n: nat)
    requires CanReach(s, t)
    ensures CanReach(s, Idle(t, max, n))
    decreases n
  {
    hide SingleStep, CanReach;
    if n > 0 {
      assert Can(t, Step(max, true)) && Apply(t, Step(max, true)) == SingleStep(t, max, true);
      CanNext(s, t, Step(max, true));
      IdleReach(s, SingleStep(t, max, true), max, n - 1);
    }
  }

  lemma {:induction false} SafeIsFine(s: State, M: set<Ref>, t: State) returns (N: set<Ref>)
    requires Fine(s, M) && SafelyReaches(s, t)
    ensures Fine(t, N)
  {
    var es :| AllowedRun(s, es) && Final(s, es) == t;
    hide Fine;
    RunFine(s, es, M);
    N := FinalSet(M, s, es);
  }

  // ---------- What is on the stack, and what is fixed ----------

  lemma OnStack(s: State, r: Ref)
    requires IsThread(s, s.mainthread) && Obj(r) in s.heap.objs[s.mainthread].stack
    ensures Accessible(s, r)
  {
    var p := [s.mainthread, r];
    assert Refers(s.heap, s.mainthread, r);
    hide Refers;
    assert IsPath(s.heap, p) && IsProgramRoot(s, p[0]);
  }

  lemma IsFixed(s: State, r: Ref)
    requires r in s.fixedgc || r == s.mainthread
    ensures Accessible(s, r)
  {
    assert IsPath(s.heap, [r]) && IsProgramRoot(s, [r][0]);
  }

  /** The stack of the main thread gets these values, each of which it has had. */
  lemma StackAllowed(s: State, stack: seq<Value>)
    requires IsThread(s, s.mainthread)
    requires forall v :: v in stack && v.Obj? ==> v in s.heap.objs[s.mainthread].stack
    ensures Allowed(s, PutStack(s.mainthread, stack))
  {
    IsFixed(s, s.mainthread);
    forall v | v in stack ensures Reached(s, v) {
      if v.Obj? { OnStack(s, v.ref); }
    }
  }

  // ---------- The calls of the theorem are events ----------

  lemma CalledReach(s: State, t: State)
    requires CanReach(s, t) && t.tobefnz != [] && IsThread(t, t.running)
    ensures CanReach(s, Called(t))
  {
    var u := CallFinalizer(t);
    assert Can(t, RunFinalizer) && Apply(t, RunFinalizer) == u;
    CanNext(s, t, RunFinalizer);
    PopReach(s, u, t.running, t.heap.objs[t.running].stack, Obj(t.tobefnz[0]));
  }

  /** The thread that runs drops the topmost value. */
  lemma PopReach(s: State, u: State, thread: Ref, stack: seq<Value>, v: Value)
    requires CanReach(s, u) && u.running == thread && thread in u.heap.objs && u.heap.objs[thread] == Thread([v] + stack)
    ensures CanReach(s, SetObject(u, thread, Thread(stack)))
  {
    hide CanReach;
    var e := PutStack(thread, stack);
    RunningReached(u, thread);
    forall w | w in stack ensures Reached(u, w) {
      if w.Obj? { RunningHolds(u, thread, w.ref, v, stack); }
    }
    assert Can(u, e) && Apply(u, e) == SetObject(u, thread, Thread(stack));
    CanNext(s, u, e);
  }

  lemma RunningReached(u: State, thread: Ref)
    requires u.running == thread
    ensures Accessible(u, thread)
  {
    assert IsPath(u.heap, [thread]) && IsProgramRoot(u, [thread][0]);
  }

  lemma RunningHolds(u: State, thread: Ref, r: Ref, v: Value, stack: seq<Value>)
    requires u.running == thread && thread in u.heap.objs && u.heap.objs[thread] == Thread([v] + stack)
    requires Obj(r) in [v] + stack
    ensures Accessible(u, r)
  {
    RunningReached(u, thread);
    assert Refers(u.heap, thread, r);
    AccessibleNext(u, thread, r);
  }

  lemma SavingReach(s: State, t: State, cell: Cell)
    requires CanReach(s, t) && t.tobefnz != [] && IsThread(t, t.running) && t.phase.CallFin?
    ensures CanReach(s, CalledSaving(t, cell))
  {
    var x := t.tobefnz[0];
    var u := CallFinalizer(t);
    var stack := t.heap.objs[t.running].stack;
    assert Can(t, RunFinalizer) && Apply(t, RunFinalizer) == u;
    CanNext(s, t, RunFinalizer);
    RunningHolds(u, t.running, x, Obj(x), stack);
    var e := PutCell(cell, Obj(x));
    assert Can(u, e) && Apply(u, e) == StoreCell(u, cell, Obj(x));
    CanNext(s, u, e);
    PopReach(s, StoreCell(u, cell, Obj(x)), t.running, stack, Obj(x));
  }

  /** The two calls, with steps of the collector after each. */
  lemma TwoCallsReach(s: State, cell: Cell, max: nat, n: nat, m: nat)
    requires s.tobefnz != [] && IsThread(s, s.running)
    requires IsThread(Idle(Called(s), max, n), Idle(Called(s), max, n).running)
    ensures CanReach(s, TwoCalls(s, cell, max, n, m))
  {
    var b := Idle(Called(s), max, n);
    hide Called, CalledSaving, Idle, CanReach;
    CanStart(s);
    CalledReach(s, s);
    IdleReach(s, Called(s), max, n);
    if b.phase.CallFin? && b.tobefnz != [] {
      SavingReach(s, b, cell);
      IdleReach(s, CalledSaving(b, cell), max, m);
    }
  }

  // ---------- A new metatable for a weak table that has been traversed ----------

  const MAIN: Ref := 0
  /** The strings "__mode" and "kv". */
  const MODE: Ref := 1
  const KV: Ref := 2
  /** A metatable with __mode = "kv", a table, and another metatable. */
  const OLD: Ref := 3
  const TABLE: Ref := 4
  const NEW: Ref := 5

  const MODES := Table(Strong, Nil, [], [Node(Obj(MODE), Obj(KV))])
  const EMPTY := Table(Strong, Nil, [], [])
  const WEAK := Table(AllWeak, Obj(OLD), [], [])
  const WHITE := White(false)

  /** The main thread, the strings and the first metatable. */
  function Begun(main: seq<Value>, table: Payload): map<Ref, Payload> {
    map[MAIN := Thread(main), MODE := Str, KV := Str, OLD := MODES, TABLE := table]
  }

  /** Before the cycle. */
  function Resting(heap: Heap, color: map<Ref, Color>, finalizable: set<Ref>, allgc: seq<Ref>, finobj: seq<Ref>,
    fixedgc: seq<Ref>, nextref: Ref): State
  {
    State(heap, color, finalizable, allgc, finobj, [], fixedgc, [], [], [], [], [], Pause, false, NoCursor, MAIN, MAIN, Nil,
          [], nextref)
  }

  const M1 := [Obj(MODE)]
  const M2 := [Obj(KV), Obj(MODE)]
  const M3 := [Obj(OLD), Obj(KV), Obj(MODE)]
  const M4 := [Obj(TABLE), Obj(OLD), Obj(KV), Obj(MODE)]

  function Colored(main: Color, first: Color, table: Color): map<Ref, Color> {
    map[MAIN := main, MODE := Gray, KV := WHITE, OLD := first, TABLE := table]
  }

  const META1 :=
    Resting(Heap(map[MAIN := Thread(M1), MODE := Str], map[]), map[MAIN := WHITE, MODE := WHITE], {}, [MODE], [], [], KV)
  const META2 :=
    Resting(Heap(map[MAIN := Thread(M1), MODE := Str], map[]), map[MAIN := WHITE, MODE := Gray], {}, [], [], [MODE], KV)
  const META3 :=
    Resting(Heap(map[MAIN := Thread(M2), MODE := Str, KV := Str], map[]), map[MAIN := WHITE, MODE := Gray, KV := WHITE], {},
            [KV], [], [MODE], OLD)
  const META4 :=
    Resting(Heap(map[MAIN := Thread(M3), MODE := Str, KV := Str, OLD := MODES], map[]),
            map[MAIN := WHITE, MODE := Gray, KV := WHITE, OLD := WHITE], {}, [OLD, KV], [], [MODE], TABLE)
  const META5 := Resting(Heap(Begun(M4, EMPTY), map[]), Colored(WHITE, WHITE, WHITE), {}, [TABLE, OLD, KV], [], [MODE], NEW)
  const META6 :=
    Resting(Heap(Begun(M4, Table(Strong, Obj(OLD), [], [])), map[]), Colored(WHITE, WHITE, WHITE), {}, [TABLE, OLD, KV], [],
            [MODE], NEW)
  const META7 :=
    Resting(Heap(Begun(M4, WEAK), map[]), Colored(WHITE, WHITE, WHITE), {}, [TABLE, OLD, KV], [], [MODE], NEW)
  const META8 :=
    Resting(Heap(Begun([Obj(TABLE)], WEAK), map[]), Colored(WHITE, WHITE, WHITE), {}, [TABLE, OLD, KV], [], [MODE], NEW)

  /** While objects are being marked. */
  function Propagating(objs: map<Ref, Payload>, color: map<Ref, Color>, allgc: seq<Ref>, gray: seq<Ref>, grayagain: seq<Ref>,
    allweak: seq<Ref>, nextref: Ref): State
  {
    State(Heap(objs, map[]), color, {}, allgc, [], [], [MODE], gray, grayagain, [], allweak, [], Propagate, false, NoCursor,
          MAIN, MAIN, Nil, [], nextref)
  }

  const META9 := Propagating(Begun([Obj(TABLE)], WEAK), Colored(Gray, WHITE, WHITE), [TABLE, OLD, KV], [MAIN], [], [], NEW)
  const META10 := Propagating(Begun([Obj(TABLE)], WEAK), Colored(Gray, WHITE, Gray), [TABLE, OLD, KV], [TABLE], [MAIN], [], NEW)
  const META11 :=
    Propagating(Begun([Obj(TABLE)], WEAK), Colored(Gray, Gray, Gray), [TABLE, OLD, KV], [OLD], [MAIN], [TABLE], NEW)
  const META12 :=
    Propagating(Begun([Obj(NEW), Obj(TABLE)], WEAK)[NEW := EMPTY], Colored(Gray, Gray, Gray)[NEW := WHITE],
                [NEW, TABLE, OLD, KV], [OLD], [MAIN], [TABLE], NEW + 1)

  /** New objects whose references are on the stack, or to fixed strings. */
  lemma NewAllowed(s: State, p: Payload)
    requires IsThread(s, s.mainthread) && ModeFits(p) && s.nextref !in s.heap.objs
    requires forall r :: Refers(NewObject(s, p).heap, s.nextref, r) ==>
               r in s.fixedgc || Obj(r) in s.heap.objs[s.mainthread].stack
    requires p.Table? ==> forall n: Node :: n in p.hash && n.key.Obj? ==> n.key.ref in s.fixedgc
    ensures Allowed(s, New(p))
  {
    hide Refers, NewObject;
    forall r | Refers(NewObject(s, p).heap, s.nextref, r) ensures Accessible(s, r) {
      if r in s.fixedgc { IsFixed(s, r); } else { OnStack(s, r); }
    }
    if p.Table? {
      forall n: Node | n in p.hash ensures Reached(s, n.key) {
        if n.key.Obj? { IsFixed(s, n.key.ref); }
      }
    }
  }

  /** A new object goes on the stack of the main thread, and is white. */
  lemma NewApplies(s: State, p: Payload, stack: seq<Value>)
    requires s.running == s.mainthread && s.mainthread in s.heap.objs && s.heap.objs[s.mainthread] == Thread(stack)
    requires s.nextref != s.mainthread && ModeFits(p)
    ensures var o := s.nextref;
            Apply(s, New(p)) == s.(
              heap := Heap(s.heap.objs[o := p][s.mainthread := Thread([Obj(o)] + stack)], s.heap.cells),
              color := s.color[o := White(s.white)], allgc := [o] + s.allgc, nextref := o + 1)
  {
  }

  /** One more object: the event is allowed, and leads to t. */
  lemma NewLeads(s: State, p: Payload, stack: seq<Value>, t: State)
    requires s.running == s.mainthread && s.mainthread in s.heap.objs && s.heap.objs[s.mainthread] == Thread(stack)
    requires s.nextref != s.mainthread && ModeFits(p) && s.nextref !in s.heap.objs
    requires forall r :: Refers(NewObject(s, p).heap, s.nextref, r) ==> r in s.fixedgc || Obj(r) in stack
    requires p.Table? ==> forall n: Node :: n in p.hash && n.key.Obj? ==> n.key.ref in s.fixedgc
    requires t == s.(heap := t.heap, color := t.color, allgc := [s.nextref] + s.allgc, nextref := s.nextref + 1)
    requires t.heap.cells == s.heap.cells && t.color == s.color[s.nextref := White(s.white)]
    requires t.heap.objs == s.heap.objs[s.nextref := p][s.mainthread := Thread([Obj(s.nextref)] + stack)]
    ensures Allowed(s, New(p)) && Apply(s, New(p)) == t
  {
    NewApplies(s, p, stack);
    NewAllowed(s, p);
  }

  lemma MetaBegins()
    ensures Allowed(Initial(MAIN), New(Str)) && Apply(Initial(MAIN), New(Str)) == META1
  {
    assert [Obj(MODE)] + [] == M1;
    NewLeads(Initial(MAIN), Str, [], META1);
  }

  lemma MetaFixes()
    ensures Allowed(META1, FixNewest) && Apply(META1, FixNewest) == META2
  {
  }

  lemma MetaString()
    ensures Allowed(META2, New(Str)) && Apply(META2, New(Str)) == META3
  {
    assert [Obj(KV)] + M1 == M2;
    NewLeads(META2, Str, M1, META3);
  }

  lemma MetaFirstTable()
    ensures Allowed(META3, New(MODES)) && Apply(META3, New(MODES)) == META4
  {
    assert M2[0] == Obj(KV) && [Obj(OLD)] + M2 == M3;
    NewLeads(META3, MODES, M2, META4);
  }

  lemma MetaSecondTable()
    ensures Allowed(META4, New(EMPTY)) && Apply(META4, New(EMPTY)) == META5
  {
    assert [Obj(TABLE)] + M3 == M4;
    NewLeads(META4, EMPTY, M3, META5);
  }

  lemma MetaWeakens()
    ensures var e := PutField(TABLE, Metatable, Obj(OLD)); Allowed(META5, e) && Apply(META5, e) == META6
  {
    var stack := [Obj(TABLE), Obj(OLD), Obj(KV), Obj(MODE)];
    assert stack[0] == Obj(TABLE) && stack[1] == Obj(OLD);
    OnStack(META5, TABLE);
    OnStack(META5, OLD);
    hide Accessible;
    assert META5.heap.objs[TABLE := Table(Strong, Obj(OLD), [], [])] == META6.heap.objs;
  }

  lemma MetaModes()
    ensures var e := PutMode(TABLE, AllWeak); Allowed(META6, e) && Apply(META6, e) == META7
  {
    hide Accessible, OperandsReached, Allowed;
    ModeLeads(META6, TABLE, AllWeak, [Obj(TABLE), Obj(OLD), Obj(KV), Obj(MODE)]);
    assert META6.heap.objs[TABLE := Table(AllWeak, Obj(OLD), [], [])] == META7.heap.objs;
  }

  lemma ModeLeads(s: State, o: Ref, mode: Mode, stack: seq<Value>)
    requires s.mainthread in s.heap.objs && s.heap.objs[s.mainthread] == Thread(stack)
    requires stack != [] && stack[0] == Obj(o) && HasTable(s, o) && s.heap.objs[o].metatable.Obj?
    ensures Allowed(s, PutMode(o, mode)) && Apply(s, PutMode(o, mode)) == ChangeMode(s, o, mode)
  {
    OnStack(s, o);
    hide Accessible;
  }

  lemma MetaPops()
    ensures var e := PutStack(MAIN, [Obj(TABLE)]); Allowed(META7, e) && Apply(META7, e) == META8
  {
    hide Accessible, Reached, OperandsReached, Allowed;
    assert [Obj(TABLE), Obj(OLD), Obj(KV), Obj(MODE)][0] == Obj(TABLE);
    StackAllowed(META7, [Obj(TABLE)]);
    assert META7.heap.objs[MAIN := Thread([Obj(TABLE)])] == META8.heap.objs;
  }

  lemma StepAllowed(s: State, max: nat)
    ensures Allowed(s, Step(max, false)) && Apply(s, Step(max, false)) == SingleStep(s, max, false)
  {
    hide SingleStep;
  }

  /** A cycle starts with the main thread alone. */
  lemma RestartsWith(s: State, main: Ref)
    requires s.mainthread == main && s.registry == Nil && s.basicmt == [] && s.tobefnz == [] && s.phase.Pause?
    requires s.gray == [] && s.grayagain == [] && s.weak == [] && s.allweak == [] && s.ephemeron == []
    requires IsWhite(s, main) && s.heap.objs[main].Thread?
    ensures SingleStep(s, 1, false) == s.(color := s.color[main := Gray], gray := [main], phase := Propagate)
  {
    var vs := [Obj(main), Nil];
    assert StartValues(s) == vs;
    assert Emptied(s) == s;
    var t := s.(color := s.color[main := Gray], gray := [main]);
    assert MarkValue(s, Obj(main)) == t;
    assert vs[1..] == [Nil] && [Nil][1..] == [];
    assert MarkValues(t, [Nil]) == t;
    assert MarkValues(s, vs) == t;
  }

  lemma ThreadPropagates(s: State, o: Ref, st: seq<Value>)
    requires s.gray == [o] && o in s.heap.objs && s.heap.objs[o] == Thread(st) && IsColor(s.color, o, Gray)
    ensures PropagateMark(s) == MarkValues(s.(gray := [], grayagain := [o] + s.grayagain), st)
  {
    PropagateIs(s);
    assert s.color[o := Black][o := Gray] == s.color;
    hide PropagateMark, MarkValues, Whites, Work;
    assert PopGray(s).(grayagain := [o] + s.grayagain, color := s.color) == s.(gray := [], grayagain := [o] + s.grayagain);
  }

  /** The stack holds one white object, which is queued. */
  lemma StackStep(s: State, main: Ref, o: Ref)
    requires s.phase.Propagate? && s.gray == [main] && s.grayagain == [] && main in s.heap.objs
    requires s.heap.objs[main] == Thread([Obj(o)]) && IsColor(s.color, main, Gray) && o != main
    requires IsWhite(s, o) && Traversable(s.heap.objs[o])
    ensures SingleStep(s, 1, false) == s.(color := s.color[o := Gray], gray := [o], grayagain := [main])
  {
    ThreadPropagates(s, main, [Obj(o)]);
    hide PropagateMark;
    var s1 := s.(gray := [], grayagain := [main]);
    assert [main] + [] == [main] && [Obj(o)][1..] == [];
    assert MarkValue(s1, Obj(o)) == s1.(color := s.color[o := Gray], gray := [o]);
    assert MarkValues(s1, [Obj(o)]) == MarkValues(MarkValue(s1, Obj(o)), []) == MarkValue(s1, Obj(o));
  }

  lemma MetaMarks()
    ensures SingleStep(META8, 1, false) == META9 && SingleStep(META9, 1, false) == META10
    ensures SingleStep(META10, 1, false) == META11
  {
    RestartsWith(META8, MAIN);
    StackStep(META9, MAIN, TABLE);
    MetaTraverses();
    hide SingleStep;
  }

  lemma MetaTraverses()
    ensures SingleStep(META10, 1, false) == META11
  {
    PropagateIs(META10);
    var s1 := PopGray(META10);
    assert s1 == META10.(gray := [], color := META10.color[TABLE := Black]);
    var s2 := MarkValue(s1, Obj(OLD));
    assert IsWhite(s1, OLD) && s1.heap.objs[OLD] == MODES;
    assert [OLD] + [] == [OLD];
    assert ReallyMark(s1, OLD) == s1.(color := s1.color[OLD := Gray], gray := [OLD]);
    assert s2.color[TABLE := Gray] == META11.color;
    assert TraverseTable(s1, TABLE) == META11;
  }

  lemma MetaRenews()
    ensures Allowed(META11, New(EMPTY)) && Apply(META11, New(EMPTY)) == META12
  {
    assert [Obj(NEW)] + [Obj(TABLE)] == [Obj(NEW), Obj(TABLE)];
    NewLeads(META11, EMPTY, [Obj(TABLE)], META12);
  }

  /** By safe events only. */
  lemma MetaReached()
    ensures SafelyReaches(Initial(MAIN), META12)
  {
    hide Allowed, Apply, SafelyReaches, SingleStep, Enabled;
    var s := Initial(MAIN);
    SafeStart(s);
    MetaBegins();
    SafeNext(s, s, New(Str));
    MetaFixes();
    SafeNext(s, META1, FixNewest);
    MetaString();
    SafeNext(s, META2, New(Str));
    MetaFirstTable();
    SafeNext(s, META3, New(MODES));
    MetaSecondTable();
    SafeNext(s, META4, New(EMPTY));
    MetaWeakens();
    SafeNext(s, META5, PutField(TABLE, Metatable, Obj(OLD)));
    MetaModes();
    SafeNext(s, META6, PutMode(TABLE, AllWeak));
    MetaPops();
    SafeNext(s, META7, PutStack(MAIN, [Obj(TABLE)]));
    MetaMarks();
    StepAllowed(META8, 1);
    SafeNext(s, META8, Step(1, false));
    StepAllowed(META9, 1);
    SafeNext(s, META9, Step(1, false));
    StepAllowed(META10, 1);
    SafeNext(s, META10, Step(1, false));
    MetaRenews();
    SafeNext(s, META11, New(EMPTY));
  }

  /** The program forgets the new metatable, but for the table. */
  const META_FORGOTTEN := SetObject(META12, MAIN, Thread([Obj(TABLE)]))

  lemma MetaForgets()
    ensures NobodyHolds(META_FORGOTTEN, NEW) && FastPath(META_FORGOTTEN, [MAIN, TABLE], TABLE)
  {
    var t := META_FORGOTTEN;
    ForgottenRefs();
    hide Refers;
    assert FastPath(t, [MAIN, TABLE], TABLE);
    assert RootValues(t) == [Obj(MAIN), Nil];
  }

  lemma ForgottenRefs()
    ensures Refers(META_FORGOTTEN.heap, MAIN, TABLE) && forall o :: !Refers(META_FORGOTTEN.heap, o, NEW)
    ensures META_FORGOTTEN.heap.objs[MAIN] == Thread([Obj(TABLE)])
  {
    var h := META_FORGOTTEN.heap;
    ForgottenHeap();
    hide InEntries, InCells;
    assert !InEntries([], NEW) && !InEntries([Node(Obj(MODE), Obj(KV))], NEW) by { NoEntries(); }
    assert [Obj(TABLE)][0] == Obj(TABLE);
    forall o ensures !Refers(h, o, NEW) {
      if o in h.objs { assert o in {MAIN, MODE, KV, OLD, TABLE, NEW}; }
    }
  }

  lemma NoEntries()
    ensures !InEntries([], NEW) && !InEntries([Node(Obj(MODE), Obj(KV))], NEW)
  {
  }

  lemma ForgottenHeap()
    ensures META_FORGOTTEN.heap.objs ==
            map[MAIN := Thread([Obj(TABLE)]), MODE := Str, KV := Str, OLD := MODES,
                TABLE := Table(AllWeak, Obj(OLD), [], []), NEW := EMPTY]
  {
  }

  lemma MetaStores()
    ensures var e := PutField(TABLE, Metatable, Obj(NEW));
            Can(META12, e) && Apply(META12, e) == StoreField(META12, TABLE, Metatable, Obj(NEW))
    ensures BadMeta(META12, TABLE, Metatable, Obj(NEW))
  {
    FieldCan(META12, TABLE, NEW, [Obj(NEW), Obj(TABLE)]);
    assert ValueIsWhite(META12, Obj(NEW));
    hide Can, Apply, StoreField;
  }

  lemma FieldCan(s: State, o: Ref, r: Ref, stack: seq<Value>)
    requires s.mainthread in s.heap.objs && s.heap.objs[s.mainthread] == Thread(stack)
    requires |stack| == 2 && stack[0] == Obj(r) && stack[1] == Obj(o) && HasTable(s, o)
    ensures var e := PutField(o, Metatable, Obj(r)); Can(s, e) && Apply(s, e) == StoreField(s, o, Metatable, Obj(r))
  {
    assert stack[0] in stack && stack[1] in stack;
    OnStack(s, o);
    OnStack(s, r);
    hide Accessible, StoreField;
  }

  lemma MetaStackKept()
    ensures Allowed(META12, PutStack(MAIN, [Obj(TABLE)]))
  {
    assert [Obj(NEW), Obj(TABLE)][1] == Obj(TABLE);
    StackAllowed(META12, [Obj(TABLE)]);
  }

  lemma MetaStored2()
    ensures var t := StoreField(META12, TABLE, Metatable, Obj(NEW));
            && Can(t, PutStack(MAIN, [Obj(TABLE)]))
            && Apply(t, PutStack(MAIN, [Obj(TABLE)])) == MetaStored(META12, TABLE, Obj(NEW), MAIN, [Obj(TABLE)])
  {
    var t := StoreField(META12, TABLE, Metatable, Obj(NEW));
    assert t.heap.objs[MAIN] == Thread([Obj(NEW), Obj(TABLE)]);
    assert [Obj(NEW), Obj(TABLE)][1] == Obj(TABLE);
    StackAllowed(t, [Obj(TABLE)]);
    hide Accessible, Reached, StoreField;
  }

  /** A weak table that has been traversed gets another metatable. From the state lua_newstate makes, safe events lead to
      the store; then the program drops its own reference to the metatable, and the collector's steps free it under the
      table. */
  lemma WeakMetatableBreaksSafety()
    ensures SafelyReaches(Initial(MAIN), META12) && BadMeta(META12, TABLE, Metatable, Obj(NEW))
    ensures exists t :: CanReach(META12, t) && ReachesFreed(t)
  {
    MetaReached();
    InitialFine(MAIN);
    var M := SafeIsFine(Initial(MAIN), {MAIN}, META12);
    MetaForgets();
    MetaStores();
    MetaStored2();
    var e, f := PutField(TABLE, Metatable, Obj(NEW)), PutStack(MAIN, [Obj(TABLE)]);
    var t := StoreField(META12, TABLE, Metatable, Obj(NEW));
    var u := MetaStored(META12, TABLE, Obj(NEW), MAIN, [Obj(TABLE)]);
    MetaGoesWrong(M);
    hide Fine, Can, Apply, SafelyReaches, CanReach, StoreField, MetaStored, Idle, Accessible, Enabled, BadMeta;
    CanStart(META12);
    CanNext(META12, META12, e);
    CanNext(META12, t, f);
    var n: nat, c: Ref :| Accessible(Idle(u, 1, n), c) && c !in Idle(u, 1, n).heap.objs;
    IdleReach(META12, u, 1, n);
    assert CanReach(META12, Idle(u, 1, n)) && ReachesFreed(Idle(u, 1, n));
  }

  lemma MetaGoesWrong(M: set<Ref>)
    requires Fine(META12, M)
    ensures GoesWrong(MetaStored(META12, TABLE, Obj(NEW), MAIN, [Obj(TABLE)]), 1)
  {
    MetaForgets();
    MetaStores();
    MetaStackKept();
    hide Fine, NobodyHolds, FastPath, Allowed, GoesWrong, BadMeta;
    BadMetaFrees(META12, M, TABLE, NEW, MAIN, [Obj(TABLE)], [MAIN, TABLE], 1);
  }

  // ---------- A finalizer is called while 'tobefnz' is being swept ----------

  /** The string "__gc"; the code of a closure, and the closure with its upvalue; a metatable whose __gc is the closure;
      an empty table; and two userdata with this metatable, the second of which holds the table. In lgc.c a sweep step
      takes GCSWEEPMAX objects, and the steps call 1, 2, 4, ... finalizers; here, as for a GCSWEEPMAX of 1, the sweep
      has come to the first of two objects when one finalizer is called. With a GCSWEEPMAX of 85 more objects have to
      wait; an estimate, which is not proved, is 4096 such userdata: 15 of them called before, then 8 times 6 sweep
      steps, and the 4080 objects they have swept called by then. */
  const GC: Ref := 1
  const CODE: Ref := 2
  const SAVER: Ref := 3
  const CLASS: Ref := 4
  const CHILD: Ref := 5
  const SECOND: Ref := 6
  const FIRST: Ref := 7
  const SAVED: Cell := 0

  const FINALIZES := Table(Strong, Nil, [], [Node(Obj(GC), Obj(SAVER))])

  /** The objects that have been made, up to the last one that is given. */
  function Made(n: nat, stack: seq<Value>): map<Ref, Payload> {
    if n == GC then map[MAIN := Thread(stack), GC := Str]
    else if n == CODE then map[MAIN := Thread(stack), GC := Str, CODE := Proto([])]
    else if n == SAVER then map[MAIN := Thread(stack), GC := Str, CODE := Proto([]), SAVER := LClosure(Obj(CODE), [SAVED])]
    else if n == CLASS then
      map[MAIN := Thread(stack), GC := Str, CODE := Proto([]), SAVER := LClosure(Obj(CODE), [SAVED]), CLASS := FINALIZES]
    else if n == CHILD then
      map[MAIN := Thread(stack), GC := Str, CODE := Proto([]), SAVER := LClosure(Obj(CODE), [SAVED]), CLASS := FINALIZES,
          CHILD := EMPTY]
    else if n == SECOND then
      map[MAIN := Thread(stack), GC := Str, CODE := Proto([]), SAVER := LClosure(Obj(CODE), [SAVED]), CLASS := FINALIZES,
          CHILD := EMPTY, SECOND := Userdata(Obj(CLASS), Obj(CHILD))]
    else
      map[MAIN := Thread(stack), GC := Str, CODE := Proto([]), SAVER := LClosure(Obj(CODE), [SAVED]), CLASS := FINALIZES,
          CHILD := EMPTY, SECOND := Userdata(Obj(CLASS), Obj(CHILD)), FIRST := Userdata(Obj(CLASS), Nil)]
  }

  function Unmarked(n: nat): map<Ref, Color> {
    if n == GC then map[MAIN := WHITE, GC := Gray]
    else if n == CODE then map[MAIN := WHITE, GC := Gray, CODE := WHITE]
    else if n == SAVER then map[MAIN := WHITE, GC := Gray, CODE := WHITE, SAVER := WHITE]
    else if n == CLASS then map[MAIN := WHITE, GC := Gray, CODE := WHITE, SAVER := WHITE, CLASS := WHITE]
    else if n == CHILD then map[MAIN := WHITE, GC := Gray, CODE := WHITE, SAVER := WHITE, CLASS := WHITE, CHILD := WHITE]
    else if n == SECOND then
      map[MAIN := WHITE, GC := Gray, CODE := WHITE, SAVER := WHITE, CLASS := WHITE, CHILD := WHITE, SECOND := WHITE]
    else
      map[MAIN := WHITE, GC := Gray, CODE := WHITE, SAVER := WHITE, CLASS := WHITE, CHILD := WHITE, SECOND := WHITE,
          FIRST := WHITE]
  }

  const S1 := [Obj(GC)]
  const S2 := [Obj(CODE), Obj(GC)]
  const S3 := [Obj(SAVER), Obj(CODE), Obj(GC)]
  const S4 := [Obj(CLASS), Obj(SAVER), Obj(CODE), Obj(GC)]
  const S5 := [Obj(CHILD), Obj(CLASS), Obj(SAVER), Obj(CODE), Obj(GC)]
  const S6 := [Obj(SECOND), Obj(CHILD), Obj(CLASS), Obj(SAVER), Obj(CODE), Obj(GC)]
  const S7 := [Obj(FIRST), Obj(SECOND), Obj(CHILD), Obj(CLASS), Obj(SAVER), Obj(CODE), Obj(GC)]
  const UP := map[SAVED := Nil]
  const REST := [CHILD, CLASS, SAVER, CODE]

  const POP1 := Resting(Heap(Made(GC, S1), map[]), map[MAIN := WHITE, GC := WHITE], {}, [GC], [], [], CODE)
  const POP2 := Resting(Heap(Made(GC, S1), map[]), Unmarked(GC), {}, [], [], [GC], CODE)
  const POP3 := Resting(Heap(Made(CODE, S2), map[]), Unmarked(CODE), {}, [CODE], [], [GC], SAVER)
  const POP4 := Resting(Heap(Made(CODE, S2), UP), Unmarked(CODE), {}, [CODE], [], [GC], SAVER)
  const POP5 := Resting(Heap(Made(SAVER, S3), UP), Unmarked(SAVER), {}, [SAVER, CODE], [], [GC], CLASS)
  const POP6 := Resting(Heap(Made(CLASS, S4), UP), Unmarked(CLASS), {}, [CLASS, SAVER, CODE], [], [GC], CHILD)
  const POP7 := Resting(Heap(Made(CHILD, S5), UP), Unmarked(CHILD), {}, REST, [], [GC], SECOND)
  const POP8 := Resting(Heap(Made(SECOND, S6), UP), Unmarked(SECOND), {}, [SECOND, CHILD, CLASS, SAVER, CODE], [], [GC], FIRST)
  const POP9 := Resting(Heap(Made(SECOND, S6), UP), Unmarked(SECOND), {SECOND}, REST, [SECOND], [GC], FIRST)
  const POP10 :=
    Resting(Heap(Made(FIRST, S7), UP), Unmarked(FIRST), {SECOND}, [FIRST, CHILD, CLASS, SAVER, CODE], [SECOND], [GC], FIRST + 1)
  const POP11 := Resting(Heap(Made(FIRST, S7), UP), Unmarked(FIRST), {SECOND, FIRST}, REST, [FIRST, SECOND], [GC], FIRST + 1)

  /** Nothing but the closure is left on the stack. */
  const POP_HEAP := Heap(Made(FIRST, [Obj(SAVER)]), UP)
  const POP12 := Resting(POP_HEAP, Unmarked(FIRST), {SECOND, FIRST}, REST, [FIRST, SECOND], [GC], FIRST + 1)

  lemma PopBegins()
    ensures Allowed(Initial(MAIN), New(Str)) && Apply(Initial(MAIN), New(Str)) == POP1
  {
    assert [Obj(GC)] + [] == S1;
    NewLeads(Initial(MAIN), Str, [], POP1);
  }

  lemma PopFixes()
    ensures Allowed(POP1, FixNewest) && Apply(POP1, FixNewest) == POP2
  {
  }

  lemma PopCode()
    ensures Allowed(POP2, New(Proto([]))) && Apply(POP2, New(Proto([]))) == POP3
  {
    assert [Obj(CODE)] + S1 == S2;
    NewLeads(POP2, Proto([]), S1, POP3);
  }

  lemma PopUpvalue()
    ensures Allowed(POP3, PutCell(SAVED, Nil)) && Apply(POP3, PutCell(SAVED, Nil)) == POP4
  {
  }

  lemma PopCloses()
    ensures var p := LClosure(Obj(CODE), [SAVED]); Allowed(POP4, New(p)) && Apply(POP4, New(p)) == POP5
  {
    assert S2[0] == Obj(CODE) && [Obj(SAVER)] + S2 == S3;
    NewLeads(POP4, LClosure(Obj(CODE), [SAVED]), S2, POP5);
  }

  lemma PopClass()
    ensures Allowed(POP5, New(FINALIZES)) && Apply(POP5, New(FINALIZES)) == POP6
  {
    assert S3[0] == Obj(SAVER) && [Obj(CLASS)] + S3 == S4;
    NewLeads(POP5, FINALIZES, S3, POP6);
  }

  lemma PopChild()
    ensures Allowed(POP6, New(EMPTY)) && Apply(POP6, New(EMPTY)) == POP7
  {
    assert [Obj(CHILD)] + S4 == S5;
    NewLeads(POP6, EMPTY, S4, POP7);
  }

  lemma PopSecond()
    ensures var p := Userdata(Obj(CLASS), Obj(CHILD)); Allowed(POP7, New(p)) && Apply(POP7, New(p)) == POP8
  {
    assert S5[0] == Obj(CHILD) && S5[1] == Obj(CLASS) && [Obj(SECOND)] + S5 == S6;
    NewLeads(POP7, Userdata(Obj(CLASS), Obj(CHILD)), S5, POP8);
  }

  lemma PopFirst()
    ensures var p := Userdata(Obj(CLASS), Nil); Allowed(POP9, New(p)) && Apply(POP9, New(p)) == POP10
  {
    assert S6[2] == Obj(CLASS) && [Obj(FIRST)] + S6 == S7;
    NewLeads(POP9, Userdata(Obj(CLASS), Nil), S6, POP10);
  }

  /** The newest object, on the stack, gets a finalizer in a pause. */
  lemma FinalizerLeads(s: State, o: Ref, rest: seq<Ref>, stack: seq<Value>, t: State)
    requires s.phase.Pause? && s.allgc == [o] + rest && o !in s.finalizable && o in s.heap.objs && s.heap.objs[o].Userdata?
    requires s.mainthread in s.heap.objs && s.heap.objs[s.mainthread] == Thread([Obj(o)] + stack)
    requires t == s.(allgc := rest, finobj := [o] + s.finobj, finalizable := s.finalizable + {o})
    ensures Allowed(s, GiveFinalizer(o)) && Apply(s, GiveFinalizer(o)) == t
  {
    hide Accessible, Without, SweepToLive, MakeWhite, CheckFinalizer;
    OnStack(s, o);
    FinalizerIs(s, o, rest);
  }

  lemma FinalizerIs(s: State, o: Ref, rest: seq<Ref>)
    requires s.phase.Pause? && s.allgc == [o] + rest && o !in s.finalizable
    ensures CheckFinalizer(s, o) == s.(allgc := rest, finobj := [o] + s.finobj, finalizable := s.finalizable + {o})
  {
    hide Without, SweepToLive, MakeWhite;
    FirstWithout(o, rest);
  }

  lemma FirstWithout(o: Ref, rest: seq<Ref>)
    ensures Without([o] + rest, o) == rest
  {
    assert ([o] + rest)[0] == o && ([o] + rest)[1..] == rest && ([o] + rest)[..0] == [];
    assert [] + rest == rest;
  }

  lemma PopFinalizers()
    ensures Allowed(POP8, GiveFinalizer(SECOND)) && Apply(POP8, GiveFinalizer(SECOND)) == POP9
    ensures Allowed(POP10, GiveFinalizer(FIRST)) && Apply(POP10, GiveFinalizer(FIRST)) == POP11
  {
    hide Apply, Allowed;
    assert {SECOND} + {FIRST} == {SECOND, FIRST} && {} + {SECOND} == {SECOND};
    assert [FIRST] + [SECOND] == [FIRST, SECOND] && [SECOND] + [] == [SECOND];
    assert [SECOND] + REST == POP8.allgc && [FIRST] + REST == POP10.allgc;
    assert [Obj(SECOND)] + S5 == S6 && [Obj(FIRST)] + S6 == S7;
    FinalizerLeads(POP8, SECOND, REST, S5, POP9);
    FinalizerLeads(POP10, FIRST, REST, S6, POP11);
  }

  lemma PopForgets()
    ensures Allowed(POP11, PutStack(MAIN, [Obj(SAVER)])) && Apply(POP11, PutStack(MAIN, [Obj(SAVER)])) == POP12
  {
    assert S7[4] == Obj(SAVER);
    StackAllowed(POP11, [Obj(SAVER)]);
    hide Accessible, Reached, OperandsReached, Allowed;
    assert Made(FIRST, S7)[MAIN := Thread([Obj(SAVER)])] == Made(FIRST, [Obj(SAVER)]);
  }

  // ---------- The cycle up to the sweep of 'tobefnz' ----------

  function Painted(code: Color, saver: Color, kind: Color, child: Color, second: Color, first: Color): map<Ref, Color> {
    map[MAIN := Gray, GC := Gray, CODE := code, SAVER := saver, CLASS := kind, CHILD := child, SECOND := second,
        FIRST := first]
  }

  function InCycle(color: map<Ref, Color>, finobj: seq<Ref>, tobefnz: seq<Ref>, gray: seq<Ref>, grayagain: seq<Ref>,
    phase: Phase): State
  {
    State(POP_HEAP, color, {SECOND, FIRST}, REST, finobj, tobefnz, [GC], gray, grayagain, [], [], [], phase, false, NoCursor,
          MAIN, MAIN, Nil, [], FIRST + 1)
  }

  const BOTH := [FIRST, SECOND]
  const POP13 := InCycle(Painted(WHITE, WHITE, WHITE, WHITE, WHITE, WHITE), BOTH, [], [MAIN], [], Propagate)
  const POP14 := InCycle(Painted(WHITE, Gray, WHITE, WHITE, WHITE, WHITE), BOTH, [], [SAVER], [MAIN], Propagate)
  const POP15 := InCycle(Painted(Gray, Black, WHITE, WHITE, WHITE, WHITE), BOTH, [], [CODE], [MAIN], Propagate)
  const POP16 := InCycle(Painted(Black, Black, WHITE, WHITE, WHITE, WHITE), BOTH, [], [], [MAIN], Atomic)
  // the atomic phase
  const POP17 := InCycle(Painted(Black, Black, WHITE, WHITE, WHITE, WHITE), BOTH, [], [], [MAIN, MAIN], InsideAtomic)
  const POP18 := InCycle(Painted(Black, Black, WHITE, WHITE, WHITE, WHITE), [], BOTH, [], [MAIN, MAIN], InsideAtomic)
  const POP19 := InCycle(Painted(Black, Black, Gray, WHITE, WHITE, Black), [], BOTH, [CLASS], [MAIN, MAIN], InsideAtomic)
  const POP20 := InCycle(Painted(Black, Black, Gray, Gray, Black, Black), [], BOTH, [CHILD, CLASS], [MAIN, MAIN], InsideAtomic)
  const POP21 := InCycle(Painted(Black, Black, Black, Black, Black, Black), [], BOTH, [], [MAIN, MAIN], InsideAtomic)

  const POP14_POPPED := InCycle(Painted(WHITE, Black, WHITE, WHITE, WHITE, WHITE), BOTH, [], [], [MAIN], Propagate)

  lemma PopMarksCode()
    ensures SingleStep(POP14, 1, false) == POP15
  {
    PropagateIs(POP14);
    var s1 := PopGray(POP14);
    assert s1 == POP14_POPPED;
    assert CellValues(s1.heap, [SAVED]) == [Nil] + CellValues(s1.heap, [SAVED][1..]) == [Nil];
    assert PlainValues(s1.heap, SAVER) == [Obj(CODE)] + [Nil];
    hide MarkValues, CellValues;
    PopMarksProto();
  }

  lemma PopMarksProto()
    ensures MarkValues(POP14_POPPED, [Obj(CODE)] + [Nil]) == POP15
  {
    var vs := [Obj(CODE)] + [Nil];
    assert [CODE] + [] == [CODE];
    assert IsWhite(POP14_POPPED, CODE) && ReallyMark(POP14_POPPED, CODE) == POP15;
    assert vs[0] == Obj(CODE) && vs[1..] == [Nil] && [Nil][1..] == [];
    assert MarkValues(POP15, [Nil]) == POP15;
  }

  lemma PopMarks()
    ensures SingleStep(POP12, 1, false) == POP13 && SingleStep(POP13, 1, false) == POP14
    ensures SingleStep(POP15, 1, false) == POP16
  {
    RestartsWith(POP12, MAIN);
    StackStep(POP13, MAIN, SAVER);
    PropagateIs(POP15);
    var s1 := PopGray(POP15);
    assert s1 == POP15.(gray := [], color := POP15.color[CODE := Black]);
    assert PlainValues(s1.heap, CODE) == [] && MarkValues(s1, []) == s1;
  }

  lemma PopAtomicMarks()
    ensures PropagateAll(POP16) == POP16 && AtomicMark(POP16) == POP17
  {
    var s0 := POP16.(phase := InsideAtomic);
    var vs := [Obj(MAIN), Nil];
    assert RootValues(POP16) == vs && vs[1..] == [Nil] && [Nil][1..] == [];
    assert MarkValue(s0, Obj(MAIN)) == s0 && MarkValues(s0, [Nil]) == s0;
    assert MarkValues(s0, vs) == s0 && PropagateAll(s0) == s0;
    PopRevisits();
    var s2 := s0.(gray := [MAIN]);
    assert PropagateAll(s2) == PropagateAll(POP17) == POP17;
    NothingConverges(POP17);
  }

  lemma PopRevisits()
    ensures PropagateMark(POP16.(phase := InsideAtomic, gray := [MAIN])) == POP17
  {
    var s := POP16.(phase := InsideAtomic, gray := [MAIN]);
    ThreadPropagates(s, MAIN, [Obj(SAVER)]);
    hide PropagateMark;
    assert [MAIN] + [MAIN] == [MAIN, MAIN];
    assert [Obj(SAVER)][1..] == [] && MarkValue(POP17, Obj(SAVER)) == POP17;
    assert MarkValues(POP17, [Obj(SAVER)]) == POP17;
  }

  lemma NothingConverges(s: State)
    requires s.ephemeron == []
    ensures Converge(s) == s
  {
    assert s.(ephemeron := []) == s;
    assert ConvergePass(s, []) == (s, false);
  }

  lemma PopSeparates()
    ensures SeparateToBeFnz(POP17) == POP18
  {
    var q := [FIRST, SECOND];
    assert q[1..] == [SECOND] && [SECOND][1..] == [];
    assert Keep(POP17, [SECOND], false) == [] && Keep(POP17, [SECOND], true) == [SECOND];
    assert Keep(POP17, q, false) == [] && Keep(POP17, q, true) == [FIRST] + [SECOND] == q;
    assert [] + q == q;
  }

  lemma PopMarksFirst()
    ensures MarkValue(POP18, Obj(FIRST)) == POP19
  {
    var s1 := POP18.(color := POP18.color[FIRST := Gray]);
    var s2 := s1.(color := s1.color[CLASS := Gray], gray := [CLASS]);
    assert IsWhite(s1, CLASS) && [CLASS] + [] == [CLASS] && ReallyMark(s1, CLASS) == s2;
    assert MarkValue(s1, Obj(CLASS)) == s2;
    var s3 := s2.(color := s2.color[FIRST := Black]);
    assert s3.color == POP19.color;
    assert MarkValue(s3, Nil) == s3;
    assert IsWhite(POP18, FIRST) && ReallyMark(POP18, FIRST) == s3;
  }

  lemma PopMarksSecond()
    ensures MarkValue(POP19, Obj(SECOND)) == POP20
  {
    var s1 := POP19.(color := POP19.color[SECOND := Gray]);
    assert MarkValue(s1, Obj(CLASS)) == s1;
    var s3 := s1.(color := s1.color[SECOND := Black]);
    assert s3.color == POP19.color[SECOND := Black];
    assert IsWhite(s3, CHILD) && [CHILD] + [CLASS] == [CHILD, CLASS] && ReallyMark(s3, CHILD) == POP20;
    assert MarkValue(s3, Obj(CHILD)) == POP20;
    assert IsWhite(POP19, SECOND) && ReallyMark(POP19, SECOND) == POP20;
  }

  lemma PopPropagatesChild()
    ensures PropagateMark(POP20) == POP20.(color := POP20.color[CHILD := Black], gray := [CLASS])
  {
    PropagateIs(POP20);
    var s1 := PopGray(POP20);
    assert [CHILD, CLASS][1..] == [CLASS];
    assert s1 == POP20.(color := POP20.color[CHILD := Black], gray := [CLASS]);
    assert MarkValue(s1, Nil) == s1 && MarkValues(s1, []) == s1;
    assert StrongEntries(s1, []) == Pass(s1, [], false, false, false);
    assert s1.heap.objs[CHILD := EMPTY] == s1.heap.objs;
    assert SetHash(s1, CHILD, []) == s1;
    assert TraverseStrongTable(s1, CHILD) == s1;
    assert TraverseTable(s1, CHILD) == s1;
  }

  lemma PopPropagatesClass(s: State)
    requires s == POP20.(color := POP20.color[CHILD := Black], gray := [CLASS])
    ensures PropagateMark(s) == POP21
  {
    PropagateIs(s);
    var s1 := PopGray(s);
    var n := Node(Obj(GC), Obj(SAVER));
    assert [CLASS][1..] == [] && s1 == POP21;
    assert MarkValue(s1, Nil) == s1 && MarkValues(s1, []) == s1;
    assert MarkValue(s1, Obj(GC)) == s1 && MarkValue(s1, Obj(SAVER)) == s1;
    assert [n][1..] == [] && StrongEntries(s1, []) == Pass(s1, [], false, false, false);
    assert StrongEntries(s1, [n]) == Pass(s1, [n], false, false, false);
    assert s1.heap.objs[CLASS := FINALIZES] == s1.heap.objs;
    assert SetHash(s1, CLASS, [n]) == s1;
    assert TraverseStrongTable(s1, CLASS) == s1;
    assert TraverseTable(s1, CLASS) == s1;
  }

  lemma PopResurrects()
    ensures Resurrect(POP18) == POP21
  {
    hide PropagateMark, MarkValue;
    var vs := [Obj(FIRST), Obj(SECOND)];
    assert ObjValues(POP18.tobefnz) == vs;
    assert vs[1..] == [Obj(SECOND)] && [Obj(SECOND)][1..] == [];
    PopMarksFirst();
    PopMarksSecond();
    assert MarkValues(POP18, vs) == MarkValues(POP19, [Obj(SECOND)]) == MarkValues(POP20, []) == POP20;
    PopPropagatesChild();
    var s := POP20.(color := POP20.color[CHILD := Black], gray := [CLASS]);
    PopPropagatesClass(s);
    assert PropagateAll(POP20) == PropagateAll(s) == PropagateAll(POP21) == POP21;
    NothingConverges(POP21);
  }

  lemma NoneCleared(s: State)
    ensures ClearBoth(s, [], [], false) == s && ClearBoth(s, [], [], true) == s && NewPart([], []) == []
  {
  }

  lemma PopClears()
    ensures AtomicClear(POP17) == POP21
  {
    hide ClearBoth, Resurrect, SeparateToBeFnz;
    NoneCleared(POP17);
    PopSeparates();
    PopResurrects();
    NoneCleared(POP21);
  }

  const NEXT := White(true)

  /** After the whites have been exchanged. */
  function InSweep(color: map<Ref, Color>, phase: Phase, cursor: Cursor): State {
    State(POP_HEAP, color, {SECOND, FIRST}, REST, [], BOTH, [GC], [], [MAIN, MAIN], [], [], [], phase, true, cursor,
          MAIN, MAIN, Nil, [], FIRST + 1)
  }

  const POP22 := InSweep(Painted(Black, Black, Black, NEXT, Black, Black), SweepAllGc, LuaObjects.After(CHILD))
  const POP23 := InSweep(Painted(Black, Black, NEXT, NEXT, Black, Black), SweepAllGc, LuaObjects.After(CLASS))
  const POP24 := InSweep(Painted(Black, NEXT, NEXT, NEXT, Black, Black), SweepAllGc, LuaObjects.After(SAVER))
  const POP25 := InSweep(Painted(NEXT, NEXT, NEXT, NEXT, Black, Black), SweepFinObj, Head(FinObj))
  const POP26 := InSweep(Painted(NEXT, NEXT, NEXT, NEXT, Black, Black), SweepToBeFnz, Head(ToBeFnz))
  const POP27 := InSweep(Painted(NEXT, NEXT, NEXT, NEXT, Black, NEXT), SweepToBeFnz, LuaObjects.After(FIRST))

  lemma PopEnters(v: State)
    requires v == POP21.(white := true, phase := SweepAllGc)
    ensures SweepToLive(v, Head(AllGc)) == (MakeWhite(v, CHILD), LuaObjects.After(CHILD))
  {
    var p := LuaObjects.After(CHILD);
    assert Todo(v, Head(AllGc)) == REST;
    var w := MakeWhite(v, CHILD);
    assert SweepOne(v, Head(AllGc)) == (w, p);
    assert PlaceOf(w, p) == At(AllGc, 1);
    assert Todo(w, p) == [CLASS, SAVER, CODE];
    assert SweepList(w, p, 0) == (w, p);
    assert SweepList(v, Head(AllGc), 1) == (w, p);
  }

  lemma PopFlips()
    ensures SingleStep(POP16, 1, false) == POP22
  {
    hide PropagateAll, AtomicMark, AtomicClear, SweepToLive;
    PopAtomicMarks();
    PopClears();
    var u := POP21.(white := true);
    assert AtomicStep(POP16) == u;
    hide AtomicStep;
    PopEnters(u.(phase := SweepAllGc));
    assert EnterSweep(u) == POP22;
  }

  /** A sweep step that takes one object, which is not dead. */
  lemma SweepsOne(s: State, o: Ref, rest: seq<Ref>, next: Phase, list: Cursor)
    requires s.sweepgc != NoCursor && Todo(s, s.sweepgc) == [o] + rest && !IsDead(s, o)
    requires Todo(MakeWhite(s, o), LuaObjects.After(o)) == rest
    ensures SweepStep(s, next, list, 1) ==
            if rest == [] then MakeWhite(s, o).(phase := next, sweepgc := list)
            else MakeWhite(s, o).(sweepgc := LuaObjects.After(o))
  {
    var p := s.sweepgc;
    var w := MakeWhite(s, o);
    assert Todo(s, p)[0] == o;
    assert SweepOne(s, p) == (w, LuaObjects.After(o));
    hide SweepOne, Todo, MakeWhite, PlaceOf;
    assert SweepList(w, LuaObjects.After(o), 0) == (w, if rest == [] then NoCursor else LuaObjects.After(o));
    assert SweepList(s, p, 1) == SweepList(w, LuaObjects.After(o), 0);
  }

  lemma PopSweeps()
    ensures SingleStep(POP22, 1, false) == POP23
  {
    assert PlaceOf(POP22, LuaObjects.After(CHILD)) == At(AllGc, 1) && REST[1..] == [CLASS] + [SAVER, CODE];
    assert PlaceOf(MakeWhite(POP22, CLASS), LuaObjects.After(CLASS)) == At(AllGc, 2) && REST[2..] == [SAVER, CODE];
    SweepsOne(POP22, CLASS, [SAVER, CODE], SweepFinObj, Head(FinObj));
    hide PlaceOf, Todo, SweepStep;
  }

  lemma PopSweepsSaver()
    ensures SingleStep(POP23, 1, false) == POP24
  {
    assert PlaceOf(POP23, LuaObjects.After(CLASS)) == At(AllGc, 2) && REST[2..] == [SAVER] + [CODE];
    assert PlaceOf(MakeWhite(POP23, SAVER), LuaObjects.After(SAVER)) == At(AllGc, 3) && REST[3..] == [CODE];
    SweepsOne(POP23, SAVER, [CODE], SweepFinObj, Head(FinObj));
    hide PlaceOf, Todo, SweepStep;
  }

  lemma PopSweepsOn()
    ensures SingleStep(POP24, 1, false) == POP25 && SingleStep(POP25, 1, false) == POP26
  {
    assert PlaceOf(POP24, LuaObjects.After(SAVER)) == At(AllGc, 3) && REST[3..] == [CODE] + [];
    assert PlaceOf(MakeWhite(POP24, CODE), LuaObjects.After(CODE)) == At(AllGc, 4) && REST[4..] == [];
    SweepsOne(POP24, CODE, [], SweepFinObj, Head(FinObj));
    assert Todo(POP25, Head(FinObj)) == [];
  }

  lemma PopSweepsFirst()
    ensures SingleStep(POP26, 1, false) == POP27
  {
    assert Todo(POP26, Head(ToBeFnz)) == BOTH == [FIRST] + [SECOND];
    assert PlaceOf(MakeWhite(POP26, FIRST), LuaObjects.After(FIRST)) == At(ToBeFnz, 1) && BOTH[1..] == [SECOND];
    SweepsOne(POP26, FIRST, [SECOND], SweepEnd, NoCursor);
  }

  lemma PopMade()
    ensures SafelyReaches(Initial(MAIN), POP12)
  {
    hide Allowed, Apply, SafelyReaches, SingleStep, Enabled;
    var s := Initial(MAIN);
    SafeStart(s);
    PopBegins();
    SafeNext(s, s, New(Str));
    PopFixes();
    SafeNext(s, POP1, FixNewest);
    PopCode();
    SafeNext(s, POP2, New(Proto([])));
    PopUpvalue();
    SafeNext(s, POP3, PutCell(SAVED, Nil));
    PopCloses();
    SafeNext(s, POP4, New(LClosure(Obj(CODE), [SAVED])));
    PopClass();
    SafeNext(s, POP5, New(FINALIZES));
    PopChild();
    SafeNext(s, POP6, New(EMPTY));
    PopSecond();
    SafeNext(s, POP7, New(Userdata(Obj(CLASS), Obj(CHILD))));
    PopFinalizers();
    SafeNext(s, POP8, GiveFinalizer(SECOND));
    PopFirst();
    SafeNext(s, POP9, New(Userdata(Obj(CLASS), Nil)));
    SafeNext(s, POP10, GiveFinalizer(FIRST));
    PopForgets();
    SafeNext(s, POP11, PutStack(MAIN, [Obj(SAVER)]));
  }

  lemma SafeStep(s: State, t: State, u: State)
    requires SafelyReaches(s, t) && SingleStep(t, 1, false) == u
    ensures SafelyReaches(s, u)
  {
    hide SafelyReaches, SingleStep;
    StepAllowed(t, 1);
    SafeNext(s, t, Step(1, false));
  }

  lemma PopReached()
    ensures SafelyReaches(Initial(MAIN), POP27)
  {
    hide SafelyReaches, SingleStep;
    var s := Initial(MAIN);
    PopMade();
    PopMarks();
    PopMarksCode();
    PopFlips();
    PopSweeps();
    PopSweepsSaver();
    PopSweepsOn();
    PopSweepsFirst();
    SafeStep(s, POP12, POP13);
    SafeStep(s, POP13, POP14);
    SafeStep(s, POP14, POP15);
    SafeStep(s, POP15, POP16);
    SafeStep(s, POP16, POP22);
    SafeStep(s, POP22, POP23);
    SafeStep(s, POP23, POP24);
    SafeStep(s, POP24, POP25);
    SafeStep(s, POP25, POP26);
    SafeStep(s, POP26, POP27);
  }

  lemma PopIsBad()
    ensures BadPop(POP27) && IsColor(POP27.color, SECOND, Black) && IsThread(POP27, POP27.running)
  {
    var rest := POP27.tobefnz[1..];
    assert rest == [SECOND] && rest[0] == SECOND;
    assert SECOND in rest && !Current(POP27, SECOND);
  }

  lemma PopCarries()
    ensures Carries(POP27, SECOND, CHILD, Obj(CLASS), SAVED, [MAIN, SAVER], SAVER)
  {
    var h := POP_HEAP;
    forall o | Refers(h, o, CHILD) ensures o == SECOND {
      assert o in {MAIN, GC, CODE, SAVER, CLASS, CHILD, SECOND, FIRST};
      assert !InCells(h.cells, [SAVED], CHILD);
    }
    assert RootValues(POP27) == [Obj(MAIN), Nil];
    assert [Obj(SAVER)][0] == Obj(SAVER) && Refers(h, MAIN, SAVER) && [SAVED][0] == SAVED;
    hide Refers;
    assert FastPath(POP27, [MAIN, SAVER], SAVER);
  }

  /** A finalizer is called while the sweep stands at its object, with another object behind it. From the state
      lua_newstate makes, safe events lead to the call; then the second finalizer saves its object, and the next cycle
      frees the table that this object holds. */
  lemma EarlyFinalizerBreaksSafety()
    ensures SafelyReaches(Initial(MAIN), POP27) && BadPop(POP27)
    ensures exists t :: CanReach(POP27, t) && ReachesFreed(t)
  {
    PopReached();
    InitialFine(MAIN);
    var M := SafeIsFine(Initial(MAIN), {MAIN}, POP27);
    PopIsBad();
    PopCarries();
    hide Fine, Carries, SafelyReaches, CanReach, BadPop, TwoCalls, ReachesFreed, Idle, Called;
    var n, m := BadPopFrees(POP27, M, SECOND, CHILD, Obj(CLASS), SAVED, [MAIN, SAVER], SAVER, 1);
    TwoCallsReach(POP27, SAVED, 1, n, m);
    assert CanReach(POP27, TwoCalls(POP27, SAVED, 1, n, m)) && ReachesFreed(TwoCalls(POP27, SAVED, 1, n, m));
  }
}
