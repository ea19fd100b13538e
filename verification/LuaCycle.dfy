/** Whole cycles: garbage is freed before the next pause, and every cycle ends (lgc.c:1048-1112, 1163-1179). */
module LuaCycle {
  import opened LuaObjects
  import opened LuaMark
  import opened LuaTraverse
  import opened LuaAtomicStep
  import opened LuaSweep
  import opened LuaEvents
  import opened LuaInvariant
  import opened LuaSweepGood
  import opened LuaCollect
  import opened LuaMutator
  import opened LuaRun

  // ---------- The first state ----------

  /** lua_newstate: the main thread, and a collector at rest. */
  function Initial(main: Ref): State {
    State(Heap(map[main := Thread([])], map[]), map[main := White(false)], {}, [], [], [], [], [], [], [], [], [],
          Pause, false, NoCursor, main, main, Nil, [], main + 1)
  }

  lemma InitialFine(main: Ref)
    ensures Fine(Initial(main), {main})
  {
    var s := Initial(main);
    assert forall o, r :: !Refers(s.heap, o, r);
    assert multiset(s.heap.objs.Keys) == multiset{main} by { assert s.heap.objs.Keys == {main}; }
    assert AllObjects(s) == multiset{main};
    assert forall r :: IsRoot(s, r) <==> r == main;
    hide Refers, IsRoot;
    ClosedFollows(s.heap, {main});
    assert Frame(s);
    assert Sweeping(s, {main});
  }

  /** Every run of a program, with every interleaving of collector steps, from the state lua_newstate makes. */
  lemma ProgramsAreSafe(main: Ref, es: seq<Event>, r: Ref)
    requires AllowedRun(Initial(main), es) && Accessible(Final(Initial(main), es), r)
    ensures r in Final(Initial(main), es).heap.objs && !IsDead(Final(Initial(main), es), r)
  {
    InitialFine(main);
    NothingReachableIsFreed(Initial(main), es, {main}, r);
  }

  // ---------- Garbage is freed ----------

  /** The references a cycle starts from: the roots, and the objects with finalizers. */
  predicate IsStart(s: State, r: Ref) {
    IsRoot(s, r) || r in s.finobj
  }

  ghost predicate Reachable(s: State, r: Ref) {
    exists p :: IsPath(s.heap, p) && IsStart(s, p[0]) && p[|p| - 1] == r
  }

  ghost function ReachableSet(s: State): set<Ref> {
    set r | r in s.heap.objs && Reachable(s, r)
  }

  lemma ReachableNext(s: State, o: Ref, r: Ref)
    requires Reachable(s, o) && Refers(s.heap, o, r)
    ensures Reachable(s, r)
  {
    var p :| IsPath(s.heap, p) && IsStart(s, p[0]) && p[|p| - 1] == o;
    var q := p + [r];
    hide Refers;
    assert IsPath(s.heap, q) && q[0] == p[0];
  }

  lemma StartReachable(s: State, r: Ref)
    requires IsStart(s, r)
    ensures Reachable(s, r)
  {
    var p := [r];
    assert IsPath(s.heap, p) && p[0] == r;
  }

  /** In a pause the reachable objects surround the program's data. */
  lemma PauseReachable(s: State, M: set<Ref>)
    requires Good(s, M) && s.phase.Pause?
    ensures Fine(s, ReachableSet(s))
  {
    var K := ReachableSet(s);
    SweepParts(s, M);
    PauseClosed(s, M);
    hide Good, Refers, Reachable, IsRoot, Live, LiveClosed;
    forall o, r | o in K && Refers(s.heap, o, r) ensures r in K {
      ReachableNext(s, o, r);
    }
    ClosedFollows(s.heap, K);
    forall r | IsRoot(s, r) || r in s.finobj ensures r in K {
      StartReachable(s, r);
    }
    hide Frame, DeadAreOrdinary, RestIsWhite, DeadInTodo, CursorInPlace, Closed;
    assert Surrounds(s, K);
    SweepWhole(s, K);
  }

  lemma PauseClosed(s: State, M: set<Ref>)
    requires Good(s, M) && s.phase.Pause?
    ensures forall o, r :: o in s.heap.objs && Refers(s.heap, o, r) ==> r in s.heap.objs
    ensures forall r :: IsRoot(s, r) || r in s.finobj ==> r in s.heap.objs
  {
    SweepParts(s, M);
    ListedOnce(s);
    NoCursorNothing(s);
    hide Refers, IsRoot, Listed, NoDup, Todo;
    forall o, r | o in s.heap.objs && Refers(s.heap, o, r) ensures r in s.heap.objs {
      assert Live(s, o);
      assert Live(s, r);
    }
    assert forall r :: IsRoot(s, r) ==> Live(s, r);
  }

  /** No event of the run gives the marking up, or makes a new reference to r out of nothing. */
  ghost predicate Leaves(e: Event, r: Ref) {
    !e.Abandon? && !e.FixNewest? && e != FindString(r)
  }

  lemma {:induction false} FinalSetStays(M: set<Ref>, s: State, es: seq<Event>, r: Ref)
    requires AllowedRun(s, es) && r !in M && r < s.nextref && forall e :: e in es ==> Leaves(e, r)
    requires Fine(s, M)
    ensures r !in FinalSet(M, s, es)
    decreases |es|
  {
    hide Fine, Allowed, Apply;
    if es != [] {
      assert es[0] in es;
      FirstAllowed(s, es);
      EventFine(s, es[0], M);
      NextRefGrows(s, es[0], M);
      assert forall e :: e in es[1..] ==> e in es;
      FinalSetStays(Grown(M, s, es[0]), Apply(s, es[0]), es[1..], r);
    }
  }

  lemma CallFinWithin(s: State, M: set<Ref>, r: Ref)
    requires Good(s, M) && s.phase.CallFin? && r in s.heap.objs
    ensures r in M
  {
    PauseGood(s, M);
  }

  /** What cannot be reached when a cycle starts is freed before the next pause, whatever the program does meanwhile,
      if the marking is not given up and r is not a string that the program finds again. */
  lemma GarbageIsFreed(s: State, M: set<Ref>, es: seq<Event>, r: Ref)
    requires Good(s, M) && s.phase.Pause? && AllowedRun(s, es) && forall e :: e in es ==> Leaves(e, r)
    requires r in s.heap.objs && !Reachable(s, r)
    requires Final(s, es).phase.CallFin?
    ensures r !in Final(s, es).heap.objs
  {
    var K := ReachableSet(s);
    assert r !in K && r < s.nextref;
    hide Good, Reachable, Leaves, Allowed, Refers;
    PauseReachable(s, M);
    FinalSetStays(K, s, es, r);
    RunFine(s, es, K);
    if r in Final(s, es).heap.objs {
      CallFinWithin(Final(s, es), FinalSet(K, s, es), r);
    }
  }

  // ---------- Every cycle ends ----------

  function PhasesLeft(p: Phase): nat {
    match p
    case Propagate => 7
    case Atomic => 6
    case SweepAllGc => 5
    case SweepFinObj => 4
    case SweepToBeFnz => 3
    case SweepEnd => 2
    case CallFin => 1
    case Pause => 0
    case InsideAtomic => 0
  }

  /** What the phase has left to do: objects to mark or to traverse, objects to sweep, finalizers to call. */
  ghost function WorkLeft(s: State): nat {
    if s.phase.Propagate? then Work(s)
    else if InSweepLists(s) then |Todo(s, s.sweepgc)|
    else if s.phase.CallFin? then |s.tobefnz|
    else 0
  }

  ghost predicate Descends(s: State, t: State) {
    || PhasesLeft(t.phase) < PhasesLeft(s.phase)
    || (t.phase == s.phase && WorkLeft(t) < WorkLeft(s))
  }

  lemma StretchShrinks(s: State, p: Cursor, done: seq<Ref>, t: State, r: Cursor, l: ListName)
    requires Stretch(s, p, done, t, r, l) && done != []
    ensures |Todo(t.(sweepgc := r), r)| < |Todo(s, p)| && t.phase == s.phase
  {
    SameTodo(t, r);
    hide Todo, InList, Listed, Sweeps, Swept, Count;
    SweepPhase(s, p, done, t, r, l);
  }

  lemma SweepIs(s: State, max: nat)
    requires InSweepLists(s)
    ensures s.sweepgc == NoCursor ==> PhasesLeft(SingleStep(s, max, false).phase) < PhasesLeft(s.phase)
    ensures s.sweepgc != NoCursor ==>
              var (t, r) := SweepList(s, s.sweepgc, max);
              if r != NoCursor then SingleStep(s, max, false) == t.(sweepgc := r)
              else PhasesLeft(SingleStep(s, max, false).phase) < PhasesLeft(s.phase)
  {
    hide SweepList;
  }

  lemma SweepDescends(s: State, max: nat, M: set<Ref>)
    requires Good(s, M) && InSweepLists(s) && max > 0
    ensures Descends(s, SingleStep(s, max, false))
  {
    hide Good, Frame, Surrounds, LiveClosed, DeadAreOrdinary, RestIsWhite, DeadInTodo, OutsideDead, Listed,
      InList, ListSwept, CursorInPlace, SweepList, Todo, Sweeps, Swept, Count, Stretch, SingleStep, PhasesLeft;
    SweepIs(s, max);
    if s.sweepgc != NoCursor {
      SweepParts(s, M);
      var l := SweptList(s, M);
      SweptInList(s, l);
      var done := SweepListKeeps(s, s.sweepgc, l, max);
      var (t, r) := SweepList(s, s.sweepgc, max);
      if r != NoCursor {
        if done == [] {
          StretchNothing(s, s.sweepgc, t, r, l);
        }
        StretchShrinks(s, s.sweepgc, done, t, r, l);
      }
    }
  }

  lemma StretchNothing(s: State, p: Cursor, t: State, r: Cursor, l: ListName)
    requires Stretch(s, p, [], t, r, l)
    ensures Todo(t, r) == Todo(s, p)
  {
    hide Todo, InList, Listed, Sweeps, Swept, Count;
    assert [] + Todo(t, r) == Todo(t, r);
  }

  lemma SameTodo(t: State, r: Cursor)
    ensures Todo(t.(sweepgc := r), r) == Todo(t, r)
  {
  }

  lemma CallDescends(s: State)
    requires s.phase.CallFin? && s.tobefnz != []
    ensures CallFinalizer(s).phase == s.phase && |CallFinalizer(s).tobefnz| < |s.tobefnz|
  {
  }

  lemma PropagateDescends(s: State)
    requires s.phase.Propagate? && s.gray != []
    ensures Descends(s, SingleStep(s, 0, false))
  {
    var t := PropagateMark(s);
    hide PropagateMark, Whites, Todo;
    assert PropagateMark(s).phase.Propagate? by { PropagatePhase(s); }
    if t.gray != [] {
      assert SingleStep(s, 0, false) == t;
    }
  }

  lemma PropagatePhase(s: State)
    requires s.gray != []
    ensures PropagateMark(s).phase == s.phase
  {
  }

  lemma AtomicDescends(s: State, M: set<Ref>)
    requires Good(s, M) && s.phase.Atomic?
    ensures Descends(s, EnterSweep(AtomicStep(PropagateAll(s))))
  {
    hide Good, PropagateAll, AtomicStep, EnterSweep, WorkLeft;
    AtomicEnters(s, M);
  }

  lemma EnterSweepPhase(s: State, M: set<Ref>)
    requires Good(s.(phase := SweepAllGc, sweepgc := Head(AllGc)), M)
    ensures EnterSweep(s).phase.SweepAllGc?
  {
    var u := s.(phase := SweepAllGc);
    var p := Head(AllGc);
    assert u.(sweepgc := p) == s.(phase := SweepAllGc, sweepgc := p);
    SweepParts(u.(sweepgc := p), M);
    CursorFree(u, p, M);
    HeadInList(u);
    hide Good, Frame, Surrounds, LiveClosed, DeadAreOrdinary, RestIsWhite, DeadInTodo, OutsideDead, Listed, SweepToLive,
      Stretch, InList, CursorInPlace;
    var done := SweepToLiveKeeps(u, p, AllGc);
    StretchPlain(u, p, done, SweepToLive(u, p).0, SweepToLive(u, p).1, AllGc);
  }

  /** Each step of the collector brings the next pause nearer. */
  lemma StepDescends(s: State, max: nat, emergency: bool, M: set<Ref>)
    requires Fine(s, M) && !s.phase.Pause? && max > 0
    ensures Descends(s, SingleStep(s, max, emergency))
  {
    StepIs(s, max, emergency);
    assert !s.phase.InsideAtomic?;
    assert s.phase.Propagate? ==> s.gray != [] by { if s.phase.Propagate? { MarkingParts(s, M); } }
    hide Good, ClosedUnderRefs, SingleStep, PropagateMark, PropagateAll, AtomicStep, EnterSweep, CallFinalizer, Work, Todo,
      MakeWhite;
    match s.phase
    case Propagate => PropagateDescends(s);
    case Atomic => AtomicDescends(s, M);
    case SweepEnd =>
    case CallFin =>
      if s.tobefnz != [] && !emergency {
        CallDescends(s);
      }
    case _ => SweepDescends(s, max, M);
  }

  /** Steps of an idle program's collector until it pauses. */
  ghost predicate PausesAfter(s: State, max: nat, emergency: bool, n: nat)
    decreases n
  {
    if n == 0 then s.phase.Pause? else PausesAfter(SingleStep(s, max, emergency), max, emergency, n - 1)
  }

  /** With an idle program every cycle comes to its pause, in a number of steps that the measure bounds. */
  lemma {:induction false} CycleEnds(s: State, max: nat, emergency: bool, M: set<Ref>) returns (n: nat)
    requires Fine(s, M) && max > 0
    ensures PausesAfter(s, max, emergency, n)
    decreases PhasesLeft(s.phase), WorkLeft(s)
  {
    hide Fine, SingleStep, WorkLeft;
    if s.phase.Pause? {
      n := 0;
    } else {
      StepDescends(s, max, emergency, M);
      StepFine(s, max, emergency, M);
      n := CycleEnds(SingleStep(s, max, emergency), max, emergency, M);
      n := n + 1;
    }
  }

  // ---------- An idle program: exact collection ----------

  lemma StepIdle(s: State, max: nat, M: set<Ref>)
    requires Good(s, M) && !s.phase.Pause?
    ensures Good(SingleStep(s, max, true), M)
  {
    StepIs(s, max, true);
    assert !s.phase.InsideAtomic?;
    hide Good, SingleStep, PropagateMark, PropagateAll, AtomicStep, EnterSweep, CallFinalizer, Restart, MakeWhite;
    match s.phase
    case Propagate => PropagateGood(s, M);
    case Atomic => AtomicGood(s, M);
    case SweepEnd => SweepEndGood(s, M);
    case CallFin => PauseGood(s, M);
    case _ => SweepStepGood(s, max, M);
  }

  ghost function Steps(s: State, max: nat, n: nat): State
    decreases n
  {
    if n == 0 then s else SingleStep(Steps(s, max, n - 1), max, true)
  }

  /** With an idle program a cycle keeps nothing outside a set M that is closed under the references the collector
      follows: weak references keep nothing, and ephemeron entries keep their values only if their keys stay. */
  lemma {:induction false} CollectsExactly(s: State, max: nat, n: nat, M: set<Ref>, N: set<Ref>)
    requires Good(s, N) && s.phase.Pause? && Surrounds(s, M)
    requires forall i :: 0 < i <= n ==> !Steps(s, max, i).phase.Pause?
    ensures Good(Steps(s, max, n), M)
    ensures Steps(s, max, n).phase.CallFin? ==> forall r :: r in Steps(s, max, n).heap.objs ==> r in M
    decreases n
  {
    hide Surrounds, SingleStep;
    if n == 0 {
      PauseAnySet(s, M, N);
    } else {
      CollectsExactly(s, max, n - 1, M, N);
      var t := Steps(s, max, n - 1);
      if n == 1 {
        StepIs(s, max, true);
        RestartGood(s, M);
      } else {
        assert !Steps(s, max, n - 1).phase.Pause?;
        StepIdle(t, max, M);
      }
      if Steps(s, max, n).phase.CallFin? {
        PauseGood(Steps(s, max, n), M);
      }
    }
  }

  lemma PauseAnySet(s: State, M: set<Ref>, N: set<Ref>)
    requires Good(s, N) && s.phase.Pause? && Surrounds(s, M)
    ensures Good(s, M)
  {
    SweepParts(s, N);
    hide Frame, Surrounds, LiveClosed, DeadAreOrdinary, RestIsWhite, DeadInTodo, CursorInPlace, IsRoot, Live;
    SweepWhole(s, M);
  }

  // ---------- What a cycle starts from survives the sweeps before it ----------

  lemma SweepSurrounds(s: State, max: nat, N: set<Ref>, M: set<Ref>)
    requires Good(s, N) && InSweepLists(s) && Surrounds(s, M)
    ensures Surrounds(SingleStep(s, max, true), M) && !KeepInvariant(SingleStep(s, max, true))
  {
    hide Good, Frame, LiveClosed, DeadAreOrdinary, RestIsWhite, DeadInTodo, OutsideDead, Listed, Surrounds,
      InList, ListSwept, CursorInPlace, SweepList, Todo, Sweeps, Stretch, IsRoot;
    if s.sweepgc == NoCursor {
      PhaseSurrounds(s, SingleStep(s, max, true), M);
    } else {
      SweepParts(s, N);
      var l := SweptList(s, N);
      SweptInList(s, l);
      var done := SweepListKeeps(s, s.sweepgc, l, max);
      var (t, r) := SweepList(s, s.sweepgc, max);
      StretchSurrounds(s, s.sweepgc, done, t, r, l, M);
      StretchPlain(s, s.sweepgc, done, t, r, l);
      PhaseSurrounds(t, SingleStep(s, max, true), M);
    }
  }

  lemma PhaseSurrounds(s: State, t: State, M: set<Ref>)
    requires Surrounds(s, M) && t == s.(phase := t.phase, sweepgc := t.sweepgc, color := t.color)
    ensures Surrounds(t, M)
  {
    assert forall r :: IsRoot(t, r) == IsRoot(s, r);
    hide IsRoot, Closed;
  }

  /** Until the pause, steps that call no finalizer leave what surrounds the program's data. */
  lemma IdleSurrounds(s: State, max: nat, N: set<Ref>)
    requires Good(s, N) && !KeepInvariant(s) && !s.phase.Pause?
    ensures !KeepInvariant(SingleStep(s, max, true))
    ensures forall M :: Surrounds(s, M) ==> Surrounds(SingleStep(s, max, true), M)
  {
    StepIs(s, max, true);
    assert !s.phase.InsideAtomic?;
    hide Good, Surrounds, SingleStep;
    if InSweepLists(s) {
      SweepLeavesMarking(s, max);
    }
    forall M | Surrounds(s, M) ensures Surrounds(SingleStep(s, max, true), M) {
      if InSweepLists(s) {
        SweepSurrounds(s, max, N, M);
      } else {
        PhaseSurrounds(s, SingleStep(s, max, true), M);
      }
    }
  }

  lemma SweepLeavesMarking(s: State, max: nat)
    requires InSweepLists(s) && !KeepInvariant(s)
    ensures PhasesLeft(SingleStep(s, max, true).phase) <= 5 && !SingleStep(s, max, true).phase.Pause?
    ensures !KeepInvariant(SingleStep(s, max, true))
  {
    SweepListPhase(s, s.sweepgc, max);
    hide SweepList;
  }

  lemma SweepOnePhase(s: State, p: Cursor)
    requires Todo(s, p) != []
    ensures SweepOne(s, p).0.phase == s.phase
  {
    hide IndexOf;
  }

  lemma {:induction false} SweepListPhase(s: State, p: Cursor, count: nat)
    ensures SweepList(s, p, count).0.phase == s.phase
    decreases count
  {
    hide Todo, SweepOne;
    if Todo(s, p) != [] && count > 0 {
      SweepOnePhase(s, p);
      SweepListPhase(SweepOne(s, p).0, SweepOne(s, p).1, count - 1);
    }
  }

  lemma AbandonSurrounds(s: State, N: set<Ref>, M: set<Ref>)
    requires Fine(s, N) && KeepInvariant(s) && Surrounds(s, M)
    ensures Surrounds(AbandonMarking(s), M)
  {
    var u := s.(phase := SweepAllGc);
    var p := Head(AllGc);
    var K := N + s.heap.objs.Keys;
    WidenGood(s, N);
    AbandonFlips(s, K);
    assert u.(sweepgc := p) == s.(phase := SweepAllGc, sweepgc := p);
    hide Good, Frame, LiveClosed, DeadAreOrdinary, RestIsWhite, DeadInTodo, OutsideDead, Listed, Surrounds, SweepToLive,
      Stretch, InList, CursorInPlace, IsRoot, ClosedUnderRefs;
    SweepParts(u.(sweepgc := p), K);
    CursorFree(u, p, K);
    HeadInList(u);
    PhaseSurrounds(s, u, M);
    var done := SweepToLiveKeeps(u, p, AllGc);
    var (t, r) := SweepToLive(u, p);
    StretchSurrounds(u, p, done, t, r, AllGc, M);
    PhaseSurrounds(t, AbandonMarking(s), M);
  }

  /** Only the last phase is followed by the pause. */
  lemma StepNotPause(s: State, max: nat, emergency: bool, N: set<Ref>)
    requires Good(s, N) && !s.phase.Pause? && !s.phase.CallFin?
    ensures !SingleStep(s, max, emergency).phase.Pause?
  {
    StepIs(s, max, emergency);
    assert !s.phase.InsideAtomic?;
    if InSweepLists(s) {
      StepIs(s, max, true);
      SweepLeavesMarking(s, max);
    } else if s.phase.Atomic? {
      hide Good, SingleStep, EnterSweep, AtomicStep, PropagateAll;
      AtomicEnters(s, N);
    } else if s.phase.Propagate? {
      if s.gray != [] { PropagatePhase(s); }
      hide Good, PropagateMark;
    }
  }

  lemma AtomicEnters(s: State, M: set<Ref>)
    requires Good(s, M) && s.phase.Atomic?
    ensures EnterSweep(AtomicStep(PropagateAll(s))).phase.SweepAllGc?
  {
    hide Good, Frame, Surrounds, AllMarked, PropagateAll, AtomicMark, AtomicClear, EnterSweep, Rises;
    var t := AtomicClear(AtomicMark(PropagateAll(s)));
    AtomicClears(s, M);
    FlipGood(t, M);
    var u := AtomicStep(PropagateAll(s));
    assert Flipped(t) == u.(phase := SweepAllGc, sweepgc := Head(AllGc));
    EnterSweepPhase(u, M);
  }
}
