/** Finalizers over whole runs: for which objects they are called, how often and in which order (lgc.c:790-921, 1095-1101;
    section 2.5.1 of the Lua 5.3 manual). */
module LuaFinalizers {
  import opened LuaObjects
  import opened LuaMark
  import opened LuaTraverse
  import opened LuaPropagate
  import opened LuaKeys
  import opened LuaAtomicStep
  import opened LuaSweep
  import opened LuaEvents
  import opened LuaInvariant
  import opened LuaSweepGood
  import opened LuaCollect
  import opened LuaFinalize
  import opened LuaRun
  import opened LuaCycle
  import opened LuaFixpoint
  import opened LuaEffects
  import opened LuaSeparate

  /** The event calls the finalizer of the first object on 'tobefnz'. */
  predicate CallsNext(s: State, e: Event) {
    s.tobefnz != [] && (e.RunFinalizer? || (e.Step? && s.phase.CallFin? && !e.emergency))
  }

  predicate Calls(s: State, e: Event, r: Ref) {
    CallsNext(s, e) && s.tobefnz[0] == r
  }

  /** The event is the atomic step. */
  predicate IsAtomic(s: State, e: Event) {
    e.Step? && s.phase.Atomic?
  }

  /** The object gets a finalizer that it does not have. */
  predicate Gives(s: State, e: Event, r: Ref) {
    e == GiveFinalizer(r) && r !in s.finobj && r !in s.tobefnz
  }

  /** How an event changes the two lists of objects with finalizers. */
  ghost predicate Queued(s: State, e: Event, t: State) {
    if CallsNext(s, e) then t.finobj == s.finobj && t.tobefnz == s.tobefnz[1..]
    else if IsAtomic(s, e) then Divides(s, t, MarkedSet(Converged(s)))
    else
      && t.tobefnz == s.tobefnz
      && t.finobj == if e.GiveFinalizer? && Gives(s, e, e.obj) then [e.obj] + s.finobj else s.finobj
  }

  // ---------- One event ----------

  lemma SweepOrdinary(s: State, M: set<Ref>)
    requires Good(s, M) && !KeepInvariant(s)
    ensures DeadAreOrdinary(s)
  {
    SweepParts(s, M);
  }

  lemma UnhookedSame(s: State, o: Ref, w: State)
    requires w == MakeWhite(s, o) && SameQueues(w, SweepToLive(w, w.sweepgc).0)
    ensures SameQueues(s, Unhooked(s, o))
  {
    hide SweepToLive;
  }

  lemma WhiteOrdinary(s: State, o: Ref)
    requires DeadAreOrdinary(s)
    ensures DeadAreOrdinary(MakeWhite(s, o))
  {
  }

  lemma UnhookedQueues(s: State, o: Ref, M: set<Ref>)
    requires Good(s, M)
    ensures SameQueues(s, Unhooked(s, o))
  {
    if IsSweepPhase(s) {
      SweepOrdinary(s, M);
      hide *;
      var w := MakeWhite(s, o);
      WhiteOrdinary(s, o);
      SweepToLiveQueues(w, w.sweepgc);
      UnhookedSame(s, o, w);
    } else {
      hide Good;
    }
  }

  lemma GiveMoves(s: State, t: State, o: Ref)
    requires SameQueues(s, t)
    ensures o !in s.finobj && o !in s.tobefnz ==> Queued(s, GiveFinalizer(o), ToFinObj(t, o))
    ensures o in s.finobj || o in s.tobefnz ==> Queued(s, GiveFinalizer(o), s)
    ensures ToFinObj(t, o).phase == s.phase
  {
    hide Without;
  }

  lemma GiveQueues(s: State, o: Ref, M: set<Ref>)
    requires Good(s, M)
    ensures Queued(s, GiveFinalizer(o), CheckFinalizer(s, o)) && CheckFinalizer(s, o).phase == s.phase
  {
    GoodOnce(s, M);
    UnhookedQueues(s, o, M);
    assert o in s.finalizable ==> CheckFinalizer(s, o) == s;
    assert o !in s.finalizable ==> CheckFinalizer(s, o) == ToFinObj(Unhooked(s, o), o) by {
      hide Good, SweepToLive, Without;
    }
    GiveMoves(s, Unhooked(s, o), o);
    hide *;
  }

  lemma CallQueues(s: State)
    requires s.tobefnz != []
    ensures Queued(s, RunFinalizer, CallFinalizer(s)) && CallFinalizer(s).phase == s.phase
  {
  }

  lemma MarkingOrdinary(s: State, M: set<Ref>)
    requires Good(s, M) && KeepInvariant(s)
    ensures DeadAreOrdinary(s)
  {
    MarkingParts(s, M);
    hide Frame, Surrounds, Inv;
  }

  lemma AbandonSame(s: State)
    requires KeepInvariant(s) ==> DeadAreOrdinary(s)
    ensures Queued(s, Abandon, AbandonMarking(s))
  {
    hide DeadAreOrdinary, EnterSweep;
    if KeepInvariant(s) { EnterSweepQueues(s); }
  }

  lemma AbandonQueues(s: State, M: set<Ref>)
    requires Good(s, M)
    ensures Queued(s, Abandon, AbandonMarking(s))
  {
    if KeepInvariant(s) {
      MarkingOrdinary(s, M);
    }
    hide Good;
    AbandonSame(s);
  }

  lemma PropagateQueues(s: State, M: set<Ref>)
    requires Good(s, M) && s.phase.Propagate?
    ensures SingleStep(s, 0, false).finobj == s.finobj && SingleStep(s, 0, false).tobefnz == s.tobefnz
  {
    MarkingParts(s, M);
    hide Good, Inv, Frame, Surrounds, Marks, KeysKnown, Traverses, PropagateMark;
    PropagateMarkKeeps(s, MARKING.(within := M));
    TraversesLists(s, PropagateMark(s));
  }

  lemma SweepStepQueues(s: State, next: Phase, list: Cursor, max: nat)
    requires DeadAreOrdinary(s)
    ensures SweepStep(s, next, list, max).finobj == s.finobj && SweepStep(s, next, list, max).tobefnz == s.tobefnz
  {
    SweepListQueues(s, s.sweepgc, max);
    hide SweepList, DeadAreOrdinary;
  }

  lemma SweepQueues(s: State, max: nat, M: set<Ref>)
    requires Good(s, M) && InSweepLists(s)
    ensures SingleStep(s, max, false).finobj == s.finobj && SingleStep(s, max, false).tobefnz == s.tobefnz
  {
    SweepOrdinary(s, M);
    hide Good, DeadAreOrdinary, SweepStep;
    forall next, list { SweepStepQueues(s, next, list, max); }
  }

  lemma RestartQueues(s: State)
    ensures Restart(s).finobj == s.finobj && Restart(s).tobefnz == s.tobefnz
  {
  }

  lemma SameQueued(s: State, e: Event, t: State)
    requires t.finobj == s.finobj && t.tobefnz == s.tobefnz && !CallsNext(s, e) && !IsAtomic(s, e) && !e.GiveFinalizer?
    ensures Queued(s, e, t)
  {
  }

  lemma StepQueues(s: State, max: nat, emergency: bool, M: set<Ref>)
    requires Good(s, M) && NoStringWaits(s)
    ensures Queued(s, Step(max, emergency), SingleStep(s, max, emergency))
  {
    StepIs(s, max, emergency);
    assert !s.phase.InsideAtomic?;
    hide Good, SingleStep, Restart, PropagateMark, AtomicStep, PropagateAll, EnterSweep, CallFinalizer, MakeWhite,
      NoStringWaits, Queued, Converged, MarkedSet, Divides;
    var e, t := Step(max, emergency), SingleStep(s, max, emergency);
    if s.phase.Atomic? {
      AtomicSeparates(s, max, emergency, M);
      AtomicQueued(s, e, t);
    } else if CallsNext(s, e) {
      CallQueues(s);
      CallQueued(s, e, t);
    } else {
      match s.phase {
        case Pause => RestartQueues(s);
        case Propagate => PropagateQueues(s, M);
        case SweepEnd => WhiteQueues(s);
        case CallFin =>
        case _ => SweepQueues(s, max, M);
      }
      SameQueued(s, e, t);
    }
  }

  lemma AtomicQueued(s: State, e: Event, t: State)
    requires IsAtomic(s, e) && Divides(s, t, MarkedSet(Converged(s)))
    ensures Queued(s, e, t)
  {
    hide Divides, MarkedSet, Converged;
  }

  lemma CallQueued(s: State, e: Event, t: State)
    requires CallsNext(s, e) && Queued(s, RunFinalizer, t)
    ensures Queued(s, e, t)
  {
  }

  lemma WhiteQueues(s: State)
    ensures var t := MakeWhite(s, s.mainthread); t.finobj == s.finobj && t.tobefnz == s.tobefnz
  {
  }

  // ---------- What has no finalizer gets none ----------

  /** No object that was there has become a string. */
  ghost predicate NoNewStrings(s: State, t: State) {
    forall r :: r in s.heap.objs && IsString(t.heap, r) ==> IsString(s.heap, r)
  }

  lemma RefsStrings(s: State, t: State)
    requires NoNewRefs(s.heap, t.heap)
    ensures NoNewStrings(s, t)
  {
    hide Refers;
  }

  lemma MutationStrings(s: State, e: Event, M: set<Ref>)
    requires Fine(s, M) && Enabled(s, e) && IsMutation(e)
    ensures NoNewStrings(s, Apply(s, e))
  {
    assert s.nextref !in s.heap.objs by { assert Frame(s); }
    MutationDoes(s, e, M);
    hide Fine, Apply, ListsAfter, RootsAfter;
    HeapStrings(s, e, Apply(s, e));
  }

  lemma HeapStrings(s: State, e: Event, t: State)
    requires HeapAfter(s, e, t.heap) && s.nextref !in s.heap.objs
    ensures NoNewStrings(s, t)
  {
    match e
    case PutField(o, f, v) =>
      assert FieldIs(s.heap.objs[o], t.heap.objs[o], f, v);
    case _ =>
  }

  lemma CallStrings(s: State)
    requires s.tobefnz != []
    ensures NoNewStrings(s, CallFinalizer(s))
  {
  }

  lemma SameHeapStrings(s: State, t: State)
    requires t.heap == s.heap
    ensures NoNewStrings(s, t)
  {
  }

  lemma StepStrings(s: State, max: nat, emergency: bool, M: set<Ref>)
    requires Fine(s, M)
    ensures NoNewStrings(s, SingleStep(s, max, emergency))
  {
    StepIs(s, max, emergency);
    assert !s.phase.InsideAtomic?;
    hide Good, ClosedUnderRefs, SingleStep, PropagateMark, PropagateAll, AtomicStep, EnterSweep, CallFinalizer, Restart,
      NoNewRefs, NoNewStrings;
    var t := SingleStep(s, max, emergency);
    match s.phase
    case Pause => SameHeapStrings(s, t);
    case Propagate =>
      PropagateRefs(s, M);
      RefsStrings(s, t);
    case Atomic =>
      AtomicRefs(s, M);
      RefsStrings(s, t);
    case SweepEnd => SameHeapStrings(s, t);
    case CallFin =>
      if s.tobefnz != [] && !emergency { CallStrings(s); } else { SameHeapStrings(s, t); }
    case _ =>
      SweepRefs(s, max, M);
      RefsStrings(s, t);
  }

  lemma GiveStrings(s: State, o: Ref, M: set<Ref>)
    requires Fine(s, M) && Allowed(s, GiveFinalizer(o))
    ensures NoNewStrings(s, CheckFinalizer(s, o)) && !IsString(s.heap, o)
  {
    hide Good, Frame, Accessible, Live, CheckFinalizer, ClosedUnderRefs, NoNewRefs, NoNewStrings;
    AccessibleHeld(s, M, o);
    FrameOf(s, M);
    WhereListed(s, o);
    FinalizerRefs(s, o, M);
    RefsStrings(s, CheckFinalizer(s, o));
  }

  lemma AbandonStrings(s: State, M: set<Ref>)
    requires Fine(s, M)
    ensures NoNewStrings(s, AbandonMarking(s))
  {
    hide Good, ClosedUnderRefs, NoNewRefs, NoNewStrings, EnterSweep;
    if KeepInvariant(s) {
      WidenGood(s, M);
      AbandonRefs(s, M + s.heap.objs.Keys);
      RefsStrings(s, AbandonMarking(s));
    } else {
      SameHeapStrings(s, s);
    }
  }

  lemma EventStrings(s: State, e: Event, M: set<Ref>)
    requires Fine(s, M) && Allowed(s, e)
    ensures NoNewStrings(s, Apply(s, e)) && (e.GiveFinalizer? ==> !IsString(s.heap, e.obj))
  {
    hide Fine, NoNewStrings, SingleStep, CheckFinalizer, CallFinalizer, AbandonMarking, Accessible;
    match e
    case GiveFinalizer(o) => GiveStrings(s, o, M);
    case Step(max, emergency) => StepStrings(s, max, emergency, M);
    case RunFinalizer => CallStrings(s);
    case Abandon => AbandonStrings(s, M);
    case _ => MutationStrings(s, e, M);
  }

  lemma QueuedMembers(s: State, e: Event, t: State, M: set<Ref>)
    requires Queued(s, e, t) && NoNewStrings(s, t) && NoStringWaits(s) && (e.GiveFinalizer? ==> !IsString(s.heap, e.obj))
    requires e.GiveFinalizer? ==> e.obj in s.heap.objs
    requires forall r :: r in s.finobj ==> r in s.heap.objs
    ensures NoStringWaits(t)
  {
    hide IsString, InOrderOf, NoDup, Converged, MarkedSet;
    assert forall r :: r in t.finobj ==> r in s.finobj || (e.GiveFinalizer? && r == e.obj);
  }

  lemma MutationQueues(s: State, e: Event, M: set<Ref>)
    requires Fine(s, M) && Enabled(s, e) && IsMutation(e)
    ensures Queued(s, e, Apply(s, e)) && Apply(s, e).phase == s.phase
  {
    hide Fine, Apply, HeapAfter;
    MutationDoes(s, e, M);
  }

  lemma ApplyIs(s: State, e: Event)
    requires Enabled(s, e)
    ensures e.GiveFinalizer? ==> Apply(s, e) == CheckFinalizer(s, e.obj)
    ensures e.Step? ==> Apply(s, e) == SingleStep(s, e.max, e.emergency)
    ensures e.RunFinalizer? ==> Apply(s, e) == CallFinalizer(s) && s.tobefnz != []
    ensures e.Abandon? ==> Apply(s, e) == AbandonMarking(s)
  {
    hide SingleStep, CheckFinalizer, CallFinalizer, AbandonMarking;
  }

  lemma EventLists(s: State, e: Event, M: set<Ref>)
    requires Fine(s, M) && Enabled(s, e) && NoStringWaits(s)
    ensures Queued(s, e, Apply(s, e)) && (!e.Step? && !e.Abandon? ==> Apply(s, e).phase == s.phase)
  {
    assert Good(s, M);
    ApplyIs(s, e);
    var mutation := IsMutation(e);
    assert mutation == (!e.GiveFinalizer? && !e.Step? && !e.RunFinalizer? && !e.Abandon?);
    hide *;
    if e.GiveFinalizer? {
      GiveQueues(s, e.obj, M);
    } else if e.Step? {
      StepQueues(s, e.max, e.emergency, M);
      assert e == Step(e.max, e.emergency);
    } else if e.RunFinalizer? {
      CallQueues(s);
    } else if e.Abandon? {
      AbandonQueues(s, M);
    } else {
      MutationQueues(s, e, M);
    }
  }

  /** No event lengthens the lists but the one that gives an object its finalizer; the atomic step divides them, and a
      call takes the first object off. */
  lemma EventQueues(s: State, e: Event, M: set<Ref>)
    requires Fine(s, M) && Allowed(s, e) && NoStringWaits(s)
    ensures Queued(s, e, Apply(s, e)) && NoStringWaits(Apply(s, e))
    ensures !e.Step? && !e.Abandon? ==> Apply(s, e).phase == s.phase
  {
    assert Good(s, M) && Enabled(s, e);
    GoodOnce(s, M);
    assert e.GiveFinalizer? ==> e.obj in s.heap.objs;
    EventLists(s, e, M);
    hide *;
    EventStrings(s, e, M);
    QueuedMembers(s, e, Apply(s, e), M);
  }

  // ---------- Runs ----------

  /** The state after the first n events of a run. */
  ghost function At(s: State, es: seq<Event>, n: nat): State
    requires AllowedRun(s, es) && n <= |es|
    decreases n
  {
    if n == 0 then s else At(Apply(s, es[0]), es[1..], n - 1)
  }

  lemma {:induction false} AtNext(s: State, es: seq<Event>, n: nat)
    requires AllowedRun(s, es) && n < |es|
    ensures Allowed(At(s, es, n), es[n]) && At(s, es, n + 1) == Apply(At(s, es, n), es[n])
    decreases n
  {
    hide Allowed, Apply;
    FirstAllowed(s, es);
    if n > 0 {
      AtNext(Apply(s, es[0]), es[1..], n - 1);
      assert es[1..][n - 1] == es[n];
    } else {
      assert At(Apply(s, es[0]), es[1..], 0) == Apply(s, es[0]);
    }
  }

  lemma AtStart(s: State, es: seq<Event>)
    requires AllowedRun(s, es)
    ensures At(s, es, 0) == s
  {
    hide AllowedRun;
  }

  /** What every state of a run from a new state is. */
  ghost predicate Sound(s: State) {
    NoStringWaits(s) && exists M :: Fine(s, M)
  }

  lemma SoundNext(s: State, e: Event)
    requires Sound(s) && Allowed(s, e)
    ensures Sound(Apply(s, e)) && Queued(s, e, Apply(s, e))
  {
    var M :| Fine(s, M);
    EventQueues(s, e, M);
    EventFine(s, e, M);
    hide *;
    SoundBy(Apply(s, e), Grown(M, s, e));
  }

  lemma SoundBy(s: State, M: set<Ref>)
    requires NoStringWaits(s) && Fine(s, M)
    ensures Sound(s)
  {
    hide Fine, NoStringWaits;
  }

  lemma InitialSound(main: Ref)
    ensures Sound(Initial(main))
  {
    InitialFine(main);
    SoundBy(Initial(main), {main});
  }

  lemma {:induction false} RunSound(s: State, es: seq<Event>, n: nat)
    requires Sound(s) && AllowedRun(s, es) && n <= |es|
    ensures Sound(At(s, es, n))
    decreases n
  {
    hide *;
    AtStart(s, es);
    if n > 0 {
      RunSound(s, es, n - 1);
      AtNext(s, es, n - 1);
      SoundNext(At(s, es, n - 1), es[n - 1]);
    }
  }

  /** One event of a run. */
  lemma RunQueues(s: State, es: seq<Event>, n: nat)
    requires Sound(s) && AllowedRun(s, es) && n < |es|
    ensures Queued(At(s, es, n), es[n], At(s, es, n + 1))
    ensures NoDup(At(s, es, n).finobj) && NoDup(At(s, es, n).tobefnz)
    ensures forall r :: r in At(s, es, n).finobj ==> r !in At(s, es, n).tobefnz
  {
    RunSound(s, es, n);
    AtNext(s, es, n);
    SoundNext(At(s, es, n), es[n]);
    SoundOnce(At(s, es, n));
    hide *;
  }

  lemma SoundOnce(s: State)
    requires Sound(s)
    ensures NoDup(s.finobj) && NoDup(s.tobefnz) && forall r :: r in s.finobj ==> r !in s.tobefnz
  {
    var M :| Fine(s, M);
    GoodOnce(s, M);
  }

  /** What is on 'tobefnz' has come there by an atomic step, and has stayed. */
  lemma {:induction false} Arrived(s: State, es: seq<Event>, k: nat, r: Ref) returns (j: nat)
    requires Sound(s) && AllowedRun(s, es) && k <= |es| && r !in s.tobefnz && r in At(s, es, k).tobefnz
    ensures j < k && IsAtomic(At(s, es, j), es[j])
    ensures r in At(s, es, j).finobj && r !in MarkedSet(Converged(At(s, es, j)))
    ensures forall i :: j < i <= k ==> r in At(s, es, i).tobefnz
    decreases k
  {
    hide *;
    AtStart(s, es);
    RunQueues(s, es, k - 1);
    if r in At(s, es, k - 1).tobefnz {
      j := Arrived(s, es, k - 1, r);
    } else {
      j := k - 1;
      ArrivedNow(At(s, es, j), es[j], At(s, es, k), r);
    }
  }

  lemma ArrivedNow(s: State, e: Event, t: State, r: Ref)
    requires Queued(s, e, t) && r !in s.tobefnz && r in t.tobefnz
    ensures IsAtomic(s, e) && r in s.finobj && r !in MarkedSet(Converged(s))
  {
    hide MarkedSet, Converged, NoDup, InOrderOf;
    if IsAtomic(s, e) && !CallsNext(s, e) {
      assert t.tobefnz == s.tobefnz + t.tobefnz[|s.tobefnz|..];
    }
  }

  /** A finalizer is only ever called for an object that an atomic step of the run could not mark from the roots, and
      that has waited for its finalizer since. */
  lemma FinalizedWereUnmarked(main: Ref, es: seq<Event>, k: nat, r: Ref) returns (j: nat)
    requires AllowedRun(Initial(main), es) && k < |es| && Calls(At(Initial(main), es, k), es[k], r)
    ensures j < k && IsAtomic(At(Initial(main), es, j), es[j])
    ensures var s := At(Initial(main), es, j); r in s.finobj && r !in MarkedSet(Converged(s))
    ensures forall i :: j < i <= k ==> r in At(Initial(main), es, i).tobefnz
  {
    InitialSound(main);
    j := Arrived(Initial(main), es, k, r);
  }

  // ---------- No finalizer of an object in use is called ----------

  lemma StepLeavesMarking(s: State, max: nat, emergency: bool, M: set<Ref>)
    requires Fine(s, M) && !KeepInvariant(s) && !s.phase.Pause?
    ensures !KeepInvariant(SingleStep(s, max, emergency))
  {
    IdleSurrounds(s, max, M);
    StepIs(s, max, emergency);
    StepIs(s, max, true);
    assert !s.phase.InsideAtomic?;
    if s.phase.CallFin? && s.tobefnz != [] {
      CallQueues(s);
    }
    hide Good, ClosedUnderRefs, SingleStep, CallFinalizer, Surrounds;
  }

  /** Until the next pause nothing is marked. */
  lemma MarkingIsOver(s: State, e: Event)
    requires Sound(s) && Allowed(s, e) && !KeepInvariant(s) && !s.phase.Pause?
    ensures !KeepInvariant(Apply(s, e))
  {
    var M :| Fine(s, M);
    EventQueues(s, e, M);
    ApplyIs(s, e);
    hide Fine, Apply, Queued, NoStringWaits, SingleStep, Allowed;
    if e.Step? {
      StepLeavesMarking(s, e.max, e.emergency, M);
    }
  }

  lemma NotQueued(s: State, e: Event, t: State, r: Ref)
    requires Queued(s, e, t) && r !in s.tobefnz && (IsAtomic(s, e) ==> r in MarkedSet(Converged(s)))
    ensures r !in t.tobefnz
  {
    hide MarkedSet, Converged, NoDup, InOrderOf;
    if r in t.tobefnz {
      ArrivedNow(s, e, t, r);
    }
  }

  lemma {:induction false} StaysUnqueued(s: State, es: seq<Event>, k: nat, r: Ref)
    requires Sound(s) && AllowedRun(s, es) && 0 < k <= |es| && IsAtomic(s, es[0])
    requires r in MarkedSet(Converged(s)) && r !in s.tobefnz
    requires forall i :: 0 < i < k ==> !At(s, es, i).phase.Pause?
    ensures r !in At(s, es, k).tobefnz && !KeepInvariant(At(s, es, k))
    decreases k
  {
    hide *;
    AtStart(s, es);
    var t := At(s, es, k - 1);
    RunQueues(s, es, k - 1);
    AtNext(s, es, k - 1);
    RunSound(s, es, k - 1);
    if k == 1 {
      LeavesAtomic(s, es[0]);
      NotQueued(s, es[0], At(s, es, 1), r);
    } else {
      StaysUnqueued(s, es, k - 1, r);
      MarkingIsOver(t, es[k - 1]);
      NotAtomic(t, es[k - 1]);
      NotQueued(t, es[k - 1], At(s, es, k), r);
    }
  }

  lemma NotAtomic(s: State, e: Event)
    requires !KeepInvariant(s)
    ensures !IsAtomic(s, e)
  {
  }

  lemma LeavesAtomic(s: State, e: Event)
    requires Sound(s) && Allowed(s, e) && IsAtomic(s, e)
    ensures !KeepInvariant(Apply(s, e))
  {
    var M :| Fine(s, M);
    ApplyIs(s, e);
    StepIs(s, e.max, e.emergency);
    hide Good, ClosedUnderRefs, Apply, NoStringWaits, SingleStep, Allowed, EnterSweep;
    AtomicEnters(s, M);
  }

  /** Between an atomic step and the next pause no finalizer is called for an object that the step found in use, unless it
      was waiting for its finalizer already. */
  lemma UsedNotFinalized(s: State, es: seq<Event>, k: nat, r: Ref)
    requires Sound(s) && AllowedRun(s, es) && k < |es| && IsAtomic(s, es[0])
    requires r in MarkedSet(Converged(s)) && r !in s.tobefnz
    requires forall i :: 0 < i < k ==> !At(s, es, i).phase.Pause?
    ensures !Calls(At(s, es, k), es[k], r)
  {
    hide *;
    AtStart(s, es);
    if k > 0 {
      StaysUnqueued(s, es, k, r);
    }
    HeadQueued(At(s, es, k), es[k], r);
  }

  lemma HeadQueued(s: State, e: Event, r: Ref)
    requires r !in s.tobefnz
    ensures !Calls(s, e, r)
  {
  }

  // ---------- Once for each time it is given ----------

  lemma NotGiven(s: State, e: Event, t: State, r: Ref)
    requires Queued(s, e, t) && r !in s.finobj && r !in s.tobefnz && !Gives(s, e, r)
    ensures r !in t.finobj && r !in t.tobefnz
  {
    hide MarkedSet, Converged, NoDup, InOrderOf;
    if r in t.tobefnz {
      ArrivedNow(s, e, t, r);
    }
  }

  lemma {:induction false} MustBeGiven(s: State, es: seq<Event>, i: nat, k: nat, r: Ref) returns (j: nat)
    requires Sound(s) && AllowedRun(s, es) && i <= k <= |es|
    requires r !in At(s, es, i).finobj && r !in At(s, es, i).tobefnz && r in At(s, es, k).tobefnz
    ensures i <= j < k && Gives(At(s, es, j), es[j], r)
    decreases k - i
  {
    hide *;
    assert i < k;
    RunQueues(s, es, i);
    if Gives(At(s, es, i), es[i], r) {
      j := i;
    } else {
      NotGiven(At(s, es, i), es[i], At(s, es, i + 1), r);
      j := MustBeGiven(s, es, i + 1, k, r);
    }
  }

  lemma CalledIsOff(s: State, e: Event, t: State, r: Ref)
    requires Queued(s, e, t) && Calls(s, e, r) && NoDup(s.tobefnz) && forall x :: x in s.finobj ==> x !in s.tobefnz
    ensures r !in t.finobj && r !in t.tobefnz
  {
    HeadOnce(s.tobefnz);
    hide NoDup;
  }

  /** Between two calls of an object's finalizer the program has given it one again. */
  lemma FinalizedOnce(s: State, es: seq<Event>, i: nat, k: nat, r: Ref) returns (j: nat)
    requires Sound(s) && AllowedRun(s, es) && i < k < |es|
    requires Calls(At(s, es, i), es[i], r) && Calls(At(s, es, k), es[k], r)
    ensures i < j < k && Gives(At(s, es, j), es[j], r)
  {
    hide *;
    RunQueues(s, es, i);
    CalledIsOff(At(s, es, i), es[i], At(s, es, i + 1), r);
    if r !in At(s, es, k).tobefnz {
      HeadQueued(At(s, es, k), es[k], r);
    }
    j := MustBeGiven(s, es, i + 1, k, r);
  }

  // ---------- The order of the calls ----------

  lemma BeforeMembers(q: seq<Ref>, a: Ref, b: Ref)
    requires Before(q, a, b)
    ensures a in q && b in q
  {
  }

  lemma BeforeOnce(q: seq<Ref>, a: Ref, b: Ref)
    requires NoDup(q) && Before(q, a, b)
    ensures !Before(q, b, a) && a != b && q != [] && q[0] != b
  {
  }

  lemma BeforeOrAfter(q: seq<Ref>, a: Ref, b: Ref)
    requires a in q && b in q && a != b
    ensures Before(q, a, b) || Before(q, b, a)
  {
    var i :| 0 <= i < |q| && q[i] == a;
    var j :| 0 <= j < |q| && q[j] == b;
    if i < j {
      assert Before(q, a, b);
    } else {
      assert Before(q, b, a);
    }
  }

  lemma BeforeLonger(p: seq<Ref>, q: seq<Ref>, o: seq<Ref>, a: Ref, b: Ref)
    requires Before(q, a, b)
    ensures Before(p + q + o, a, b)
  {
    var i, j :| 0 <= i < j < |q| && q[i] == a && q[j] == b;
    var w := p + q + o;
    assert w[|p| + i] == a && w[|p| + j] == b;
  }

  /** Elements of a part that keeps the order keep theirs. */
  lemma OrderKept(q: seq<Ref>, p: seq<Ref>, a: Ref, b: Ref)
    requires InOrderOf(p, q) && NoDup(q) && Before(q, a, b) && a in p && b in p
    ensures Before(p, a, b)
  {
    BeforeOnce(q, a, b);
    BeforeOrAfter(p, a, b);
    hide Before, NoDup;
  }

  /** a waits in front of b, or one of them has been moved. */
  ghost predicate Newer(s: State, a: Ref, b: Ref) {
    Before(s.finobj, a, b) || a in s.tobefnz || b in s.tobefnz
  }

  lemma NewerStays(s: State, e: Event, t: State, a: Ref, b: Ref)
    requires Queued(s, e, t) && NoDup(s.finobj) && Newer(s, a, b) && !Calls(s, e, a) && !Calls(s, e, b)
    ensures Newer(t, a, b)
  {
    hide MarkedSet, Converged, Before, NoDup, InOrderOf;
    if CallsNext(s, e) {
      assert s.tobefnz == [s.tobefnz[0]] + t.tobefnz;
    } else if IsAtomic(s, e) {
      assert t.tobefnz == s.tobefnz + t.tobefnz[|s.tobefnz|..];
      if Before(s.finobj, a, b) {
        BeforeMembers(s.finobj, a, b);
        if a in t.finobj && b in t.finobj {
          OrderKept(s.finobj, t.finobj, a, b);
        }
      }
    } else if Before(s.finobj, a, b) {
      BeforeLonger([], s.finobj, [], a, b);
      if e.GiveFinalizer? {
        BeforeLonger([e.obj], s.finobj, [], a, b);
        assert [e.obj] + s.finobj + [] == [e.obj] + s.finobj;
      }
    }
  }

  lemma {:induction false} StaysNewer(s: State, es: seq<Event>, i: nat, j: nat, a: Ref, b: Ref)
    requires Sound(s) && AllowedRun(s, es) && i <= j <= |es| && Newer(At(s, es, i), a, b)
    requires forall x :: i <= x < j ==> !Calls(At(s, es, x), es[x], a) && !Calls(At(s, es, x), es[x], b)
    ensures Newer(At(s, es, j), a, b)
    decreases j
  {
    hide *;
    if i < j {
      StaysNewer(s, es, i, j - 1, a, b);
      RunQueues(s, es, j - 1);
      NewerStays(At(s, es, j - 1), es[j - 1], At(s, es, j), a, b);
    }
  }

  lemma Divided(s: State, e: Event, t: State)
    requires Queued(s, e, t) && IsAtomic(s, e)
    ensures |s.tobefnz| <= |t.tobefnz| && t.tobefnz == s.tobefnz + t.tobefnz[|s.tobefnz|..]
    ensures InOrderOf(t.tobefnz[|s.tobefnz|..], s.finobj)
    ensures forall r :: r in s.finobj && r !in MarkedSet(Converged(s)) ==> r in t.tobefnz[|s.tobefnz|..]
  {
    hide MarkedSet, Converged, NoDup, InOrderOf;
  }

  lemma FirstStays(s: State, e: Event, t: State, a: Ref, b: Ref)
    requires Queued(s, e, t) && NoDup(s.tobefnz) && Before(s.tobefnz, a, b)
    ensures !Calls(s, e, b) && (Calls(s, e, a) || Before(t.tobefnz, a, b))
  {
    BeforeOnce(s.tobefnz, a, b);
    hide MarkedSet, Converged, NoDup, Before, Divides;
    if CallsNext(s, e) {
      BeforeFirst(s.tobefnz, a, b);
    } else if IsAtomic(s, e) {
      Divided(s, e, t);
      BeforeLonger([], s.tobefnz, t.tobefnz[|s.tobefnz|..], a, b);
      assert t.tobefnz == [] + s.tobefnz + t.tobefnz[|s.tobefnz|..];
    }
  }

  /** The finalizer of the object in front is called first. */
  lemma {:induction false} CalledInOrder(s: State, es: seq<Event>, m: nat, k: nat, a: Ref, b: Ref) returns (x: nat)
    requires Sound(s) && AllowedRun(s, es) && m <= k < |es| && Before(At(s, es, m).tobefnz, a, b)
    requires Calls(At(s, es, k), es[k], b)
    ensures m <= x < k && Calls(At(s, es, x), es[x], a)
    decreases k - m
  {
    hide *;
    RunQueues(s, es, m);
    FirstStays(At(s, es, m), es[m], At(s, es, m + 1), a, b);
    if Calls(At(s, es, m), es[m], a) {
      x := m;
    } else {
      x := CalledInOrder(s, es, m + 1, k, a, b);
    }
  }

  lemma GivenNewer(s: State, e: Event, t: State, a: Ref, b: Ref)
    requires Queued(s, e, t) && Gives(s, e, a) && b in s.finobj
    ensures Newer(t, a, b)
  {
    BeforeFirst(t.finobj, a, b);
  }

  lemma MovedInOrder(s: State, e: Event, t: State, a: Ref, b: Ref)
    requires Queued(s, e, t) && IsAtomic(s, e) && NoDup(s.finobj) && Newer(s, a, b)
    requires a in s.finobj && b in s.finobj && (forall r :: r in s.finobj ==> r !in s.tobefnz)
    requires a !in MarkedSet(Converged(s)) && b !in MarkedSet(Converged(s))
    ensures Before(t.tobefnz, a, b)
  {
    assert Before(s.finobj, a, b);
    Divided(s, e, t);
    var moved := t.tobefnz[|s.tobefnz|..];
    hide *;
    OrderKept(s.finobj, moved, a, b);
    BeforeLonger(s.tobefnz, moved, [], a, b);
    assert t.tobefnz == s.tobefnz + moved + [];
  }

  /** Of two objects that the same atomic step finds out of use, the finalizer of the one that was given its finalizer
      later is called first. */
  lemma FinalizedInReverse(s: State, es: seq<Event>, i: nat, j: nat, k: nat, a: Ref, b: Ref) returns (x: nat)
    requires Sound(s) && AllowedRun(s, es) && i < j < k < |es|
    requires Gives(At(s, es, i), es[i], a) && b in At(s, es, i).finobj
    requires forall y :: i < y < j ==> !Calls(At(s, es, y), es[y], a) && !Calls(At(s, es, y), es[y], b)
    requires IsAtomic(At(s, es, j), es[j]) && a in At(s, es, j).finobj && b in At(s, es, j).finobj
    requires a !in MarkedSet(Converged(At(s, es, j))) && b !in MarkedSet(Converged(At(s, es, j)))
    requires Calls(At(s, es, k), es[k], b)
    ensures j < x < k && Calls(At(s, es, x), es[x], a)
  {
    hide *;
    RunQueues(s, es, i);
    GivenNewer(At(s, es, i), es[i], At(s, es, i + 1), a, b);
    StaysNewer(s, es, i + 1, j, a, b);
    RunQueues(s, es, j);
    MovedInOrder(At(s, es, j), es[j], At(s, es, j + 1), a, b);
    x := CalledInOrder(s, es, j + 1, k, a, b);
  }
}
