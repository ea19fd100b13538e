/** The two cases the code leaves open, for every state: when they happen, the collector's own steps free an object that
    the program can reach. */
module LuaExact {
  import opened LuaObjects
  import opened LuaMark
  import opened LuaTraverse
  import opened LuaPropagate
  import opened LuaKeys
  import opened LuaAtomicStep
  import opened LuaSweep
  import opened LuaEvents
  import opened LuaInvariant
  import opened LuaSweepGood
  import opened LuaCollect
  import opened LuaMutator
  import opened LuaRun
  import opened LuaCycle
  import opened LuaUnseen

  // ---------- What the program holds through objects that are no tables ----------

  /** The path leads from a root to x through objects that are no tables: the collector changes nothing on it. */
  ghost predicate FastPath(s: State, p: seq<Ref>, x: Ref) {
    && IsPath(s.heap, p) && IsProgramRoot(s, p[0]) && p[|p| - 1] == x
    && forall i :: 0 <= i < |p| - 1 ==> p[i] != x && p[i] in s.heap.objs && !s.heap.objs[p[i]].Table?
  }

  /** What is left of the heap is what it was, tables aside. */
  ghost predicate KeepsPlain(s: State, t: State) {
    && t.heap.cells == s.heap.cells && RootValues(t) == RootValues(s)
    && t.mainthread == s.mainthread && t.fixedgc == s.fixedgc
    && forall o :: o in t.heap.objs ==>
         && o in s.heap.objs && t.heap.objs[o].Table? == s.heap.objs[o].Table?
         && (!s.heap.objs[o].Table? ==> t.heap.objs[o] == s.heap.objs[o])
  }

  lemma RisesPlain(s: State, t: State)
    requires Rises(s, t)
    ensures KeepsPlain(s, t)
  {
    forall o | o in t.heap.objs ensures o in s.heap.objs { }
  }

  lemma SweepsPlain(s: State, t: State)
    requires Sweeps(s, t) && RootValues(t) == RootValues(s) && t.mainthread == s.mainthread && t.fixedgc == s.fixedgc
    ensures KeepsPlain(s, t)
  {
  }

  lemma PlainTransitive(s: State, t: State, u: State)
    requires KeepsPlain(s, t) && KeepsPlain(t, u)
    ensures KeepsPlain(s, u)
  {
  }

  lemma EnterSweepPlain(s: State, M: set<Ref>)
    requires Good(s.(phase := SweepAllGc, sweepgc := Head(AllGc)), M)
    ensures KeepsPlain(s, EnterSweep(s))
  {
    var u := s.(phase := SweepAllGc);
    var p := Head(AllGc);
    assert u.(sweepgc := p) == s.(phase := SweepAllGc, sweepgc := p);
    SweepParts(u.(sweepgc := p), M);
    CursorFree(u, p, M);
    HeadInList(u);
    hide Good, Frame, Surrounds, LiveClosed, DeadAreOrdinary, RestIsWhite, DeadInTodo, OutsideDead, Listed, SweepToLive,
      Stretch, InList, Sweeps, CursorInPlace, KeepsPlain;
    var done := SweepToLiveKeeps(u, p, AllGc);
    var (t, r) := SweepToLive(u, p);
    StretchPlain(u, p, done, t, r, AllGc);
    SweepsPlain(u, t);
    EnteredPlain(s, t, r);
  }

  lemma EnteredPlain(s: State, t: State, r: Cursor)
    requires KeepsPlain(s.(phase := SweepAllGc), t)
    ensures KeepsPlain(s, t.(sweepgc := r))
  {
  }

  lemma PropagatePlain(s: State, M: set<Ref>)
    requires Good(s, M) && s.phase.Propagate?
    ensures KeepsPlain(s, PropagateMark(s)) && s.gray != []
  {
    MarkingParts(s, M);
    hide Good, Inv, Frame, Surrounds, Marks, KeysKnown, Traverses, PropagateMark, KeepsPlain, Rises;
    PropagateMarkKeeps(s, MARKING.(within := M));
    TraversesRises(s, PropagateMark(s));
    RisesPlain(s, PropagateMark(s));
  }

  lemma AtomicPlain(s: State, M: set<Ref>)
    requires Good(s, M) && s.phase.Atomic?
    ensures KeepsPlain(s, EnterSweep(AtomicStep(PropagateAll(s))))
  {
    var t := AtomicClear(AtomicMark(PropagateAll(s)));
    AtomicClears(s, M);
    hide Good, Frame, Surrounds, AllMarked, PropagateAll, AtomicMark, AtomicClear, EnterSweep, Rises, KeepsPlain;
    RisesPlain(s, t);
    FlipGood(t, M);
    var u := AtomicStep(PropagateAll(s));
    assert Flipped(t) == u.(phase := SweepAllGc, sweepgc := Head(AllGc));
    EnterSweepPlain(u, M);
    assert u == t.(white := !t.white);
    WhitePlain(s, t);
    PlainTransitive(s, u, EnterSweep(u));
  }

  lemma WhitePlain(s: State, t: State)
    requires KeepsPlain(s, t)
    ensures KeepsPlain(s, t.(white := !t.white))
  {
  }

  lemma SweepPlain(s: State, max: nat, M: set<Ref>)
    requires Good(s, M) && InSweepLists(s)
    ensures KeepsPlain(s, SingleStep(s, max, true))
  {
    forall phase: Phase, cursor: Cursor ensures KeepsPlain(s, s.(phase := phase, sweepgc := cursor)) {
    }
    if s.sweepgc != NoCursor {
      SweepParts(s, M);
      var l := SweptList(s, M);
      SweptInList(s, l);
      hide Good, Frame, Surrounds, LiveClosed, DeadAreOrdinary, RestIsWhite, DeadInTodo, OutsideDead, Listed,
        Stretch, InList, ListSwept, CursorInPlace, SweepList, Sweeps, KeepsPlain;
      var done := SweepListKeeps(s, s.sweepgc, l, max);
      var (t, r) := SweepList(s, s.sweepgc, max);
      StretchPlain(s, s.sweepgc, done, t, r, l);
      SweepsPlain(s, t);
      forall phase: Phase, cursor: Cursor ensures KeepsPlain(s, t.(phase := phase, sweepgc := cursor)) {
        CursorPlain(s, t, phase, cursor);
      }
      assert t.(sweepgc := r) == t.(phase := t.phase, sweepgc := r);
    }
  }

  lemma CursorPlain(s: State, t: State, phase: Phase, cursor: Cursor)
    requires KeepsPlain(s, t)
    ensures KeepsPlain(s, t.(phase := phase, sweepgc := cursor))
  {
  }

  lemma PhasePlain(s: State, t: State, phase: Phase)
    requires KeepsPlain(s, t)
    ensures KeepsPlain(s, t.(phase := phase))
  {
  }

  /** A step of the collector changes tables only, and frees what it frees. */
  lemma StepPlain(s: State, max: nat, M: set<Ref>)
    requires Fine(s, M) && !s.phase.Pause?
    ensures KeepsPlain(s, SingleStep(s, max, true))
  {
    StepIs(s, max, true);
    assert !s.phase.InsideAtomic?;
    hide Good, ClosedUnderRefs, PropagateMark, PropagateAll, AtomicStep, EnterSweep;
    match s.phase
    case Propagate =>
      hide KeepsPlain;
      PropagatePlain(s, M);
      PhasePlain(s, PropagateMark(s), Atomic);
    case Atomic => hide KeepsPlain; AtomicPlain(s, M);
    case SweepEnd => hide Frame, Surrounds, Sweeping, Marking;
    case CallFin => hide Frame, Surrounds, Sweeping, Marking;
    case _ =>
      hide SingleStep, KeepsPlain;
      SweepPlain(s, max, M);
  }

  lemma PathHolds(s: State, p: seq<Ref>, x: Ref, i: nat)
    requires FastPath(s, p, x) && i < |p|
    ensures Accessible(s, p[i])
  {
    var q := p[..i + 1];
    forall j | 0 <= j < |q| - 1 ensures Refers(s.heap, q[j], q[j + 1]) {
      assert q[j] == p[j] && q[j + 1] == p[j + 1];
    }
    hide Refers;
    assert IsPath(s.heap, q) && q[|q| - 1] == p[i];
  }

  lemma PathKept(s: State, t: State, p: seq<Ref>, x: Ref, M: set<Ref>, N: set<Ref>)
    requires Fine(s, M) && Fine(t, N) && KeepsPlain(s, t) && FastPath(s, p, x)
    requires forall i :: 0 <= i < |p| ==> p[i] in t.heap.objs
    ensures FastPath(t, p, x)
  {
    hide Fine;
    forall i | 0 <= i < |p| - 1 ensures Refers(t.heap, p[i], p[i + 1]) {
      assert Refers(s.heap, p[i], p[i + 1]) && t.heap.objs[p[i]] == s.heap.objs[p[i]];
    }
  }

  /** The steps of an idle program's collector, none of which calls a finalizer. */
  function Idle(s: State, max: nat, n: nat): State
    decreases n
  {
    if n == 0 then s else Idle(SingleStep(s, max, true), max, n - 1)
  }

  /** The object is a userdata, or else a table. */
  ghost predicate HasFields(s: State, x: Ref, userdata: bool) {
    x in s.heap.objs && if userdata then s.heap.objs[x].Userdata? else s.heap.objs[x].Table?
  }

  lemma PathEnd(s: State, p: seq<Ref>, x: Ref, M: set<Ref>)
    requires Fine(s, M) && FastPath(s, p, x)
    ensures forall i :: 0 <= i < |p| ==> p[i] in s.heap.objs && p[i] in M
  {
    forall i | 0 <= i < |p| ensures p[i] in s.heap.objs && p[i] in M {
      PathHolds(s, p, x, i);
      AccessibleHeld(s, M, p[i]);
    }
  }

  lemma PathStep(s: State, p: seq<Ref>, x: Ref, userdata: bool, max: nat, M: set<Ref>)
    requires Fine(s, M) && FastPath(s, p, x) && HasFields(s, x, userdata) && !s.phase.Pause?
    ensures var t := SingleStep(s, max, true); Fine(t, M) && FastPath(t, p, x) && HasFields(t, x, userdata)
  {
    var t := SingleStep(s, max, true);
    StepFine(s, max, true, M);
    StepPlain(s, max, M);
    hide Fine, SingleStep, FastPath;
    forall i | 0 <= i < |p| ensures p[i] in t.heap.objs { StillThere(s, t, p, x, i, M); }
    PathKept(s, t, p, x, M, M);
    PathLast(t, p, x);
    assert x in t.heap.objs;
    if userdata { assert t.heap.objs[x] == s.heap.objs[x]; }
  }

  lemma PathLast(s: State, p: seq<Ref>, x: Ref)
    requires FastPath(s, p, x)
    ensures p != [] && p[|p| - 1] == x
  {
  }

  /** By induction along the path: each object is live before the step, and reachable after it. */
  lemma {:induction false} StillThere(s: State, t: State, p: seq<Ref>, x: Ref, i: nat, M: set<Ref>)
    requires Fine(t, M) && KeepsPlain(s, t) && FastPath(s, p, x) && i < |p|
    ensures p[i] in t.heap.objs && Accessible(t, p[i])
    decreases i
  {
    hide Fine, Refers, Accessible, KeepsPlain, FastPath;
    if i == 0 {
      PathRoot(s, t, p, x);
    } else {
      StillThere(s, t, p, x, i - 1, M);
      EdgeKept(s, t, p, x, i - 1);
      AccessibleNext(t, p[i - 1], p[i]);
    }
    FinePhase(t, M);
    assert ClosedUnderRefs(t.heap, M) by { FineClosed(t, M); }
    AccessibleHeld(t, M, p[i]);
  }

  lemma FineClosed(s: State, M: set<Ref>)
    requires Fine(s, M)
    ensures ClosedUnderRefs(s.heap, M)
  {
  }

  lemma PathRoot(s: State, t: State, p: seq<Ref>, x: Ref)
    requires FastPath(s, p, x) && KeepsPlain(s, t)
    ensures Accessible(t, p[0])
  {
    hide Refers;
    assert IsPath(t.heap, [p[0]]) && IsProgramRoot(t, p[0]);
  }

  lemma EdgeKept(s: State, t: State, p: seq<Ref>, x: Ref, i: nat)
    requires FastPath(s, p, x) && KeepsPlain(s, t) && i < |p| - 1 && p[i] in t.heap.objs
    ensures Refers(t.heap, p[i], p[i + 1])
  {
    assert Refers(s.heap, p[i], p[i + 1]);
    assert t.heap.objs[p[i]] == s.heap.objs[p[i]];
  }

  /** Whatever the unseen object holds, the collector goes on as if it held what it does in s. */
  lemma {:induction false} UnseenRun(s: State, M: set<Ref>, d: Fields, userdata: bool, p: seq<Ref>, max: nat)
    returns (n: nat, u: State)
    requires Fine(s, M) && !s.phase.Pause? && (KeepInvariant(s) ==> Unseen(s, d.obj)) && max > 0
    requires FastPath(s, p, d.obj) && HasFields(s, d.obj, userdata)
    ensures Idle(Dress(s, d), max, n) == Dress(u, d) && Fine(u, M) && u.phase.CallFin?
    ensures FastPath(u, p, d.obj) && HasFields(u, d.obj, userdata)
    decreases PhasesLeft(s.phase), WorkLeft(s)
  {
    hide Fine, SingleStep, WorkLeft, FastPath, HasFields, Unseen, Dress;
    if s.phase.CallFin? {
      n, u := 0, s;
    } else {
      var t := SingleStep(s, max, true);
      FinePhase(s, M);
      StepUnseen(s, max, d);
      PathStep(s, p, d.obj, userdata, max, M);
      StepDescends(s, max, true, M);
      NoPause(s, max, M);
      MarkingStays(s, max, M);
      n, u := UnseenRun(t, M, d, userdata, p, max);
      n := n + 1;
    }
  }

  lemma FinePhase(s: State, M: set<Ref>)
    requires Fine(s, M)
    ensures Good(s, M) && !s.phase.InsideAtomic?
  {
  }

  lemma NoPause(s: State, max: nat, M: set<Ref>)
    requires Fine(s, M) && !s.phase.Pause? && !s.phase.CallFin?
    ensures !SingleStep(s, max, true).phase.Pause?
  {
    StepNotPause(s, max, true, M);
  }

  /** Marking does not start again before the pause. */
  lemma MarkingStays(s: State, max: nat, M: set<Ref>)
    requires Fine(s, M) && !s.phase.Pause?
    ensures KeepInvariant(SingleStep(s, max, true)) ==> KeepInvariant(s)
  {
    if !KeepInvariant(s) { IdleSurrounds(s, max, M); }
  }

  /** With these fields the object refers to c. */
  ghost predicate Holds(d: Fields, userdata: bool, c: Ref) {
    d.meta == Obj(c) || (userdata && d.uservalue == Obj(c))
  }

  /** What only the unseen object holds is freed, and the program can still reach it. */
  lemma UnseenFrees(s: State, M: set<Ref>, d: Fields, userdata: bool, c: Ref, p: seq<Ref>, max: nat) returns (n: nat)
    requires Fine(s, M) && KeepInvariant(s) && Unseen(s, d.obj) && max > 0 && FastPath(s, p, d.obj)
    requires HasFields(s, d.obj, userdata) && c !in M && Holds(d, userdata, c)
    ensures var t := Idle(Dress(s, d), max, n);
            t.phase.CallFin? && Accessible(t, c) && c !in t.heap.objs
  {
    hide Fine, Unseen, Idle, HasFields, FastPath, Holds, Dress, Accessible;
    var u;
    n, u := UnseenRun(s, M, d, userdata, p, max);
    FinePhase(u, M);
    if c in u.heap.objs { CallFinWithin(u, M, c); }
    DressedPath(u, M, d, userdata, c, p);
    DressKeys(u, d);
  }

  lemma DressKeys(u: State, d: Fields)
    ensures Dress(u, d).heap.objs.Keys == u.heap.objs.Keys && Dress(u, d).phase == u.phase
  {
  }

  lemma DressedPath(u: State, M: set<Ref>, d: Fields, userdata: bool, c: Ref, p: seq<Ref>)
    requires Fine(u, M) && FastPath(u, p, d.obj) && HasFields(u, d.obj, userdata) && Holds(d, userdata, c)
    ensures Accessible(Dress(u, d), c)
  {
    var t := Dress(u, d);
    var q := p + [c];
    DressParts(u, d);
    PathEnd(u, p, d.obj, M);
    assert Refers(t.heap, d.obj, c);
    forall i | 0 <= i < |q| - 1 ensures Refers(t.heap, q[i], q[i + 1]) {
      if i < |p| - 1 {
        assert q[i] == p[i] && q[i + 1] == p[i + 1];
        assert Refers(u.heap, p[i], p[i + 1]) && t.heap.objs[p[i]] == u.heap.objs[p[i]];
      }
    }
    hide Refers, Dress, Fine;
    assert IsPath(t.heap, q) && q[0] == p[0] && q[|q| - 1] == c;
    assert IsProgramRoot(t, q[0]);
  }

  // ---------- What nothing else refers to ----------

  /** Nothing but x and c itself refers to c, and neither the collector nor the program starts from it. */
  ghost predicate OnlyHolder(s: State, x: Ref, c: Ref) {
    && (forall o :: Refers(s.heap, o, c) ==> o == x || o == c)
    && !IsRoot(s, c) && c !in s.finobj
  }

  /** x does not refer to c either. */
  ghost predicate NobodyHolds(s: State, c: Ref) {
    && (forall o :: Refers(s.heap, o, c) ==> o == c)
    && !IsRoot(s, c) && c !in s.finobj
  }

  lemma ClosedWithout(h: Heap, M: set<Ref>, c: Ref)
    requires ClosedUnderRefs(h, M) && forall o :: Refers(h, o, c) ==> o == c
    ensures ClosedUnderRefs(h, M - {c}) && Closed(h, M - {c})
  {
    hide Refers;
    ClosedFollows(h, M - {c});
  }

  lemma SurroundsWithout(s: State, M: set<Ref>, c: Ref)
    requires Fine(s, M) && NobodyHolds(s, c)
    ensures Surrounds(s, M - {c}) && ClosedUnderRefs(s.heap, M - {c})
  {
    hide Refers, IsRoot, Closed, ClosedUnderRefs, Frame, Marking, Sweeping;
    ClosedWithout(s.heap, M, c);
    forall r | IsRoot(s, r) || r in s.finobj ensures r in M - {c} { }
  }

  /** While objects are being marked, a white object that nothing holds can be left out of M. */
  lemma MarkingWithout(s: State, M: set<Ref>, c: Ref)
    requires Fine(s, M) && KeepInvariant(s) && NobodyHolds(s, c) && IsWhite(s, c)
    ensures Fine(s, M - {c})
  {
    SurroundsWithout(s, M, c);
    MarkingParts(s, M);
    hide Refers, IsRoot, Frame, HeapClosed, NoBlackToWhite, Queues, EveryGrayWaits, WeakLists, Closed, ClosedUnderRefs,
      KeysKnown, NobodyHolds;
    assert Inv(s, {}, MARKING.(within := M - {c})) by { InvNarrow(s, M, M - {c}); }
    assert Marking(s, M - {c});
  }

  lemma InvNarrow(s: State, M: set<Ref>, N: set<Ref>)
    requires Inv(s, {}, MARKING.(within := M)) && Within(s.color, N) && Closed(s.heap, N)
    ensures Inv(s, {}, MARKING.(within := N))
  {
    assert Queues(s, MARKING.(within := N)) && EveryGrayWaits(s, {}, MARKING.(within := N));
    assert WeakLists(s, MARKING.(within := N));
  }

  // ---------- A white metatable for a table on 'allweak' ----------

  lemma AllWeakUnseen(s: State, o: Ref, M: set<Ref>)
    requires Good(s, M) && KeepInvariant(s) && o in s.allweak
    ensures Unseen(s, o) && HasFields(s, o, false) && IsColor(s.color, o, Gray)
  {
    AllWeakListed(s, M);
    var c := MARKING.(within := M);
    assert Queues(s, c);
    assert GrayTable(s.heap, s.color, o);
  }

  /** The store, and whatever the program does to its stack afterwards. */
  function MetaStored(s: State, o: Ref, v: Value, thread: Ref, stack: seq<Value>): State
    requires o in s.heap.objs && HasField(s.heap.objs[o], Metatable)
  {
    SetObject(StoreField(s, o, Metatable, v), thread, Thread(stack))
  }

  lemma StoredIsDressed(s: State, o: Ref, r: Ref, thread: Ref, stack: seq<Value>)
    requires o in s.heap.objs && s.heap.objs[o].Table? && IsColor(s.color, o, Gray) && IsThread(s, thread)
    ensures MetaStored(s, o, Obj(r), thread, stack) == Dress(SetObject(s, thread, Thread(stack)), Fields(o, Obj(r), Nil))
  {
    var p := s.heap.objs[o];
    assert s.heap.objs[o := p.(metatable := Obj(r))][thread := Thread(stack)] ==
           s.heap.objs[thread := Thread(stack)][o := p.(metatable := Obj(r))];
  }

  lemma StackUnseen(s: State, o: Ref, thread: Ref, stack: seq<Value>)
    requires Unseen(s, o) && HasFields(s, o, false) && IsThread(s, thread)
    ensures var t := SetObject(s, thread, Thread(stack)); Unseen(t, o) && HasFields(t, o, false) && t.phase == s.phase
    ensures forall r :: IsWhite(SetObject(s, thread, Thread(stack)), r) == IsWhite(s, r)
  {
  }

  /** Some steps of the idle program's collector free an object that the program can reach. */
  ghost predicate GoesWrong(s: State, max: nat) {
    exists n: nat, c: Ref :: var t := Idle(s, max, n); Accessible(t, c) && c !in t.heap.objs
  }

  lemma {:induction false} IdleFine(s: State, M: set<Ref>, max: nat, n: nat)
    requires Fine(s, M)
    ensures Fine(Idle(s, max, n), M)
    decreases n
  {
    hide Fine, SingleStep;
    if n > 0 {
      StepFine(s, max, true, M);
      IdleFine(SingleStep(s, max, true), M, max, n - 1);
    }
  }

  lemma FineGoesRight(s: State, M: set<Ref>, max: nat)
    requires Fine(s, M)
    ensures !GoesWrong(s, max)
  {
    forall n: nat, c: Ref | Accessible(Idle(s, max, n), c) ensures c in Idle(s, max, n).heap.objs {
      IdleFine(s, M, max, n);
      AccessibleHeld(Idle(s, max, n), M, c);
    }
  }

  /** A table gets a metatable that the program then forgets: the collector frees the metatable under the table, exactly
      if the store is a bad one. */
  lemma BadMetaExact(s: State, M: set<Ref>, o: Ref, r: Ref, thread: Ref, stack: seq<Value>, p: seq<Ref>, max: nat)
    requires Fine(s, M) && HasTable(s, o) && max > 0
    requires Enabled(s, PutField(o, Metatable, Obj(r))) && OperandsReached(s, PutField(o, Metatable, Obj(r)))
    requires IsThread(s, thread)
    requires var s1 := SetObject(s, thread, Thread(stack));
             && Allowed(s, PutStack(thread, stack)) && NobodyHolds(s1, r) && FastPath(s1, p, o)
    requires BadMeta(s, o, Metatable, Obj(r)) || Allowed(StoreField(s, o, Metatable, Obj(r)), PutStack(thread, stack))
    ensures GoesWrong(MetaStored(s, o, Obj(r), thread, stack), max) <==> BadMeta(s, o, Metatable, Obj(r))
  {
    if BadMeta(s, o, Metatable, Obj(r)) {
      BadMetaFrees(s, M, o, r, thread, stack, p, max);
    } else {
      FieldFine(s, o, Metatable, Obj(r), M);
      StackFine(StoreField(s, o, Metatable, Obj(r)), thread, stack, M);
      FineGoesRight(MetaStored(s, o, Obj(r), thread, stack), M, max);
    }
  }

  lemma BadMetaFrees(s: State, M: set<Ref>, o: Ref, r: Ref, thread: Ref, stack: seq<Value>, p: seq<Ref>, max: nat)
    requires Fine(s, M) && HasTable(s, o) && max > 0 && BadMeta(s, o, Metatable, Obj(r)) && IsThread(s, thread)
    requires var s1 := SetObject(s, thread, Thread(stack));
             && Allowed(s, PutStack(thread, stack)) && NobodyHolds(s1, r) && FastPath(s1, p, o)
    ensures GoesWrong(MetaStored(s, o, Obj(r), thread, stack), max)
  {
    var s1 := SetObject(s, thread, Thread(stack));
    var d := Fields(o, Obj(r), Nil);
    FinePhase(s, M);
    AllWeakUnseen(s, o, M);
    StackFine(s, thread, stack, M);
    StackUnseen(s, o, thread, stack);
    StoredIsDressed(s, o, r, thread, stack);
    assert KeepInvariant(s1) && IsWhite(s1, r);
    hide Fine, FastPath, NobodyHolds, Unseen, HasFields, Idle, Dress, Accessible, SetObject, MetaStored, Allowed;
    MarkingWithout(s1, M, r);
    var n := UnseenFrees(s1, M - {r}, d, false, r, p, max);
  }
}
