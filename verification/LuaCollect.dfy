/** The collector's own steps keep the invariant (lgc.c:1048-1101). */
module LuaCollect {
  import opened LuaObjects
  import opened LuaMark
  import opened LuaTraverse
  import opened LuaPropagate
  import opened LuaKeys
  import opened LuaAtomic
  import opened LuaAtomicStep
  import opened LuaSweep
  import opened LuaEvents
  import opened LuaInvariant
  import opened LuaSweepGood

  // ---------- Restarting and propagating ----------

  const MARKING := Context(false, {}, {}, {})

  lemma RestartBase(s: State, M: set<Ref>)
    requires Good(s, M) && s.phase.Pause?
    ensures Inv(Emptied(s), {}, MARKING.(within := M))
  {
    var t := Emptied(s);
    assert forall r :: r in s.heap.objs ==> Current(s, r) || r in s.fixedgc;
    forall o, r | Refers(s.heap, o, r) ensures r in s.heap.objs {
      assert Live(s, o);
      assert Live(s, r);
    }
    hide Follows, Refers;
    forall r | Marked(t.color, r) ensures r in M && IsString(t.heap, r) && IsColor(t.color, r, Gray) {
      assert r in s.heap.objs;
      assert IsRoot(s, r);
    }
    hide RefsMarked;
    assert EveryGrayWaits(t, {}, MARKING.(within := M));
  }

  /** Starting a collection: the roots are queued, and everything else is white. */
  lemma RestartGood(s: State, M: set<Ref>)
    requires Good(s, M) && s.phase.Pause?
    ensures Good(Restart(s), M)
  {
    var c := MARKING.(within := M);
    var s1 := Emptied(s);
    var vs := [Obj(s.mainthread), s.registry] + s.basicmt + ObjValues(s.tobefnz);
    MainThreadWhite(s, M);
    hide Good, Inv, Grow, SlotsSettled, MarkValues, ObjValues, Allocated, ValueIn, KeysKnown, NoNewBlackTable;
    RestartBase(s, M);
    RestartValues(s, M, vs);
    var t := MarkValues(s1, vs);
    MarkValuesKeeps(s1, vs, {}, c);
    MainThreadQueued(s1, vs, c);
    PhaseKeeps(t, Propagate, c);
    RestartKeys(s, M);
    MarkValuesBlacken(s1, vs);
    NoNewKeysKnown(s1, t);
    RestartMarks(s, s1, t, vs, M);
  }

  /** No table is black between two cycles. */
  lemma RestartKeys(s: State, M: set<Ref>)
    requires Good(s, M) && s.phase.Pause?
    ensures KeysKnown(s.heap, s.color)
  {
    NoCursorNothing(s);
    hide Todo, Surrounds, LiveClosed, KeysNotWhite, Listed;
    forall o ensures !IsBlackTable(s.heap, s.color, o) {
      assert o in s.heap.objs ==> Current(s, o) || o in s.fixedgc;
    }
  }

  lemma MainThreadWhite(s: State, M: set<Ref>)
    requires Good(s, M) && s.phase.Pause?
    ensures IsThread(s, s.mainthread) && Current(s, s.mainthread)
  {
    ListedOnce(s);
    assert s.mainthread in s.heap.objs;
  }

  /** Marking, traversing and clearing touch nothing of the frame, and take nothing out of what surrounds it. */
  lemma FrameStays(s: State, t: State)
    requires Frame(s) && AllObjects(t) == AllObjects(s) && t.heap.objs.Keys == s.heap.objs.Keys
    requires t.color.Keys == s.color.Keys && t.finalizable == s.finalizable
    requires forall r :: r in t.finobj || r in t.tobefnz <==> r in s.finobj || r in s.tobefnz
    requires t.fixedgc == s.fixedgc && t.mainthread == s.mainthread && t.running == s.running && t.nextref == s.nextref
    requires forall r :: IsColor(s.color, r, Gray) ==> IsColor(t.color, r, Gray) || !IsString(s.heap, r)
    requires forall r :: IsString(s.heap, r) ==> IsString(t.heap, r)
    requires forall r :: IsThread(s, r) ==> IsThread(t, r)
    requires KeysOld(t.heap, t.nextref)
    ensures Frame(t)
  {
    hide KeysOld, AllObjects;
  }

  lemma ThinKeysOld(h: Heap, k: Heap, nextref: Ref)
    requires Thins(h, k) && KeysOld(h, nextref)
    ensures KeysOld(k, nextref)
  {
    forall o, n: Node | o in k.objs && k.objs[o].Table? && n in k.objs[o].hash && n.key.Obj? ensures n.key.ref < nextref {
      assert o in h.objs;
      assert HasKey(h.objs[o].hash, n.key);
    }
  }

  lemma SurroundsStays(s: State, t: State, M: set<Ref>)
    requires Surrounds(s, M) && Thins(s.heap, t.heap)
    requires forall r :: IsRoot(t, r) || r in t.finobj ==> IsRoot(s, r) || r in s.finobj
    ensures Surrounds(t, M)
  {
    ThinFollows(s.heap, t.heap, M);
    hide Follows, Thins, IsRoot;
    assert forall o :: o in t.heap.objs ==> o in s.heap.objs by { ThinKeys(s.heap, t.heap); }
  }

  lemma ThinKeys(h: Heap, k: Heap)
    requires Thins(h, k)
    ensures h.objs.Keys == k.objs.Keys && h.cells == k.cells
  {
  }

  lemma RestartFrame(s: State, s1: State, t: State, M: set<Ref>)
    requires Frame(s) && Surrounds(s, M) && s1 == Emptied(s) && Grow(s1, t)
    ensures Frame(t.(phase := Propagate)) && Surrounds(t.(phase := Propagate), M)
  {
    var u := t.(phase := Propagate);
    assert AllObjects(u) == AllObjects(s);
    assert RootValues(u) == RootValues(s);
    assert forall r :: Marked(s.color, r) ==> u.color[r] == s.color[r];
    assert KeysOld(u.heap, u.nextref);
    hide KeysOld, RootValues, AllObjects;
    FrameStays(s, u);
    SurroundsStays(s, u, M);
  }

  lemma RestartMarks(s: State, s1: State, t: State, vs: seq<Value>, M: set<Ref>)
    requires Good(s, M) && s.phase.Pause? && s1 == Emptied(s) && Grow(s1, t) && SlotsSettled(t.color, vs)
    requires Obj(s.mainthread) in vs && forall r :: r in s.tobefnz ==> Obj(r) in vs
    requires Inv(t.(phase := Propagate), {}, MARKING.(within := M)) && t.gray != [] && KeysKnown(t.heap, t.color)
    ensures Good(t.(phase := Propagate), M)
  {
    var u := t.(phase := Propagate);
    hide Inv, Frame, Surrounds, Refers, LiveClosed, RestIsWhite, KeysKnown;
    RestartFrame(s, s1, t, M);
    forall r ensures !IsDead(u, r) {
      assert !IsDead(s, r);
    }
    assert forall r :: r in s.tobefnz ==> Marked(u.color, r);
    forall v | v in RootValues(u) ensures Allocated(u.heap, v) {
      if v.Obj? {
        assert IsRoot(s, v.ref);
        assert Live(s, v.ref);
      }
    }
  }

  lemma RestartValues(s: State, M: set<Ref>, vs: seq<Value>)
    requires Good(s, M) && s.phase.Pause?
    requires vs == [Obj(s.mainthread), s.registry] + s.basicmt + ObjValues(s.tobefnz)
    ensures forall v :: v in vs ==> ValueIn(v, M) && Allocated(s.heap, v)
    ensures vs != [] && vs[0] == Obj(s.mainthread) && forall r :: r in s.tobefnz ==> Obj(r) in vs
    ensures Obj(s.mainthread) in vs && forall v :: v in RootValues(s) && v != Obj(s.running) ==> v in vs
  {
    forall v | v in vs ensures ValueIn(v, M) && Allocated(s.heap, v) {
      if v.Obj? {
        assert v.ref == s.mainthread || v in RootValues(s) || v.ref in s.tobefnz;
        assert IsRoot(s, v.ref);
        assert Live(s, v.ref);
      }
    }
    forall r | r in s.tobefnz ensures Obj(r) in vs {
      var i :| 0 <= i < |s.tobefnz| && s.tobefnz[i] == r;
      assert ObjValues(s.tobefnz)[i] == Obj(r);
    }
  }

  /** The main thread is white at a restart, so it is queued. */
  lemma MainThreadQueued(s: State, vs: seq<Value>, c: Context)
    requires Inv(s, {}, c) && vs != [] && vs[0] == Obj(s.mainthread) && IsThread(s, s.mainthread) && Current(s, s.mainthread)
    requires forall v :: v in vs ==> ValueIn(v, c.within) && Allocated(s.heap, v)
    ensures MarkValues(s, vs).gray != []
  {
    assert IsWhite(s, s.mainthread);
    var s1 := MarkValue(s, vs[0]);
    assert s1 == ReallyMark(s, s.mainthread);
    assert s1.gray == [s.mainthread] + s.gray;
    assert vs == [vs[0]] + vs[1..];
    MarkValueKeeps(s, vs[0], {}, c);
    MarkValuesKeeps(s1, vs[1..], {}, c);
    assert s.mainthread in MarkValues(s1, vs[1..]).gray;
  }

  lemma PhaseKeeps(s: State, phase: Phase, c: Context)
    requires Inv(s, {}, c) && !s.phase.InsideAtomic? && !phase.InsideAtomic?
    ensures Inv(s.(phase := phase), {}, c)
  {
    hide RefsMarked, Follows;
    assert forall o :: Waits(s, o, c) ==> Waits(s.(phase := phase), o, c);
    hide Waits;
    assert WeakLists(s.(phase := phase), c);
  }

  // ---------- Propagating ----------

  lemma TraversesFrameStays(s: State, t: State, M: set<Ref>)
    requires Frame(s) && Surrounds(s, M) && Traverses(s, t)
    ensures Frame(t) && Surrounds(t, M) && RootValues(t) == RootValues(s)
  {
    SameShapeThins(s.heap, t.heap);
    ThinRefers(s.heap, t.heap);
    assert AllObjects(t) == AllObjects(s);
    forall r | IsThread(s, r) ensures IsThread(t, r) {
      assert r in t.heap.objs;
    }
    ThinKeysOld(s.heap, t.heap, s.nextref);
    hide KeysOld, SameShape, Thins;
    FrameStays(s, t);
    SurroundsStays(s, t, M);
  }

  /** Everything else that holds while objects are being marked. */
  ghost predicate Marks(s: State) {
    && (forall v :: v in RootValues(s) ==> Allocated(s.heap, v))
    && (forall r :: !IsDead(s, r))
    && (forall r :: r in s.tobefnz ==> Marked(s.color, r))
    && Marked(s.color, s.mainthread)
    && s.sweepgc == NoCursor
  }

  lemma TraversesMarking(s: State, t: State)
    requires Marks(s) && Traverses(s, t)
    ensures Marks(t)
  {
    TraversesFrame(s, t);
    TraversesWhite(s, t);
    hide SameShape, FixedStay, Traverses;
  }

  lemma TraversesWhite(s: State, t: State)
    requires Traverses(s, t) && forall r :: !IsDead(s, r)
    ensures forall r :: !IsDead(t, r)
    ensures RootValues(t) == RootValues(s) && t.tobefnz == s.tobefnz && t.mainthread == s.mainthread && t.sweepgc == s.sweepgc
  {
    hide SameShape, FixedStay;
    forall r ensures !IsDead(t, r) {
      assert !IsDead(s, r);
    }
  }

  lemma MarkingParts(s: State, M: set<Ref>)
    requires Good(s, M) && KeepInvariant(s)
    ensures Frame(s) && Surrounds(s, M) && Inv(s, {}, MARKING.(within := M)) && s.weak == [] && s.ephemeron == []
    ensures Marks(s) && (s.phase.Propagate? ==> s.gray != []) && KeysKnown(s.heap, s.color)
  {
    hide Frame, Surrounds, Inv, KeysKnown;
  }

  /** A step of the propagate phase. */
  lemma PropagateGood(s: State, M: set<Ref>)
    requires Good(s, M) && s.phase.Propagate?
    ensures Good(SingleStep(s, 0, false), M) && SingleStep(s, 0, false).gray == PropagateMark(s).gray
  {
    var c := MARKING.(within := M);
    var t := PropagateMark(s);
    MarkingParts(s, M);
    hide Good, Frame, Surrounds, Traverses, PropagateMark, Marks, KeysKnown;
    PopColor(s, c);
    HeapDomains(s, {}, c);
    hide Inv;
    PropagateKeysKnown(s);
    PropagateMarkKeeps(s, c);
    TraversesMarking(s, t);
    TraversesFrameStays(s, t, M);
    PhaseKeeps(t, Atomic, c);
    PhaseFrame(t, Atomic, M);
    PropagateLands(s, t, M);
  }

  lemma PhaseFrame(s: State, phase: Phase, M: set<Ref>)
    requires Frame(s) && Surrounds(s, M)
    ensures Frame(s.(phase := phase)) && Surrounds(s.(phase := phase), M)
  {
    var t := s.(phase := phase);
    assert AllObjects(t) == AllObjects(s);
    assert forall r :: IsRoot(t, r) == IsRoot(s, r);
    hide IsRoot, AllObjects;
  }

  lemma PropagateLands(s: State, t: State, M: set<Ref>)
    requires Frame(t) && Surrounds(t, M) && Frame(t.(phase := Atomic)) && Surrounds(t.(phase := Atomic), M)
    requires Inv(t, {}, MARKING.(within := M)) && Inv(t.(phase := Atomic), {}, MARKING.(within := M))
    requires Marks(t) && KeysKnown(t.heap, t.color) && t.weak == [] && t.ephemeron == [] && t.phase.Propagate?
    ensures Good(if t.gray == [] then t.(phase := Atomic) else t, M)
  {
    hide Frame, Surrounds, Inv, KeysKnown;
    var u := t.(phase := Atomic);
    assert forall r :: IsDead(u, r) == IsDead(t, r);
  }

  // ---------- The atomic step ----------

  /** The last step of marking starts: the tables on 'allweak' were listed without being traversed. */
  lemma FinalStart(s: State, M: set<Ref>)
    requires Inv(s, {}, MARKING.(within := M)) && s.weak == [] && s.ephemeron == []
    ensures Inv(s, {}, FinalContext(s, M)) && FinalContext(s, M) == Pending(FinalContext(s, M), [])
  {
    var c, d := MARKING.(within := M), FinalContext(s, M);
    hide RefsMarked, Follows, Refers;
    assert forall o :: Waits(s, o, c) ==> Waits(s, o, d);
    hide Waits;
    assert WeakLists(s, d);
    hide GrayTable, AllWeakTable, WeakValueTable, EphemeronTable;
  }

  /** What is known of the state in which the whites are exchanged. */
  ghost predicate AllMarked(s: State, M: set<Ref>) {
    && MarksClosed(s) && Within(s.color, M)
    && (forall r :: IsRoot(s, r) || r in s.finobj ==> r in s.heap.objs && Marked(s.color, r))
    && (forall r :: !IsDead(s, r))
  }

  function Flipped(s: State): State {
    s.(white := !s.white, phase := SweepAllGc, sweepgc := Head(AllGc))
  }

  /** After the flip what is marked is live, and what is white is dead. */
  lemma FlipLive(s: State, r: Ref)
    requires s.color.Keys == s.heap.objs.Keys && forall x :: !IsDead(s, x)
    ensures Live(Flipped(s), r) == Marked(s.color, r)
    ensures IsDead(Flipped(s), r) <==> r in s.heap.objs && !Marked(s.color, r)
  {
    assert !IsDead(s, r);
  }

  lemma FlipClosed(s: State)
    requires MarksClosed(s) && s.color.Keys == s.heap.objs.Keys && forall x :: !IsDead(s, x)
    ensures LiveClosed(Flipped(s))
  {
    var t := Flipped(s);
    hide Refers;
    forall o, r | Live(t, o) && Refers(t.heap, o, r) ensures Live(t, r) {
      FlipLive(s, o);
      FlipLive(s, r);
    }
  }

  lemma FlipFrame(s: State, M: set<Ref>)
    requires Frame(s) && Surrounds(s, M)
    ensures Frame(Flipped(s)) && Surrounds(Flipped(s), M)
    ensures forall r :: IsRoot(Flipped(s), r) == IsRoot(s, r)
  {
    var t := Flipped(s);
    assert AllObjects(t) == AllObjects(s);
    assert forall r :: IsRoot(t, r) == IsRoot(s, r);
    hide IsRoot, AllObjects;
  }

  lemma FlipRest(s: State)
    requires Frame(s)
    ensures RestIsWhite(Flipped(s))
    ensures forall r :: r in Todo(Flipped(s), Head(AllGc)) <==> r in s.allgc
    ensures CursorInPlace(Flipped(s))
  {
    var t := Flipped(s);
    ListedOnce(s);
    assert Todo(t, Head(AllGc)) == s.allgc;
    hide Listed, NoDup, Frame;
  }

  lemma FlipDead(s: State, M: set<Ref>)
    requires Frame(s) && AllMarked(s, M)
    ensures DeadInTodo(Flipped(s)) && OutsideDead(Flipped(s), M) && DeadAreOrdinary(Flipped(s))
    ensures forall r :: IsRoot(s, r) ==> Live(Flipped(s), r)
  {
    var t := Flipped(s);
    FlipRest(s);
    ListedOnce(s);
    assert s.color.Keys == s.heap.objs.Keys;
    hide Listed, NoDup, Frame, Todo, RestIsWhite, CursorInPlace, MarksClosed, RootValues;
    forall r ensures Live(t, r) == Marked(s.color, r) && (IsDead(t, r) <==> r in s.heap.objs && !Marked(s.color, r)) {
      FlipLive(s, r);
    }
    forall r | IsDead(t, r) ensures r in Todo(t, t.sweepgc) && r !in s.finobj && r !in s.tobefnz {
      assert !IsRoot(s, r);
    }
  }

  /** Exchanging the whites when everything marked refers to marked objects only: exactly the unmarked are dead. */
  lemma FlipGood(s: State, M: set<Ref>)
    requires Frame(s) && Surrounds(s, M) && AllMarked(s, M)
    ensures Good(Flipped(s), M)
  {
    FlipFrame(s, M);
    FlipRest(s);
    FlipDead(s, M);
    assert s.color.Keys == s.heap.objs.Keys;
    FlipClosed(s);
    hide Frame, Surrounds, IsRoot, LiveClosed, DeadAreOrdinary, RestIsWhite, DeadInTodo, OutsideDead, CursorInPlace, Live,
      Todo, Listed;
    SweepWhole(Flipped(s), M);
  }

  /** What the steps of the atomic phase do to the frame. */
  lemma RisesFrameStays(s: State, t: State, M: set<Ref>)
    requires Frame(s) && Surrounds(s, M) && Rises(s, t) && SameFinalizers(s, t)
    requires t.color.Keys == s.color.Keys
    ensures Frame(t) && Surrounds(t, M)
  {
    ThinRefers(s.heap, t.heap);
    ThinKeys(s.heap, t.heap);
    assert AllObjects(t) == AllObjects(s) by { SameLists0(s, t); }
    SameMembers(s, t);
    assert RootValues(t) == RootValues(s);
    hide AllObjects;
    forall r | IsThread(s, r) ensures IsThread(t, r) {
      assert r in t.heap.objs;
    }
    ThinKeysOld(s.heap, t.heap, s.nextref);
    hide Thins, Refers, RootValues, KeysOld;
    FrameStays(s, t);
    SurroundsStays(s, t, M);
  }

  lemma SameLists0(s: State, t: State)
    requires SameFinalizers(s, t) && t.allgc == s.allgc && t.fixedgc == s.fixedgc && t.mainthread == s.mainthread
    ensures AllObjects(t) == AllObjects(s)
  {
    assert AllObjects(t) == multiset(t.allgc) + (multiset(t.finobj) + multiset(t.tobefnz)) + multiset(t.fixedgc) + multiset{t.mainthread};
    assert AllObjects(s) == multiset(s.allgc) + (multiset(s.finobj) + multiset(s.tobefnz)) + multiset(s.fixedgc) + multiset{s.mainthread};
  }

  lemma SameMembers(s: State, t: State)
    requires SameFinalizers(s, t)
    ensures forall r :: r in t.finobj || r in t.tobefnz <==> r in s.finobj || r in s.tobefnz
  {
    forall r ensures r in t.finobj || r in t.tobefnz <==> r in s.finobj || r in s.tobefnz {
      assert r in t.finobj || r in t.tobefnz <==> r in multiset(t.finobj) + multiset(t.tobefnz);
      assert r in s.finobj || r in s.tobefnz <==> r in multiset(s.finobj) + multiset(s.tobefnz);
    }
  }

  lemma RootsAreAllocated(s: State, t: State, M: set<Ref>)
    requires Frame(s) && Surrounds(s, M) && Marks(t) && t.heap.objs.Keys == s.heap.objs.Keys
    requires RootValues(t) == RootValues(s) && t.finobj == s.finobj && t.tobefnz == s.tobefnz
    ensures RootsAllocated(t, M)
  {
    ListedOnce(s);
    hide Listed, NoDup, Closed, RootValues;
    forall v | v in RootValues(t) ensures ValueIn(v, M) && Allocated(t.heap, v) {
      if v.Obj? {
        assert IsRoot(s, v.ref);
      }
    }
  }

  lemma EnterRises(s: State, t: State)
    requires Traverses(s.(phase := InsideAtomic), t) && s.phase.Atomic?
    ensures Rises(s, t)
    ensures t.finobj == s.finobj && t.tobefnz == s.tobefnz && t.phase.InsideAtomic?
  {
    TraversesRises(s.(phase := InsideAtomic), t);
    hide Thins, Traverses;
  }

  /** Up to the point where all that is strongly accessible has been marked. */
  lemma AtomicMarks(s: State, M: set<Ref>)
    requires Good(s, M) && s.phase.Atomic?
    ensures var t := AtomicMark(PropagateAll(s)); var c := FinalContext(s, M);
            && Inv(t, {}, c) && AllDone(t) && Rises(s, t) && t.phase.InsideAtomic? && t.gray == []
            && t.finobj == s.finobj && t.tobefnz == s.tobefnz && SlotsSettled(t.color, RootValues(s))
  {
    var c := FinalContext(s, M);
    MarkingParts(s, M);
    hide Good, Inv, Frame, Surrounds, Traverses, Rises, Marks, PropagateAll, AtomicMark, AllDone, RootsAllocated, RootValues,
      SlotsSettled;
    FinalStart(s, M);
    PropagateAllKeeps(s, c);
    var s1 := PropagateAll(s);
    TraversesMarking(s, s1);
    TraversesFrame(s, s1);
    TraversesRises(s, s1);
    TraversesRoots(s, s1);
    RootsAreAllocated(s, s1, M);
    AtomicMarkKeeps(s1, c);
    EnterRises(s1, AtomicMark(s1));
    RisesTransitive(s, s1, AtomicMark(s1));
  }

  lemma TraversesRoots(s: State, t: State)
    requires Traverses(s, t)
    ensures RootValues(t) == RootValues(s)
  {
  }

  lemma RisesRoots(s: State, t: State)
    requires Rises(s, t)
    ensures RootValues(t) == RootValues(s) && t.mainthread == s.mainthread && t.fixedgc == s.fixedgc
    ensures forall r :: Marked(s.color, r) ==> Marked(t.color, r)
    ensures t.heap.objs.Keys == s.heap.objs.Keys && t.color.Keys == s.color.Keys
    ensures t.white == s.white
    ensures (forall r :: !IsDead(s, r)) ==> forall r :: !IsDead(t, r)
  {
    hide Thins, FixedStay, RootValues;
    if forall r :: !IsDead(s, r) {
      forall r ensures !IsDead(t, r) {
        assert !IsDead(s, r);
      }
    }
    assert RootValues(t) == RootValues(s) by { RisesRootValues(s, t); }
    RisesKeys(s, t);
  }

  lemma RisesRootValues(s: State, t: State)
    requires Rises(s, t)
    ensures RootValues(t) == RootValues(s)
  {
  }

  lemma InvWithin(s: State, c: Context)
    requires Inv(s, {}, c)
    ensures Within(s.color, c.within) && s.color.Keys == s.heap.objs.Keys
  {
  }

  /** The whole atomic phase up to the flip. */
  lemma AtomicClears(s: State, M: set<Ref>)
    requires Good(s, M) && s.phase.Atomic?
    ensures var t := AtomicClear(AtomicMark(PropagateAll(s)));
            && Frame(t) && Surrounds(t, M) && AllMarked(t, M) && t.sweepgc == NoCursor && Rises(s, t)
  {
    var c := FinalContext(s, M);
    var t := AtomicMark(PropagateAll(s));
    var u := AtomicClear(t);
    FinalizersIn(s, M);
    hide Good, Inv, Traverses, Rises, PropagateAll, AtomicMark, AllDone, RootValues, Listed, NoDup, AtomicClear,
      SameFinalizers, Thins, Frame, Surrounds, Marks, KeysKnown, AllMarked;
    MarkingParts(s, M);
    AtomicMarks(s, M);
    FinalStart(s, M);
    RisesKeys(s, t);
    AtomicClearKeeps(t, c);
    RisesTransitive(s, t, u);
    RisesRoots(t, u);
    RisesRoots(s, u);
    MovedSame(s, t, u);
    RisesFrameStays(s, u, M);
    InvWithin(u, c);
    AtomicMarked(s, t, u, M);
    RisesCursor(s, u);
  }

  lemma FinalizersIn(s: State, M: set<Ref>)
    requires Good(s, M)
    ensures forall r :: r in s.finobj || r in s.tobefnz ==> r in M && r in s.heap.objs
  {
    assert Listed(s);
    ListedOnce(s);
    hide Listed, NoDup, RootValues, Closed;
    assert forall r :: r in s.tobefnz ==> IsRoot(s, r);
  }

  lemma RisesCursor(s: State, t: State)
    requires Rises(s, t)
    ensures t.sweepgc == s.sweepgc
  {
  }

  lemma MovedSame(s: State, t: State, u: State)
    requires t.finobj == s.finobj && t.tobefnz == s.tobefnz && SameFinalizers(t, u)
    ensures SameFinalizers(s, u)
  {
  }

  lemma AtomicMarked(s: State, t: State, u: State, M: set<Ref>)
    requires Frame(u) && Marks(s) && MarksClosed(u) && Within(u.color, M)
    requires SlotsSettled(t.color, RootValues(s)) && RootValues(u) == RootValues(s)
    requires u.mainthread == s.mainthread && (forall r :: !IsDead(u, r)) && u.color.Keys == u.heap.objs.Keys
    requires forall r :: Marked(t.color, r) ==> Marked(u.color, r)
    requires forall r :: Marked(s.color, r) ==> Marked(u.color, r)
    requires forall r :: r in u.finobj || r in u.tobefnz ==> Marked(u.color, r)
    ensures AllMarked(u, M)
  {
    hide MarksClosed, Listed, RootValues;
    forall r | IsRoot(u, r) || r in u.finobj ensures r in u.heap.objs && Marked(u.color, r) {
      if Obj(r) in RootValues(u) {
        assert ValueSettled(t.color, Obj(r));
      }
    }
  }

  /** entersweep: sweeping starts at the head of 'allgc' and stops behind the first object that is not dead. */
  lemma EnterSweepGood(s: State, M: set<Ref>)
    requires Good(s.(phase := SweepAllGc, sweepgc := Head(AllGc)), M)
    ensures Good(EnterSweep(s), M)
  {
    var u := s.(phase := SweepAllGc);
    var p := Head(AllGc);
    assert u.(sweepgc := p) == s.(phase := SweepAllGc, sweepgc := p);
    SweepParts(u.(sweepgc := p), M);
    CursorFree(u, p, M);
    HeadInList(u);
    hide Good, Frame, Surrounds, LiveClosed, DeadAreOrdinary, RestIsWhite, DeadInTodo, OutsideDead, Listed, SweepToLive,
      Stretch, InList;
    var done := SweepToLiveKeeps(u, p, AllGc);
    var (t, r) := SweepToLive(u, p);
    StretchGood(u, p, done, t, r, AllGc, M);
  }

  lemma HeadInList(s: State)
    requires s.phase.SweepAllGc?
    ensures InList(s, Head(AllGc), AllGc) && ListSwept(s, Head(AllGc), AllGc)
  {
  }

  lemma StepIs(s: State, max: nat, emergency: bool)
    ensures s.phase.Pause? ==> SingleStep(s, max, emergency) == Restart(s) && Restart(s).heap == s.heap
    ensures s.phase.Propagate? || s.phase.Atomic? ==> SingleStep(s, max, emergency) == SingleStep(s, 0, false)
    ensures InSweepLists(s) ==> SingleStep(s, max, emergency) == SingleStep(s, max, false)
    ensures s.phase.SweepEnd? ==> SingleStep(s, max, emergency) == MakeWhite(s, s.mainthread).(phase := CallFin)
    ensures s.phase.Propagate? && s.gray != [] ==> SingleStep(s, max, emergency).heap == PropagateMark(s).heap
    ensures s.phase.Atomic? ==> SingleStep(s, max, emergency) == EnterSweep(AtomicStep(PropagateAll(s)))
    ensures s.phase.CallFin? ==>
              SingleStep(s, max, emergency) == (if s.tobefnz != [] && !emergency then CallFinalizer(s) else s.(phase := Pause))
  {
    hide PropagateMark, PropagateAll, AtomicStep, EnterSweep, SweepStep, CallFinalizer;
  }

  /** The atomic step: marking is finished, the whites are exchanged and sweeping starts. */
  lemma AtomicGood(s: State, M: set<Ref>)
    requires Good(s, M) && s.phase.Atomic?
    ensures Good(SingleStep(s, 0, false), M)
  {
    hide Good, Frame, Surrounds, AllMarked, PropagateAll, AtomicMark, AtomicClear, EnterSweep, Rises, SingleStep;
    var t := AtomicClear(AtomicMark(PropagateAll(s)));
    AtomicClears(s, M);
    FlipGood(t, M);
    var u := AtomicStep(PropagateAll(s));
    assert Flipped(t) == u.(phase := SweepAllGc, sweepgc := Head(AllGc));
    EnterSweepGood(u, M);
    StepIs(s, 0, false);
  }

  // ---------- Sweeping ----------

  /** A finished sweep phase is followed by the next. */
  lemma NextPhaseGood(s: State, M: set<Ref>, next: Phase, list: Cursor)
    requires Good(s, M) && InSweepLists(s) && s.sweepgc == NoCursor
    requires match s.phase
             case SweepAllGc => next == SweepFinObj && list == Head(FinObj)
             case SweepFinObj => next == SweepToBeFnz && list == Head(ToBeFnz)
             case _ => next == SweepEnd && list == NoCursor
    ensures Good(s.(phase := next, sweepgc := list), M)
  {
    var t := s.(phase := next, sweepgc := list);
    SweepParts(s, M);
    NextFrame(s, t, M);
    NextRest(s, t);
    hide Frame, Surrounds, LiveClosed, DeadAreOrdinary, RestIsWhite, IsRoot, Live, InList, Todo, CursorInPlace,
      OutsideDead, DeadInTodo;
  }

  lemma NextFrame(s: State, t: State, M: set<Ref>)
    requires Frame(s) && Surrounds(s, M) && t == s.(phase := t.phase, sweepgc := t.sweepgc)
    ensures Frame(t) && Surrounds(t, M) && LiveClosed(t) == LiveClosed(s) && DeadAreOrdinary(t) == DeadAreOrdinary(s)
    ensures forall r :: IsRoot(t, r) == IsRoot(s, r) && Live(t, r) == Live(s, r) && IsDead(t, r) == IsDead(s, r)
    ensures !t.phase.Pause? && !s.phase.Pause? ==> OutsideDead(t, M) == OutsideDead(s, M)
  {
    PhaseFrame(s, t.phase, M);
    CursorFree(s, t.sweepgc, M);
    CursorFree(s.(phase := t.phase), t.sweepgc, M);
    assert t == s.(phase := t.phase).(sweepgc := t.sweepgc);
    assert forall r :: IsRoot(t, r) == IsRoot(s, r) && Live(t, r) == Live(s, r) && IsDead(t, r) == IsDead(s, r);
    hide Frame, Surrounds, IsRoot, Live, Refers, IsDead;
  }

  lemma NextRest(s: State, t: State)
    requires InSweepLists(s) && s.sweepgc == NoCursor && t == s.(phase := t.phase, sweepgc := t.sweepgc)
    requires RestIsWhite(s) && DeadInTodo(s)
    requires match s.phase
             case SweepAllGc => t.phase == SweepFinObj && t.sweepgc == Head(FinObj)
             case SweepFinObj => t.phase == SweepToBeFnz && t.sweepgc == Head(ToBeFnz)
             case _ => t.phase == SweepEnd && t.sweepgc == NoCursor
    ensures RestIsWhite(t) && DeadInTodo(t) && CursorInPlace(t)
  {
    NoCursorNothing(s);
    assert s.phase.SweepAllGc? ==> Todo(t, t.sweepgc) == s.finobj;
    assert s.phase.SweepFinObj? ==> Todo(t, t.sweepgc) == s.tobefnz;
    assert CursorInPlace(t);
    hide Todo, CursorInPlace;
    assert forall r :: IsDead(t, r) == IsDead(s, r) && Current(t, r) == Current(s, r);
  }

  /** sweepstep, with any number of objects swept in one step. */
  lemma SweepStepGood(s: State, max: nat, M: set<Ref>)
    requires Good(s, M) && InSweepLists(s)
    ensures Good(SingleStep(s, max, false), M)
  {
    SweepParts(s, M);
    var l := SweptList(s, M);
    hide Good, Frame, Surrounds, LiveClosed, DeadAreOrdinary, RestIsWhite, DeadInTodo, OutsideDead, Listed,
      Stretch, InList, ListSwept;
    if s.sweepgc == NoCursor {
      NextPhaseGood(s, M, SingleStep(s, max, false).phase, SingleStep(s, max, false).sweepgc);
    } else {
      assert InList(s, s.sweepgc, l) by { SweptInList(s, l); }
      var done := SweepListKeeps(s, s.sweepgc, l, max);
      var (t, r) := SweepList(s, s.sweepgc, max);
      assert s.(sweepgc := s.sweepgc) == s;
      StretchGood(s, s.sweepgc, done, t, r, l, M);
      SweepPhase(s, s.sweepgc, done, t, r, l);
      if r == NoCursor {
        NextPhaseGood(t.(sweepgc := NoCursor), M, SingleStep(s, max, false).phase, SingleStep(s, max, false).sweepgc);
      }
    }
  }

  lemma SweptInList(s: State, l: ListName)
    requires ListSwept(s, s.sweepgc, l)
    ensures InList(s, s.sweepgc, l)
  {
  }

  lemma SweepPhase(s: State, p: Cursor, done: seq<Ref>, t: State, r: Cursor, l: ListName)
    requires Stretch(s, p, done, t, r, l)
    ensures t.phase == s.phase
  {
  }

  lemma SweptList(s: State, M: set<Ref>) returns (l: ListName)
    requires Good(s, M) && InSweepLists(s)
    ensures ListSwept(s, s.sweepgc, l)
  {
    hide Frame, Surrounds, InList, RestIsWhite;
    l := if s.phase.SweepAllGc? then AllGc
         else if s.phase.SweepFinObj? then FinObj
         else if InList(s, s.sweepgc, ToBeFnz) then ToBeFnz
         else AllGc;
  }

  lemma WhiteFrame(s: State, o: Ref, M: set<Ref>)
    requires Frame(s) && Surrounds(s, M) && Live(s, o) && o !in s.fixedgc
    ensures Frame(MakeWhite(s, o)) && Surrounds(MakeWhite(s, o), M)
  {
    var t := MakeWhite(s, o);
    assert AllObjects(t) == AllObjects(s);
    assert forall r :: IsRoot(t, r) == IsRoot(s, r);
    hide IsRoot, AllObjects;
  }

  /** makewhite changes nothing that counts for a live object. */
  lemma WhiteSame(s: State, o: Ref, M: set<Ref>)
    requires Live(s, o)
    ensures var t := MakeWhite(s, o);
            && (forall r :: IsRoot(t, r) == IsRoot(s, r) && Live(t, r) == Live(s, r) && IsDead(t, r) == IsDead(s, r))
            && (forall r :: Current(s, r) ==> Current(t, r)) && Current(t, o)
            && LiveClosed(t) == LiveClosed(s) && DeadAreOrdinary(t) == DeadAreOrdinary(s)
            && Todo(t, t.sweepgc) == Todo(s, s.sweepgc) && Later(t) == Later(s)
  {
    var t := MakeWhite(s, o);
    assert Todo(t, t.sweepgc) == Todo(s, s.sweepgc);
    assert forall r :: IsRoot(t, r) == IsRoot(s, r) && Live(t, r) == Live(s, r) && IsDead(t, r) == IsDead(s, r);
    hide IsRoot, Live, Todo, Refers;
  }

  lemma SweepEndGood(s: State, M: set<Ref>)
    requires Good(s, M) && s.phase.SweepEnd?
    ensures Good(MakeWhite(s, s.mainthread).(phase := CallFin), M)
  {
    var o := s.mainthread;
    var t := MakeWhite(s, o);
    var u := t.(phase := CallFin);
    SweepParts(s, M);
    ListedOnce(s);
    assert IsRoot(s, o) && o !in s.fixedgc;
    hide Good, Listed, NoDup, LiveClosed, DeadAreOrdinary, Frame, Surrounds;
    WhiteFrame(s, o, M);
    WhiteSame(s, o, M);
    NextFrame(t, u, M);
    SweepEndRest(s, t, M);
    hide IsRoot, Live, Todo, IsDead, RestIsWhite, DeadInTodo, OutsideDead;
    SweepWhole(u, M);
  }

  lemma SweepEndRest(s: State, t: State, M: set<Ref>)
    requires s.phase.SweepEnd? && CursorInPlace(s) && RestIsWhite(s) && DeadInTodo(s) && OutsideDead(s, M)
    requires Live(s, s.mainthread) && t == MakeWhite(s, s.mainthread)
    ensures var u := t.(phase := CallFin);
            CursorInPlace(u) && RestIsWhite(u) && DeadInTodo(u) && OutsideDead(u, M)
  {
    var u := t.(phase := CallFin);
    WhiteSame(s, s.mainthread, M);
    NoCursorNothing(s);
    NoCursorNothing(u);
    hide Todo, LiveClosed, DeadAreOrdinary, IsRoot, Live;
    assert forall r :: Current(u, r) == Current(t, r) && IsDead(u, r) == IsDead(t, r);
  }

  /** The end of a cycle: everything left lies within M, and is white. */
  lemma PauseGood(s: State, M: set<Ref>)
    requires Good(s, M) && s.phase.CallFin?
    ensures Good(s.(phase := Pause), M)
    ensures forall r :: r in s.heap.objs ==> r in M && (Current(s, r) || r in s.fixedgc)
  {
    var t := s.(phase := Pause);
    NextFrame(s, t, M);
    NoCursorNothing(s);
    NoCursorNothing(t);
    hide Frame, Surrounds, IsRoot, Live, Todo, LiveClosed, DeadAreOrdinary;
    assert forall r :: Current(t, r) == Current(s, r);
  }

  lemma AbandonFlips(s: State, M: set<Ref>)
    requires Good(s, M) && KeepInvariant(s) && forall r :: r in s.heap.objs ==> r in M
    ensures Good(s.(phase := SweepAllGc, sweepgc := Head(AllGc)), M)
  {
    var t := s.(phase := SweepAllGc, sweepgc := Head(AllGc));
    MarkingParts(s, M);
    NextFrame(s, t, M);
    ListedOnce(s);
    AbandonClosed(s, M);
    assert Todo(t, Head(AllGc)) == s.allgc;
    assert CursorInPlace(t);
    hide Frame, Listed, Surrounds, Good, Inv, NoDup, LiveClosed, CursorInPlace, Todo, IsRoot;
    SweepWhole(t, M);
  }

  /** luaC_fullgc abandons marking by sweeping with the white unchanged: nothing is dead, so nothing is freed. */
  lemma AbandonGood(s: State, M: set<Ref>)
    requires Good(s, M) && KeepInvariant(s) && forall r :: r in s.heap.objs ==> r in M
    ensures Good(AbandonMarking(s), M)
  {
    AbandonFlips(s, M);
    hide Good, EnterSweep;
    EnterSweepGood(s, M);
  }

  lemma AbandonClosed(s: State, M: set<Ref>)
    requires Frame(s) && Inv(s, {}, MARKING.(within := M)) && Marks(s)
    ensures LiveClosed(s) && forall r :: IsRoot(s, r) ==> Live(s, r)
  {
    ListedOnce(s);
    hide Listed, NoDup, RootValues, NoBlackToWhite, Queues, EveryGrayWaits, WeakLists, Closed;
    assert forall r :: Live(s, r) <==> r in s.heap.objs;
    forall r | IsRoot(s, r) ensures Live(s, r) {
      if Obj(r) in RootValues(s) { assert Allocated(s.heap, Obj(r)); }
    }
  }
}
