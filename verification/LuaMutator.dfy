/** The mutator's stores keep the invariant: with their barriers while objects are being marked, without while they are
    being swept (lgc.h:118-132, lapi.c, lfunc.c, ltable.c). */
module LuaMutator {
  import opened LuaObjects
  import opened LuaMark
  import opened LuaTraverse
  import opened LuaPropagate
  import opened LuaKeys
  import opened LuaAtomicStep
  import opened LuaSweep
  import opened LuaEvents
  import opened LuaInvariant
  import opened LuaCollect

  /** The payload is of the same kind. */
  predicate SameKind(p: Payload, q: Payload) {
    p.Table? == q.Table? && p.Thread? == q.Thread? && p.Str? == q.Str? && Traversable(p) == Traversable(q)
  }

  ghost predicate SameKinds(h: Heap, k: Heap) {
    k.objs.Keys == h.objs.Keys && forall o :: o in h.objs && o in k.objs ==> SameKind(h.objs[o], k.objs[o])
  }

  /** Objects keep their colours, but a black one may have become gray, or white. */
  ghost predicate Fades(s: State, t: State) {
    && t.color.Keys == s.color.Keys
    && forall r :: r in s.color && r in t.color ==>
         t.color[r] == s.color[r] || (s.color[r].Black? && (t.color[r].Gray? || t.color[r] == White(s.white)))
  }

  /** What a store may change. */
  ghost predicate Writes(s: State, t: State) {
    && t == s.(heap := t.heap, color := t.color, gray := t.gray, grayagain := t.grayagain, running := t.running,
               registry := t.registry, basicmt := t.basicmt)
    && SameKinds(s.heap, t.heap)
  }

  /** A live object gets references to live objects only, and what becomes a root is live and in M. */
  ghost predicate LiveOperands(s: State, t: State, M: set<Ref>) {
    && (forall o, r :: Live(s, o) && Refers(t.heap, o, r) ==> Refers(s.heap, o, r) || Live(s, r))
    && (forall r :: IsRoot(t, r) ==> IsRoot(s, r) || (Live(s, r) && r in M))
    && IsThread(t, t.running) && Closed(t.heap, M) && KeysOld(t.heap, s.nextref)
  }

  lemma FadesSame(s: State, t: State)
    requires Writes(s, t) && Fades(s, t)
    ensures forall r :: Live(t, r) == Live(s, r) && IsDead(t, r) == IsDead(s, r) && (Current(s, r) ==> Current(t, r))
    ensures Todo(t, t.sweepgc) == Todo(s, s.sweepgc) && Later(t) == Later(s)
  {
    assert Todo(t, t.sweepgc) == Todo(s, s.sweepgc);
    hide Todo;
  }

  lemma WritesFrame(s: State, t: State)
    requires Frame(s) && Writes(s, t) && t.color.Keys == s.color.Keys && IsThread(t, t.running) && KeysOld(t.heap, s.nextref)
    requires forall r :: r in s.fixedgc && IsColor(s.color, r, Gray) ==> IsColor(t.color, r, Gray)
    ensures Frame(t)
  {
    assert AllObjects(t) == AllObjects(s);
    hide AllObjects, Traversable, KeysOld;
    forall r | r in s.fixedgc ensures IsString(t.heap, r) {
      assert IsString(s.heap, r) && r in t.heap.objs;
    }
    assert s.mainthread in t.heap.objs;
  }

  lemma WritesCursor(s: State, t: State, M: set<Ref>)
    requires Writes(s, t) && Fades(s, t)
    ensures CursorInPlace(s) ==> CursorInPlace(t)
    ensures RestIsWhite(s) ==> RestIsWhite(t)
    ensures DeadInTodo(s) ==> DeadInTodo(t)
    ensures OutsideDead(s, M) ==> OutsideDead(t, M)
    ensures DeadAreOrdinary(s) ==> DeadAreOrdinary(t)
  {
    FadesSame(s, t);
    assert forall l :: InList(t, t.sweepgc, l) == InList(s, s.sweepgc, l);
    hide Todo, InList, Current, Live, IsDead, SameKind, Later, Fades;
  }

  lemma WritesClosed(s: State, t: State, M: set<Ref>)
    requires LiveClosed(s) && Writes(s, t) && Fades(s, t) && LiveOperands(s, t, M)
    ensures LiveClosed(t)
  {
    FadesSame(s, t);
    hide Live, Refers, IsRoot, Fades, Writes, Closed, KeysOld;
  }

  /** While objects are being swept, and between cycles, a store needs no barrier. */
  lemma SweepingStore(s: State, t: State, M: set<Ref>)
    requires Good(s, M) && !KeepInvariant(s)
    requires Writes(s, t) && Fades(s, t) && LiveOperands(s, t, M)
    ensures Good(t, M)
  {
    FadesSame(s, t);
    WritesCursor(s, t, M);
    WritesClosed(s, t, M);
    assert forall r :: r in s.fixedgc && IsColor(s.color, r, Gray) ==> IsColor(t.color, r, Gray);
    hide SameKinds, Fades, LiveClosed, CursorInPlace, RestIsWhite, DeadInTodo, OutsideDead, DeadAreOrdinary, Live, IsDead,
      KeysOld, Closed, Refers, Listed, Todo, Later;
    WritesFrame(s, t);
    hide Frame, IsThread;
    assert Surrounds(t, M);
    hide Surrounds, Writes;
  }

  // ---------- Stores while objects are being marked ----------

  /** A table on 'allweak' has its metatable marked: a plain metatable store can break this (see BadMeta). */
  ghost predicate MetatablesSettled(s: State, t: State) {
    forall o :: o in s.allweak && o in t.heap.objs && t.heap.objs[o].Table? ==>
      ValueSettled(t.color, t.heap.objs[o].metatable)
  }

  lemma StoreWaits(s: State, t: State, X: set<Ref>, c: Context)
    requires EveryGrayWaits(s, {}, c) && !c.final && SameKinds(s.heap, t.heap)
    requires t.color == s.color && t.gray == s.gray && t.grayagain == s.grayagain && t.allweak == s.allweak && t.phase == s.phase
    ensures EveryGrayWaits(t, X, c)
  {
    forall o | o in t.heap.objs && IsColor(t.color, o, Gray) ensures Waits(t, o, c) {
      assert o in s.heap.objs;
      assert Waits(s, o, c);
    }
  }

  lemma StoreQueues(s: State, t: State, c: Context)
    requires Queues(s, c) && !c.final && SameKinds(s.heap, t.heap)
    requires t.color == s.color && t.gray == s.gray && t.grayagain == s.grayagain && t.allweak == s.allweak && t.phase == s.phase
    ensures Queues(t, c)
  {
    assert forall r :: r in s.heap.objs && Traversable(s.heap.objs[r]) ==> r in t.heap.objs && Traversable(t.heap.objs[r]);
  }

  lemma StoreAllWeak(s: State, t: State, c: Context)
    requires WeakLists(s, c) && !c.final && SameKinds(s.heap, t.heap) && MetatablesSettled(s, t)
    requires t.color == s.color && t.allweak == s.allweak
    ensures WeakLists(t, c)
  {
    forall o | o in t.allweak ensures GrayTable(t.heap, t.color, o) {
      assert GrayTable(s.heap, s.color, o);
    }
  }

  ghost predicate BlacksSettled(s: State, t: State, X: set<Ref>) {
    forall o :: o in t.heap.objs && o !in X && IsColor(s.color, o, Black) ==> RefsMarked(t.heap, s.color, o)
  }

  lemma StoreBlacks(s: State, t: State, X: set<Ref>)
    requires NoBlackToWhite(s.heap, s.color, {}) && BlacksSettled(s, t, X) && SameKinds(s.heap, t.heap)
    ensures NoBlackToWhite(t.heap, s.color, X)
  {
    hide RefsMarked, Traversable;
    forall o | o in t.heap.objs && o !in X && IsColor(s.color, o, Black)
      ensures !t.heap.objs[o].Thread? && RefsMarked(t.heap, s.color, o)
    {
      assert o in s.heap.objs;
    }
  }

  /** The store itself: the objects that now break the invariant are in flight until the barrier has been passed. */
  lemma StoreKeeps(s: State, t: State, X: set<Ref>, M: set<Ref>)
    requires Inv(s, {}, MARKING.(within := M)) && Writes(s, t)
    requires t.color == s.color && t.gray == s.gray && t.grayagain == s.grayagain
    requires BlacksSettled(s, t, X) && MetatablesSettled(s, t) && HeapClosed(t.heap) && Closed(t.heap, M)
    ensures Inv(t, X, MARKING.(within := M))
  {
    var c := MARKING.(within := M);
    assert t.allweak == s.allweak && t.phase == s.phase && SameKinds(s.heap, t.heap);
    StoreWaits(s, t, X, c);
    StoreQueues(s, t, c);
    StoreAllWeak(s, t, c);
    StoreBlacks(s, t, X);
    hide SameKinds, RefsMarked, Queues, EveryGrayWaits, WeakLists, NoBlackToWhite, Closed, HeapClosed, BlacksSettled,
      MetatablesSettled;
  }

  /** Objects in flight that are black land together. */
  lemma LandBlacks(s: State, X: set<Ref>, c: Context)
    requires Inv(s, X, c)
    requires forall o :: o in X ==> IsColor(s.color, o, Black) && (o in s.heap.objs ==>
               !s.heap.objs[o].Thread? && RefsMarked(s.heap, s.color, o))
    ensures Inv(s, {}, c)
  {
    hide RefsMarked, Waits, WeakLists, Queues, HeapClosed, Closed;
  }

  lemma WritesMarks(s: State, t: State)
    requires Marks(s) && Writes(s, t) && MarksRise(s.color, t.color)
    requires forall v :: v in RootValues(t) ==> Allocated(t.heap, v)
    ensures Marks(t)
  {
    hide RootValues, SameKinds;
    forall r ensures !IsDead(t, r) {
      assert !IsDead(s, r);
    }
  }

  lemma MarkingWhole(s: State, M: set<Ref>)
    requires Frame(s) && Surrounds(s, M) && Inv(s, {}, MARKING.(within := M)) && Marks(s) && KeepInvariant(s)
    requires s.weak == [] && s.ephemeron == [] && (s.phase.Propagate? ==> s.gray != []) && KeysKnown(s.heap, s.color)
    ensures Good(s, M)
  {
    hide Frame, Surrounds, Inv, KeysKnown;
  }

  /** What becomes a root is allocated and in M. */
  ghost predicate RootOperands(s: State, t: State, M: set<Ref>) {
    && (forall r :: IsRoot(t, r) ==> IsRoot(s, r) || (r in s.heap.objs && r in M))
    && IsThread(t, t.running) && KeysOld(t.heap, s.nextref)
  }

  lemma RootOperandsAllocated(s: State, t: State, M: set<Ref>)
    requires Frame(s) && Marks(s) && RootOperands(s, t, M) && t.heap.objs.Keys == s.heap.objs.Keys
    ensures forall v :: v in RootValues(t) ==> Allocated(t.heap, v)
  {
    ListedOnce(s);
    hide Listed, NoDup, RootValues, IsThread, KeysOld;
    forall v | v in RootValues(t) ensures Allocated(t.heap, v) {
      if v.Obj? {
        assert IsRoot(t, v.ref);
        if IsRoot(s, v.ref) && Obj(v.ref) in RootValues(s) {
          assert Allocated(s.heap, Obj(v.ref));
        }
      }
    }
  }

  lemma WritesSurrounds(s: State, t: State, M: set<Ref>)
    requires Surrounds(s, M) && Writes(s, t) && Closed(t.heap, M) && RootOperands(s, t, M)
    ensures Surrounds(t, M)
  {
    hide IsRoot, SameKinds, IsThread, Closed, KeysOld;
  }

  /** The store and its barrier have kept the invariant of marking: the rest follows. */
  lemma MarkingStore(s: State, t: State, M: set<Ref>)
    requires Good(s, M) && KeepInvariant(s) && Writes(s, t) && Inv(t, {}, MARKING.(within := M))
    requires MarksRise(s.color, t.color) && RootOperands(s, t, M)
    requires forall r :: r in s.fixedgc && IsColor(s.color, r, Gray) ==> IsColor(t.color, r, Gray)
    requires (s.gray != [] ==> t.gray != []) && KeysKnown(t.heap, t.color)
    ensures Good(t, M)
  {
    MarkingParts(s, M);
    WritesPlain(s, t);
    InvCloses(t, M);
    hide Good, Marks, Inv, Closed, Surrounds, Frame, RootOperands, Writes, IsRoot, RootValues, KeysOld,
      KeysKnown;
    RunsThread(s, t, M);
    WritesFrame(s, t);
    RootOperandsAllocated(s, t, M);
    WritesMarks(s, t);
    WritesSurrounds(s, t, M);
    MarkingWhole(t, M);
  }

  lemma RunsThread(s: State, t: State, M: set<Ref>)
    requires RootOperands(s, t, M)
    ensures IsThread(t, t.running) && KeysOld(t.heap, s.nextref)
  {
  }

  lemma WritesPlain(s: State, t: State)
    requires Writes(s, t)
    ensures t.heap.objs.Keys == s.heap.objs.Keys && t.phase == s.phase && t.weak == s.weak && t.ephemeron == s.ephemeron
    ensures t.allweak == s.allweak && t.fixedgc == s.fixedgc
  {
  }

  lemma InvCloses(s: State, M: set<Ref>)
    requires Inv(s, {}, MARKING.(within := M))
    ensures Closed(s.heap, M)
  {
  }

  // ---------- Operands the program holds ----------

  /** A set closed under all references is closed under those the collector follows. */
  lemma ClosedFollows(h: Heap, M: set<Ref>)
    requires ClosedUnderRefs(h, M)
    ensures Closed(h, M)
  {
    forall o | o in M && o in h.objs ensures Follows(h, o, M) {
      if h.objs[o].Table? {
        forall v | v in h.objs[o].slots && v.Obj? ensures v.ref in M {
          assert Refers(h, o, v.ref);
        }
        forall n | n in h.objs[o].hash && !n.val.Nil?
          ensures (n.key.Obj? ==> n.key.ref in M) && (n.val.Obj? ==> n.val.ref in M)
        {
          if n.key.Obj? { assert Refers(h, o, n.key.ref); }
          if n.val.Obj? { assert Refers(h, o, n.val.ref); }
        }
        if h.objs[o].metatable.Obj? { assert Refers(h, o, h.objs[o].metatable.ref); }
      }
    }
  }

  predicate Held(s: State, v: Value, M: set<Ref>) {
    v.Obj? ==> Live(s, v.ref) && v.ref in M
  }

  /** A store of values that the program holds. */
  ghost predicate HeldStore(s: State, t: State, M: set<Ref>) {
    && Writes(s, t)
    && (forall o, r :: Refers(t.heap, o, r) ==> Refers(s.heap, o, r) || (Live(s, r) && r in M))
    && (forall r :: IsRoot(t, r) ==> IsRoot(s, r) || (Live(s, r) && r in M))
    && IsThread(t, t.running) && KeysOld(t.heap, s.nextref)
  }

  lemma HeldClosed(s: State, t: State, M: set<Ref>)
    requires HeldStore(s, t, M) && ClosedUnderRefs(s.heap, M)
    ensures ClosedUnderRefs(t.heap, M) && Closed(t.heap, M) && Writes(s, t)
    ensures HeapClosed(s.heap) ==> HeapClosed(t.heap)
    ensures LiveOperands(s, t, M) && RootOperands(s, t, M)
  {
    hide Refers, IsRoot, KeysOld, IsThread;
    assert forall r :: r in s.heap.objs ==> r in t.heap.objs;
    assert forall r :: Live(s, r) ==> r in s.heap.objs;
    hide Live, SameKinds;
    ClosedFollows(t.heap, M);
    hide Closed;
  }

  lemma HeldSweeping(s: State, t: State, M: set<Ref>)
    requires Good(s, M) && !KeepInvariant(s) && ClosedUnderRefs(s.heap, M)
    requires HeldStore(s, t, M) && Fades(s, t)
    ensures Good(t, M) && ClosedUnderRefs(t.heap, M)
  {
    hide Good, HeldStore, Fades, Writes, LiveOperands, ClosedUnderRefs, Closed, RootOperands, HeapClosed;
    HeldClosed(s, t, M);
    SweepingStore(s, t, M);
  }

  // ---------- A store into one object ----------

  /** In heap k object o holds what it held in h, and perhaps v. */
  ghost predicate OneMore(h: Heap, k: Heap, o: Ref, v: Value) {
    && SameKinds(h, k) && k.cells == h.cells
    && (forall p :: p in h.objs && p in k.objs && p != o ==> k.objs[p] == h.objs[p])
    && (forall r :: Refers(k, o, r) ==> Refers(h, o, r) || v == Obj(r))
  }

  lemma OneMoreRefs(h: Heap, k: Heap, o: Ref, v: Value)
    requires OneMore(h, k, o, v)
    ensures forall p, r :: Refers(k, p, r) ==> Refers(h, p, r) || (p == o && v == Obj(r))
  {
    forall p, r | Refers(k, p, r) ensures Refers(h, p, r) || (p == o && v == Obj(r)) {
      assert p in h.objs;
    }
  }

  lemma OneHeld(s: State, t: State, o: Ref, v: Value, M: set<Ref>)
    requires Good(s, M) && t == s.(heap := t.heap, color := t.color, gray := t.gray, grayagain := t.grayagain)
    requires OneMore(s.heap, t.heap, o, v) && Held(s, v, M) && KeysOld(t.heap, s.nextref)
    ensures HeldStore(s, t, M)
  {
    OneMoreRefs(s.heap, t.heap, o, v);
    assert IsThread(s, s.running);
    hide Refers, KeysOld, Good, Live;
    assert forall r :: IsRoot(t, r) ==> IsRoot(s, r);
    hide IsRoot;
    assert s.running in t.heap.objs;
  }

  function Flight(s: State, o: Ref): set<Ref> {
    if IsColor(s.color, o, Black) then {o} else {}
  }

  lemma OneBlacks(s: State, t: State, o: Ref, v: Value)
    requires NoBlackToWhite(s.heap, s.color, {}) && OneMore(s.heap, t.heap, o, v)
    ensures BlacksSettled(s, t, Flight(s, o))
  {
    OneMoreRefs(s.heap, t.heap, o, v);
    hide Refers, SameKinds;
    forall p | p in t.heap.objs && p !in Flight(s, o) && IsColor(s.color, p, Black) ensures RefsMarked(t.heap, s.color, p) {
      assert p in s.heap.objs by { assert t.heap.objs.Keys == s.heap.objs.Keys by { KindKeys(s.heap, t.heap, o, v); } }
      assert RefsMarked(s.heap, s.color, p);
    }
  }

  lemma KindKeys(h: Heap, k: Heap, o: Ref, v: Value)
    requires OneMore(h, k, o, v)
    ensures k.objs.Keys == h.objs.Keys && SameKinds(h, k)
  {
  }

  lemma BlackRefs(s: State, o: Ref, c: Context)
    requires Inv(s, {}, c) && IsColor(s.color, o, Black) && o in s.heap.objs
    ensures RefsMarked(s.heap, s.color, o) && !s.heap.objs[o].Thread?
  {
  }

  lemma OneLands(s: State, t: State, u: State, o: Ref, v: Value, c: Context)
    requires Inv(s, {}, c) && OneMore(s.heap, t.heap, o, v) && t.color == s.color && Grow(t, u) && ValueSettled(u.color, v)
    requires IsColor(s.color, o, Black)
    requires Inv(u, {o}, c)
    ensures Inv(u, {}, c)
  {
    if o in s.heap.objs {
      BlackRefs(s, o, c);
      OneMoreRefs(s.heap, t.heap, o, v);
      KindKeys(s.heap, t.heap, o, v);
      hide Inv, Refers;
      assert RefsMarked(u.heap, u.color, o);
    } else {
      KindKeys(s.heap, t.heap, o, v);
    }
    hide RefsMarked, Inv;
    LandBlacks(u, {o}, c);
  }

  /** The store and a forward barrier: the new value is marked, or the object was not black. */
  lemma OneMarks(s: State, t: State, u: State, o: Ref, v: Value, M: set<Ref>)
    requires Inv(s, {}, MARKING.(within := M)) && OneMore(s.heap, t.heap, o, v) && t == s.(heap := t.heap)
    requires MetatablesSettled(s, t) && HeapClosed(t.heap) && Closed(t.heap, M) && ValueIn(v, M) && Allocated(t.heap, v)
    requires u == MarkValue(t, v) || (u == t && !IsColor(s.color, o, Black))
    ensures Inv(u, {}, MARKING.(within := M)) && Grow(t, u)
  {
    var c := MARKING.(within := M);
    var X := Flight(s, o);
    assert NoBlackToWhite(s.heap, s.color, {});
    OneBlacks(s, t, o, v);
    KindKeys(s.heap, t.heap, o, v);
    assert Writes(s, t);
    hide OneMore, SameKinds, MetatablesSettled, BlacksSettled, Inv, HeapClosed, Closed, Grow, Writes;
    StoreKeeps(s, t, X, M);
    if u == t && !IsColor(s.color, o, Black) {
      GrowReflexive(t);
    } else {
      MarkValueKeeps(t, v, X, c);
      if IsColor(s.color, o, Black) {
        OneLands(s, t, u, o, v, c);
      }
    }
  }

  /** The same for a state in which marking goes on. */
  lemma OneMarkingGood(s: State, t: State, u: State, o: Ref, v: Value, M: set<Ref>)
    requires Good(s, M) && KeepInvariant(s) && ClosedUnderRefs(s.heap, M)
    requires OneMore(s.heap, t.heap, o, v) && t == s.(heap := t.heap) && HeldStore(s, t, M)
    requires MetatablesSettled(s, t) && Held(s, v, M) && KeysKnown(t.heap, t.color)
    requires u == MarkValue(t, v) || (u == t && !IsColor(s.color, o, Black))
    ensures Good(u, M) && ClosedUnderRefs(u.heap, M)
  {
    MarkingParts(s, M);
    assert HeapClosed(s.heap);
    HeldClosed(s, t, M);
    assert ValueIn(v, M) && Allocated(t.heap, v) by { KindKeys(s.heap, t.heap, o, v); }
    hide Good, Inv, HeldStore, OneMore, HeapClosed, Closed, ClosedUnderRefs, KeysKnown, NoNewBlackTable, MetatablesSettled,
      Writes, RootOperands, Marks, Grow, LiveOperands;
    OneMarks(s, t, u, o, v, M);
    MarkBlackens(t, v);
    NoNewReflexive(t);
    NoNewKeysKnown(t, u);
    GrownStore(s, t, u, M);
    MarkingStore(s, u, M);
  }

  lemma GrownStore(s: State, t: State, u: State, M: set<Ref>)
    requires Writes(s, t) && t == s.(heap := t.heap) && Grow(t, u) && RootOperands(s, t, M)
    ensures Writes(s, u) && MarksRise(s.color, u.color) && RootOperands(s, u, M) && u.heap == t.heap
    ensures forall r :: r in s.fixedgc && IsColor(s.color, r, Gray) ==> IsColor(u.color, r, Gray)
    ensures s.gray != [] ==> u.gray != []
  {
    hide SameKinds, KeysOld;
    assert forall r :: IsRoot(u, r) == IsRoot(t, r);
    hide IsRoot;
    if s.gray != [] {
      assert s.gray[0] in t.gray;
    }
  }

  // ---------- Fields written with a forward barrier ----------

  /** The one forward store that the barrier does not make safe: a white metatable for a gray table that waits on
      'allweak', where nothing will mark it. */
  predicate BadMeta(s: State, o: Ref, f: Field, v: Value) {
    KeepInvariant(s) && f.Metatable? && o in s.allweak && ValueIsWhite(s, v)
  }

  lemma FieldOneMore(h: Heap, o: Ref, f: Field, v: Value, nextref: Ref)
    requires o in h.objs && HasField(h.objs[o], f)
    ensures var k := h.(objs := h.objs[o := WithField(h.objs[o], f, v)]);
            OneMore(h, k, o, v) && (KeysOld(h, nextref) ==> KeysOld(k, nextref))
    ensures var k := h.(objs := h.objs[o := WithField(h.objs[o], f, v)]);
            forall color :: KeysKnown(h, color) ==> KeysKnown(k, color)
  {
    var k := h.(objs := h.objs[o := WithField(h.objs[o], f, v)]);
    assert forall p :: p in h.objs && h.objs[p].Table? ==> k.objs[p].Table? && k.objs[p].hash == h.objs[p].hash;
    assert forall p :: p in k.objs && k.objs[p].Table? ==> p in h.objs && h.objs[p].Table?;
  }

  lemma FieldMetatables(s: State, o: Ref, f: Field, v: Value, M: set<Ref>)
    requires Good(s, M) && KeepInvariant(s) && o in s.heap.objs && HasField(s.heap.objs[o], f)
    requires !BadMeta(s, o, f, v) && Held(s, v, M)
    ensures MetatablesSettled(s, SetObject(s, o, WithField(s.heap.objs[o], f, v)))
  {
    var t := SetObject(s, o, WithField(s.heap.objs[o], f, v));
    assert WeakLists(s, MARKING.(within := M));
    hide Inv, Frame, Surrounds, Good;
    forall p | p in s.allweak && p in t.heap.objs && t.heap.objs[p].Table?
      ensures ValueSettled(t.color, t.heap.objs[p].metatable)
    {
      assert GrayTable(s.heap, s.color, p);
    }
  }

  /** Outside the marking phases the barrier whitens the object, which changes nothing that counts. */
  lemma BarrierFades(s: State, o: Ref, v: Value)
    requires !KeepInvariant(s)
    ensures var t := Barrier(s, o, v);
            t == s.(color := t.color) && t.color.Keys == s.color.Keys
            && forall r :: r in s.color && r in t.color ==>
                 t.color[r] == s.color[r] || (s.color[r].Black? && t.color[r] == White(s.white))
  {
  }

  lemma BarrierMarks(s: State, o: Ref, v: Value)
    requires KeepInvariant(s)
    ensures Barrier(s, o, v) == MarkValue(s, v) || (Barrier(s, o, v) == s && !IsColor(s.color, o, Black))
  {
  }

  lemma FrameKeys(s: State, M: set<Ref>)
    requires Good(s, M)
    ensures KeysOld(s.heap, s.nextref) && (KeepInvariant(s) ==> KeysKnown(s.heap, s.color))
  {
    hide KeysOld, KeysKnown;
  }

  /** A field store with its barrier keeps the invariant, in every phase. */
  lemma StoreFieldGood(s: State, o: Ref, f: Field, v: Value, M: set<Ref>)
    requires Good(s, M) && ClosedUnderRefs(s.heap, M)
    requires o in s.heap.objs && HasField(s.heap.objs[o], f) && Held(s, v, M) && !BadMeta(s, o, f, v)
    ensures Good(StoreField(s, o, f, v), M) && ClosedUnderRefs(StoreField(s, o, f, v).heap, M)
  {
    var t := SetObject(s, o, WithField(s.heap.objs[o], f, v));
    var u := Barrier(t, o, v);
    FrameKeys(s, M);
    FieldOneMore(s.heap, o, f, v, s.nextref);
    hide Good, OneMore, KeysOld, KeysKnown, HeldStore, ClosedUnderRefs, MetatablesSettled, Barrier, WithField, Held;
    OneHeld(s, t, o, v, M);
    if KeepInvariant(s) {
      FieldMetatables(s, o, f, v, M);
      BarrierMarks(t, o, v);
      OneMarkingGood(s, t, u, o, v, M);
    } else {
      BarrierFades(t, o, v);
      OneHeld(s, u, o, v, M);
      HeldSweeping(s, u, M);
    }
  }

  /** In the bad case the invariant is broken by the store. */
  lemma BadMetaBreaks(s: State, o: Ref, f: Field, v: Value, M: set<Ref>, N: set<Ref>)
    requires Good(s, M) && o in s.heap.objs && HasField(s.heap.objs[o], f) && BadMeta(s, o, f, v)
    ensures !Good(StoreField(s, o, f, v), N)
  {
    var c := MARKING.(within := M);
    var t := StoreField(s, o, f, v);
    assert WeakLists(s, c) && Queues(s, c);
    assert GrayTable(s.heap, s.color, o);
    assert t == SetObject(s, o, WithField(s.heap.objs[o], f, v));
    hide Inv, Frame, Surrounds, Queues, NoBlackToWhite;
    assert !GrayTable(t.heap, t.color, o);
    if Good(t, N) {
      AllWeakListed(t, N);
      assert false;
    }
  }

  lemma AllWeakListed(s: State, M: set<Ref>)
    requires Good(s, M) && KeepInvariant(s)
    ensures WeakLists(s, MARKING.(within := M))
  {
  }

  // ---------- Upvalues ----------

  lemma JoinGood(s: State, o: Ref, i: nat, c: Cell, M: set<Ref>)
    requires Good(s, M) && ClosedUnderRefs(s.heap, M)
    requires o in s.heap.objs && s.heap.objs[o].LClosure? && i < |s.heap.objs[o].upvals|
    requires c in s.heap.cells ==> Held(s, s.heap.cells[c], M)
    ensures Good(JoinCell(s, o, i, c), M) && ClosedUnderRefs(JoinCell(s, o, i, c).heap, M)
  {
    var p := s.heap.objs[o];
    var t := SetObject(s, o, p.(upvals := p.upvals[i := c]));
    var v := if c in s.heap.cells then s.heap.cells[c] else Nil;
    var u := JoinCell(s, o, i, c);
    FrameKeys(s, M);
    JoinOneMore(s, o, i, c);
    assert KeepInvariant(s) ==> u == MarkValue(t, v);
    assert !KeepInvariant(s) ==> u == t;
    hide OneMore, KeysOld, KeysKnown, HeldStore, ClosedUnderRefs, MetatablesSettled, Held, JoinCell;
    OneHeld(s, t, o, v, M);
    if KeepInvariant(s) {
      JoinMetatables(s, t, o, M);
      hide Good;
      OneMarkingGood(s, t, u, o, v, M);
    } else {
      hide Good;
      HeldSweeping(s, u, M);
    }
  }

  lemma JoinOneMore(s: State, o: Ref, i: nat, c: Cell)
    requires o in s.heap.objs && s.heap.objs[o].LClosure? && i < |s.heap.objs[o].upvals|
    ensures var p := s.heap.objs[o];
            var t := SetObject(s, o, p.(upvals := p.upvals[i := c]));
            && OneMore(s.heap, t.heap, o, if c in s.heap.cells then s.heap.cells[c] else Nil)
            && (KeysOld(s.heap, s.nextref) ==> KeysOld(t.heap, s.nextref))
            && (KeysKnown(s.heap, s.color) ==> KeysKnown(t.heap, t.color))
  {
    var p := s.heap.objs[o];
    var k := SetObject(s, o, p.(upvals := p.upvals[i := c])).heap;
    assert forall q :: q in s.heap.objs && s.heap.objs[q].Table? ==> k.objs[q] == s.heap.objs[q];
    var was := s.heap.cells;
    forall r | Refers(k, o, r) ensures Refers(s.heap, o, r) || (c in was && was[c] == Obj(r)) {
      if p.proto != Obj(r) {
        var d :| d in p.upvals[i := c] && d in k.cells && k.cells[d] == Obj(r);
        if d != c {
          assert d in p.upvals && InCells(was, p.upvals, r);
        }
      }
    }
  }

  lemma JoinMetatables(s: State, t: State, o: Ref, M: set<Ref>)
    requires Good(s, M) && KeepInvariant(s) && t.color == s.color
    requires forall p :: p in t.heap.objs && t.heap.objs[p].Table? ==>
               p in s.heap.objs && s.heap.objs[p].Table? && t.heap.objs[p].metatable == s.heap.objs[p].metatable
    ensures MetatablesSettled(s, t)
  {
    AllWeakListed(s, M);
    hide Good;
    forall p | p in s.allweak && p in t.heap.objs && t.heap.objs[p].Table?
      ensures ValueSettled(t.color, t.heap.objs[p].metatable)
    {
      assert GrayTable(s.heap, s.color, p);
    }
  }

  function SetCell(s: State, c: Cell, v: Value): State {
    s.(heap := s.heap.(cells := s.heap.cells[c := v]))
  }

  /** The black closures that share upvalue c. */
  ghost function Sharers(s: State, c: Cell): set<Ref> {
    set o | o in s.heap.objs && s.heap.objs[o].LClosure? && c in s.heap.objs[o].upvals && IsColor(s.color, o, Black)
  }

  lemma CellRefs(s: State, c: Cell, v: Value)
    ensures var t := SetCell(s, c, v);
            && (forall o, r :: Refers(t.heap, o, r) ==>
                  Refers(s.heap, o, r) || (v == Obj(r) && s.heap.objs[o].LClosure? && c in s.heap.objs[o].upvals))
            && SameKinds(s.heap, t.heap)
  {
    var t := SetCell(s, c, v);
    forall o, r | Refers(t.heap, o, r)
      ensures Refers(s.heap, o, r) || (v == Obj(r) && s.heap.objs[o].LClosure? && c in s.heap.objs[o].upvals)
    {
      if s.heap.objs[o].LClosure? && !(s.heap.objs[o].proto == Obj(r)) {
        var d :| d in s.heap.objs[o].upvals && d in t.heap.cells && t.heap.cells[d] == Obj(r);
        if d != c {
          assert InCells(s.heap.cells, s.heap.objs[o].upvals, r);
        }
      }
    }
  }

  lemma CellHeld(s: State, t: State, c: Cell, v: Value, M: set<Ref>)
    requires Good(s, M) && t == SetCell(s, c, v) && Held(s, v, M)
    ensures HeldStore(s, t, M)
  {
    CellRefs(s, c, v);
    assert IsThread(s, s.running) && KeysOld(s.heap, s.nextref);
    hide Refers, Good, Live;
    assert forall r :: IsRoot(t, r) ==> IsRoot(s, r);
    hide IsRoot;
    assert KeysOld(t.heap, s.nextref);
    hide KeysOld;
  }

  lemma CellBlacks(s: State, c: Cell, v: Value)
    requires NoBlackToWhite(s.heap, s.color, {})
    ensures BlacksSettled(s, SetCell(s, c, v), Sharers(s, c))
  {
    var t := SetCell(s, c, v);
    CellRefs(s, c, v);
    hide Refers;
    forall p | p in t.heap.objs && p !in Sharers(s, c) && IsColor(s.color, p, Black) ensures RefsMarked(t.heap, s.color, p) {
      assert RefsMarked(s.heap, s.color, p);
    }
  }

  lemma CellLands(s: State, c: Cell, v: Value, u: State, d: Context)
    requires Inv(s, {}, d) && Grow(SetCell(s, c, v), u) && ValueSettled(u.color, v) && Inv(u, Sharers(s, c), d)
    ensures Inv(u, {}, d)
  {
    var X := Sharers(s, c);
    CellRefs(s, c, v);
    assert NoBlackToWhite(s.heap, s.color, {});
    hide Refers, Inv;
    forall o | o in X ensures IsColor(u.color, o, Black) && !u.heap.objs[o].Thread? && RefsMarked(u.heap, u.color, o) {
      assert RefsMarked(s.heap, s.color, o);
    }
    hide RefsMarked;
    LandBlacks(u, X, d);
  }

  lemma CellMarks(s: State, c: Cell, v: Value, M: set<Ref>)
    requires Good(s, M) && KeepInvariant(s) && ClosedUnderRefs(s.heap, M) && Held(s, v, M)
    ensures var t := SetCell(s, c, v); var u := MarkValue(t, v);
            Inv(u, {}, MARKING.(within := M)) && Grow(t, u)
  {
    var d := MARKING.(within := M);
    var t := SetCell(s, c, v);
    var X := Sharers(s, c);
    MarkingParts(s, M);
    assert HeapClosed(s.heap) && NoBlackToWhite(s.heap, s.color, {});
    CellHeld(s, t, c, v, M);
    HeldClosed(s, t, M);
    CellBlacks(s, c, v);
    JoinMetatables(s, t, 0, M);
    hide Good, BlacksSettled, Inv, HeapClosed, Closed, Grow, Writes, HeldStore, Marks, ClosedUnderRefs, NoBlackToWhite,
      LiveOperands, RootOperands, MetatablesSettled, Frame, Surrounds;
    StoreKeeps(s, t, X, M);
    MarkValueKeeps(t, v, X, d);
    CellLands(s, c, v, MarkValue(t, v), d);
  }

  /** A closed upvalue is written, and its value is marked whatever closures share it. */
  lemma StoreCellGood(s: State, c: Cell, v: Value, M: set<Ref>)
    requires Good(s, M) && ClosedUnderRefs(s.heap, M) && Held(s, v, M)
    ensures Good(StoreCell(s, c, v), M) && ClosedUnderRefs(StoreCell(s, c, v).heap, M)
  {
    var t := SetCell(s, c, v);
    var u := StoreCell(s, c, v);
    CellHeld(s, t, c, v, M);
    if KeepInvariant(s) {
      CellMarks(s, c, v, M);
      FrameKeys(s, M);
      assert u == MarkValue(t, v);
      assert KeysKnown(t.heap, t.color);
      HeldClosed(s, t, M);
      hide Good, HeldStore, Inv, Grow, KeysKnown, NoNewBlackTable, ClosedUnderRefs, Writes, RootOperands, LiveOperands,
        StoreCell, Closed, Held;
      MarkBlackens(t, v);
      NoNewKeysKnown(t, u);
      GrownStore(s, t, u, M);
      MarkingStore(s, u, M);
    } else {
      hide Good, HeldStore, ClosedUnderRefs;
      HeldSweeping(s, u, M);
    }
  }

  // ---------- Unbarriered roots ----------

  /** Stores that have no barrier: into a thread's stack, the registry, the basic metatables, and switching threads. */
  ghost predicate PlainStore(s: State, t: State) {
    && t == s.(heap := t.heap, running := t.running, registry := t.registry, basicmt := t.basicmt)
    && SameKinds(s.heap, t.heap) && t.heap.cells == s.heap.cells
    && (forall o :: o in s.heap.objs && o in t.heap.objs ==>
          || t.heap.objs[o] == s.heap.objs[o]
          || s.heap.objs[o].Thread?
          || (s.heap.objs[o].Table? && t.heap.objs[o] == s.heap.objs[o].(mode := t.heap.objs[o].mode)))
  }

  lemma PlainBlacks(s: State, t: State)
    requires PlainStore(s, t) && NoBlackToWhite(s.heap, s.color, {})
    ensures BlacksSettled(s, t, {}) && SameKinds(s.heap, t.heap)
  {
    forall o | o in t.heap.objs && IsColor(s.color, o, Black) ensures RefsMarked(t.heap, s.color, o) {
      assert o in s.heap.objs;
      assert RefsMarked(s.heap, s.color, o);
      assert forall r :: Refers(t.heap, o, r) ==> Refers(s.heap, o, r);
    }
  }

  lemma PlainKeys(s: State, t: State)
    requires PlainStore(s, t)
    ensures KeysOld(s.heap, s.nextref) ==> KeysOld(t.heap, s.nextref)
    ensures KeysKnown(s.heap, s.color) ==> KeysKnown(t.heap, t.color)
    ensures forall o :: o in t.heap.objs && t.heap.objs[o].Table? ==>
              && o in s.heap.objs && s.heap.objs[o].Table?
              && t.heap.objs[o].metatable == s.heap.objs[o].metatable && t.heap.objs[o].hash == s.heap.objs[o].hash
  {
    forall o | o in t.heap.objs && t.heap.objs[o].Table?
      ensures && o in s.heap.objs && s.heap.objs[o].Table?
              && t.heap.objs[o].metatable == s.heap.objs[o].metatable && t.heap.objs[o].hash == s.heap.objs[o].hash
    {
      assert o in s.heap.objs;
    }
  }

  lemma PlainMarks(s: State, t: State, M: set<Ref>)
    requires Good(s, M) && KeepInvariant(s) && PlainStore(s, t) && Writes(s, t)
    requires HeapClosed(t.heap) && Closed(t.heap, M)
    ensures Inv(t, {}, MARKING.(within := M)) && KeysKnown(t.heap, t.color)
  {
    MarkingParts(s, M);
    assert NoBlackToWhite(s.heap, s.color, {});
    PlainBlacks(s, t);
    PlainKeys(s, t);
    JoinMetatables(s, t, 0, M);
    assert t.color == s.color && t.gray == s.gray && t.grayagain == s.grayagain;
    hide Good, PlainStore, Inv, KeysKnown, Writes, Closed, BlacksSettled, MetatablesSettled, HeapClosed, SameKinds, Marks,
      Frame, Surrounds, KeysOld, NoBlackToWhite;
    StoreKeeps(s, t, {}, M);
  }

  lemma PlainColors(s: State, t: State)
    requires PlainStore(s, t)
    ensures Writes(s, t) && Fades(s, t) && MarksRise(s.color, t.color) && t.gray == s.gray && t.color == s.color
  {
  }

  lemma InvHeapClosed(s: State, M: set<Ref>)
    requires Good(s, M) && KeepInvariant(s)
    ensures HeapClosed(s.heap)
  {
    hide Frame, Surrounds;
  }

  /** A store into a stack needs no barrier, since no thread is ever black; other roots are marked again at the end. */
  lemma PlainGood(s: State, t: State, M: set<Ref>)
    requires Good(s, M) && ClosedUnderRefs(s.heap, M) && PlainStore(s, t) && HeldStore(s, t, M)
    ensures Good(t, M) && ClosedUnderRefs(t.heap, M)
  {
    PlainColors(s, t);
    hide Good, PlainStore, Inv, KeysKnown, ClosedUnderRefs, Writes, RootOperands, LiveOperands, Closed, HeapClosed, Fades,
      MarksRise, HeldStore;
    HeldClosed(s, t, M);
    if KeepInvariant(s) {
      InvHeapClosed(s, M);
      PlainMarks(s, t, M);
      MarkingStore(s, t, M);
    } else {
      HeldSweeping(s, t, M);
    }
  }
}
