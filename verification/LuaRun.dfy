/** Runs: every interleaving of the mutator's operations with the collector's steps. */
module LuaRun {
  import opened LuaObjects
  import opened LuaMark
  import opened LuaTraverse
  import opened LuaPropagate
  import opened LuaKeys
  import opened LuaAtomicStep
  import opened LuaSweep
  import opened LuaEvents
  import opened LuaInvariant
  import opened LuaSweepGood
  import opened LuaCollect
  import opened LuaMutator
  import opened LuaTableStore
  import opened LuaLists
  import opened LuaFinalize

  datatype Event =
    | New(payload: Payload)
    | PutField(obj: Ref, field: Field, val: Value)
    | PutTable(obj: Ref, slots: seq<Value>, hash: seq<Node>, key: Value, val: Value)
    | PutCell(cell: Cell, val: Value)
    | Join(obj: Ref, index: nat, cell: Cell)
    | PutStack(thread: Ref, stack: seq<Value>)
    | PutRegistry(val: Value)
    | PutBasicMetatables(vals: seq<Value>)
    | Resume(thread: Ref)
    | PutMode(obj: Ref, mode: Mode)
    | GiveFinalizer(obj: Ref)
    | FindString(str: Ref)
    | FixNewest
    | Step(max: nat, emergency: bool)
    | RunFinalizer
    | Abandon

  // ---------- What a program can reach ----------

  predicate IsProgramRoot(s: State, r: Ref) {
    r == s.mainthread || Obj(r) in RootValues(s) || r in s.fixedgc
  }

  /** Each object on the path refers to the next. */
  ghost predicate IsPath(h: Heap, p: seq<Ref>) {
    p != [] && forall i :: 0 <= i < |p| - 1 ==> Refers(h, p[i], p[i + 1])
  }

  /** The program can reach r from what it holds, through strong and weak references. */
  ghost predicate Accessible(s: State, r: Ref) {
    exists p :: IsPath(s.heap, p) && IsProgramRoot(s, p[0]) && p[|p| - 1] == r
  }

  lemma {:induction false} PathStaysIn(h: Heap, p: seq<Ref>, K: set<Ref>, i: nat)
    requires IsPath(h, p) && p[0] in K && ClosedUnderRefs(h, K) && i < |p|
    ensures p[i] in K
    decreases i
  {
    if i > 0 {
      PathStaysIn(h, p, K, i - 1);
      assert Refers(h, p[i - 1], p[i]);
    }
  }

  lemma AccessibleIn(s: State, K: set<Ref>, r: Ref)
    requires Accessible(s, r) && ClosedUnderRefs(s.heap, K)
    requires forall x :: IsProgramRoot(s, x) ==> x in K
    ensures r in K
  {
    var p :| IsPath(s.heap, p) && IsProgramRoot(s, p[0]) && p[|p| - 1] == r;
    PathStaysIn(s.heap, p, K, |p| - 1);
  }

  ghost function LiveSet(s: State): set<Ref> {
    set r | r in s.heap.objs && Live(s, r)
  }

  lemma LiveSetClosed(s: State, M: set<Ref>)
    requires Good(s, M)
    ensures ClosedUnderRefs(s.heap, LiveSet(s)) && forall r :: IsRoot(s, r) ==> r in LiveSet(s)
  {
    if KeepInvariant(s) {
      MarkingParts(s, M);
      AbandonClosed(s, M);
    } else {
      SweepParts(s, M);
    }
    hide Good, Frame, Surrounds, Inv, Marks, KeysKnown, IsRoot, Refers;
    assert forall r :: Live(s, r) ==> r in s.heap.objs;
    hide Live;
  }

  /** Whatever the program can reach is live, and in every set that surrounds its data. */
  lemma AccessibleHeld(s: State, M: set<Ref>, r: Ref)
    requires Good(s, M) && ClosedUnderRefs(s.heap, M) && Accessible(s, r)
    ensures Live(s, r) && r in M && r in s.heap.objs
  {
    LiveSetClosed(s, M);
    assert Surrounds(s, M);
    assert forall x :: IsProgramRoot(s, x) ==> IsRoot(s, x);
    hide Good, Surrounds, IsProgramRoot, ClosedUnderRefs, Accessible, Live, Closed;
    AccessibleIn(s, LiveSet(s), r);
    assert forall x :: IsRoot(s, x) ==> x in M by { RootsIn(s, M); }
    AccessibleIn(s, M, r);
  }

  lemma RootsIn(s: State, M: set<Ref>)
    requires Surrounds(s, M)
    ensures forall x :: IsRoot(s, x) ==> x in M
  {
    hide Closed, IsRoot;
  }

  ghost predicate Reached(s: State, v: Value) {
    v.Obj? ==> Accessible(s, v.ref)
  }

  // ---------- Events ----------

  predicate HasTable(s: State, o: Ref) {
    o in s.heap.objs && s.heap.objs[o].Table?
  }

  /** Only a metatable can make a table weak. */
  predicate ModeFits(p: Payload) {
    p.Table? && !p.mode.Strong? ==> p.metatable.Obj?
  }

  /** The event is one the program, or the collector, can perform. */
  predicate Enabled(s: State, e: Event) {
    match e
    case New(p) => ModeFits(p)
    case PutField(o, f, v) => o in s.heap.objs && HasField(s.heap.objs[o], f) && ModeFits(WithField(s.heap.objs[o], f, v))
    case PutTable(o, _, _, _, _) => HasTable(s, o)
    case Join(o, i, _) => o in s.heap.objs && s.heap.objs[o].LClosure? && i < |s.heap.objs[o].upvals|
    case PutStack(o, _) => o in s.heap.objs && s.heap.objs[o].Thread?
    case Resume(o) => o in s.heap.objs && s.heap.objs[o].Thread?
    case PutMode(o, mode) => HasTable(s, o) && ModeFits(s.heap.objs[o].(mode := mode))
    case GiveFinalizer(o) => o in s.heap.objs && (s.heap.objs[o].Table? || s.heap.objs[o].Userdata?)
    case FindString(r) => IsString(s.heap, r)
    case FixNewest => s.phase.Pause? && s.allgc != [] && IsString(s.heap, s.allgc[0])
    case RunFinalizer => s.tobefnz != []
    case _ => true
  }

  function Apply(s: State, e: Event): State
    requires Enabled(s, e)
  {
    match e
    case New(p) => Push(NewObject(s, p), s.nextref)
    case PutField(o, f, v) => StoreField(s, o, f, v)
    case PutTable(o, slots, hash, key, v) => StoreTable(s, o, slots, hash, key, v)
    case PutCell(c, v) => StoreCell(s, c, v)
    case Join(o, i, c) => JoinCell(s, o, i, c)
    case PutStack(o, stack) => SetObject(s, o, Thread(stack))
    case PutRegistry(v) => s.(registry := v)
    case PutBasicMetatables(vs) => s.(basicmt := vs)
    case Resume(o) => s.(running := o)
    case PutMode(o, mode) => ChangeMode(s, o, mode)
    case GiveFinalizer(o) => CheckFinalizer(s, o)
    case FindString(r) => Push(Intern(s, r), r)
    case FixNewest => Fix(s)
    case Step(max, emergency) => SingleStep(s, max, emergency)
    case RunFinalizer => CallFinalizer(s)
    case Abandon => AbandonMarking(s)
  }

  /** The operands of the event are what the program can reach. */
  ghost predicate OperandsReached(s: State, e: Event) {
    match e
    case New(p) =>
      && (forall r :: Refers(NewObject(s, p).heap, s.nextref, r) ==> Accessible(s, r))
      && (p.Table? ==> forall n: Node :: n in p.hash ==> Reached(s, n.key))
    case PutField(o, _, v) => Accessible(s, o) && Reached(s, v)
    case PutTable(o, slots, hash, key, v) =>
      && Accessible(s, o) && Reached(s, key) && Reached(s, v)
      && (HasTable(s, o) ==> Rewrites(s.heap.objs[o], slots, hash, key, v))
    case PutCell(_, v) => Reached(s, v)
    case Join(o, _, c) =>
      && Accessible(s, o)
      && (exists q :: Accessible(s, q) && q in s.heap.objs && s.heap.objs[q].LClosure? && c in s.heap.objs[q].upvals)
    case PutStack(o, stack) => Accessible(s, o) && forall v :: v in stack ==> Reached(s, v)
    case PutRegistry(v) => Reached(s, v)
    case PutBasicMetatables(vs) => forall v :: v in vs ==> Reached(s, v)
    case Resume(o) => Accessible(s, o)
    case PutMode(o, _) => Accessible(s, o)
    case GiveFinalizer(o) => Accessible(s, o)
    case _ => true
  }

  /** The two events that the code does not make safe. */
  predicate IsUnsafe(s: State, e: Event) {
    match e
    case PutField(o, f, v) => BadMeta(s, o, f, v)
    case RunFinalizer => BadPop(s)
    case _ => false
  }

  ghost predicate Allowed(s: State, e: Event) {
    Enabled(s, e) && OperandsReached(s, e) && !IsUnsafe(s, e)
  }

  /** What surrounds the program's data after the event. */
  function Grown(M: set<Ref>, s: State, e: Event): set<Ref>
    requires Enabled(s, e)
  {
    match e
    case New(_) => M + {s.nextref}
    case FindString(r) => M + {r}
    case FixNewest => M + {s.allgc[0]}
    case Abandon => if KeepInvariant(s) then M + s.heap.objs.Keys else M
    case _ => M
  }

  ghost predicate Fine(s: State, M: set<Ref>) {
    Good(s, M) && ClosedUnderRefs(s.heap, M)
  }

  // ---------- Mutator events ----------

  lemma ReachedHeld(s: State, M: set<Ref>, v: Value)
    requires Fine(s, M) && Reached(s, v)
    ensures Held(s, v, M)
  {
    hide Good, ClosedUnderRefs, Accessible, Live;
    if v.Obj? { AccessibleHeld(s, M, v.ref); }
  }

  lemma NewFine(s: State, p: Payload, M: set<Ref>)
    requires Fine(s, M) && Allowed(s, New(p))
    ensures Fine(Push(NewObject(s, p), s.nextref), M + {s.nextref})
  {
    hide Good, ClosedUnderRefs, Accessible, Refers, Frame, Push;
    CreatedFine(s, p, M);
    PushGood(NewObject(s, p), s.nextref, M + {s.nextref});
  }

  /** The new object, before it is on the stack. */
  lemma CreatedFine(s: State, p: Payload, M: set<Ref>)
    requires Fine(s, M) && Allowed(s, New(p))
    ensures Fine(NewObject(s, p), M + {s.nextref})
  {
    assert Frame(s);
    hide Good, ClosedUnderRefs, Accessible, Live, Refers, Frame, NewObject;
    forall r | Refers(NewObject(s, p).heap, s.nextref, r) ensures Live(s, r) && r in M {
      AccessibleHeld(s, M, r);
    }
    if p.Table? {
      forall n: Node | n in p.hash && n.key.Obj? ensures n.key.ref < s.nextref {
        assert Reached(s, n.key);
        AccessibleHeld(s, M, n.key.ref);
        LiveIsOld(s, n.key.ref);
      }
    }
    NewObjectGood(s, p, M);
  }

  lemma JoinFine(s: State, o: Ref, i: nat, c: Cell, M: set<Ref>)
    requires Fine(s, M) && Allowed(s, Join(o, i, c))
    ensures Fine(JoinCell(s, o, i, c), M)
  {
    var q :| Accessible(s, q) && q in s.heap.objs && s.heap.objs[q].LClosure? && c in s.heap.objs[q].upvals;
    if c in s.heap.cells && s.heap.cells[c].Obj? {
      var r := s.heap.cells[c].ref;
      assert InCells(s.heap.cells, s.heap.objs[q].upvals, r);
      assert Refers(s.heap, q, r);
      AccessibleNext(s, q, r);
      AccessibleHeld(s, M, r);
    }
    hide Good, ClosedUnderRefs, Accessible, Live;
    JoinGood(s, o, i, c, M);
  }

  lemma AccessibleNext(s: State, o: Ref, r: Ref)
    requires Accessible(s, o) && Refers(s.heap, o, r)
    ensures Accessible(s, r)
  {
    var p :| IsPath(s.heap, p) && IsProgramRoot(s, p[0]) && p[|p| - 1] == o;
    var q := p + [r];
    hide Refers;
    assert IsPath(s.heap, q);
  }

  lemma StackRefs(s: State, o: Ref, stack: seq<Value>)
    requires o in s.heap.objs && s.heap.objs[o].Thread?
    ensures var t := SetObject(s, o, Thread(stack));
            && (forall p, r :: Refers(t.heap, p, r) ==> Refers(s.heap, p, r) || Obj(r) in stack)
            && PlainStore(s, t) && Writes(s, t) && (forall r :: IsRoot(t, r) == IsRoot(s, r))
            && (KeysOld(s.heap, s.nextref) ==> KeysOld(t.heap, s.nextref))
            && (IsThread(s, s.running) ==> IsThread(t, s.running))
  {
    var t := SetObject(s, o, Thread(stack));
    assert forall p :: p in t.heap.objs && t.heap.objs[p].Table? ==> p in s.heap.objs && t.heap.objs[p] == s.heap.objs[p];
    forall p, r | Refers(t.heap, p, r) ensures Refers(s.heap, p, r) || Obj(r) in stack {
      assert p in s.heap.objs;
    }
  }

  lemma StackFine(s: State, o: Ref, stack: seq<Value>, M: set<Ref>)
    requires Fine(s, M) && Allowed(s, PutStack(o, stack))
    ensures Fine(SetObject(s, o, Thread(stack)), M)
  {
    var t := SetObject(s, o, Thread(stack));
    FrameKeys(s, M);
    StackRefs(s, o, stack);
    assert IsThread(s, s.running);
    hide Good, ClosedUnderRefs, Accessible, Live, Refers, KeysOld, IsRoot, Writes, PlainStore;
    forall r | Obj(r) in stack ensures Live(s, r) && r in M {
      assert Reached(s, Obj(r));
      AccessibleHeld(s, M, r);
    }
    PlainGood(s, t, M);
  }

  lemma NewRoots(s: State, e: Event, r: Ref)
    requires Allowed(s, e) && (e.PutRegistry? || e.PutBasicMetatables? || e.Resume?) && IsRoot(Apply(s, e), r)
    ensures IsRoot(s, r) || Accessible(s, r)
  {
    hide Accessible;
  }

  lemma RootApply(s: State, e: Event)
    requires Enabled(s, e) && (e.PutRegistry? || e.PutBasicMetatables? || e.Resume?)
    ensures var t := Apply(s, e);
            && t == s.(running := t.running, registry := t.registry, basicmt := t.basicmt)
            && (t.running == s.running || IsThread(s, t.running))
  {
  }

  lemma RootPlain(s: State, e: Event, M: set<Ref>)
    requires Good(s, M) && Enabled(s, e) && (e.PutRegistry? || e.PutBasicMetatables? || e.Resume?)
    ensures var t := Apply(s, e);
            && PlainStore(s, t) && Writes(s, t) && IsThread(t, t.running) && KeysOld(t.heap, s.nextref) && t.heap == s.heap
  {
    hide Apply, KeysOld;
    RootApply(s, e);
    FrameKeys(s, M);
    FrameOf(s, M);
    hide Good, Listed;
  }

  lemma RootFine(s: State, e: Event, M: set<Ref>)
    requires Fine(s, M) && Allowed(s, e) && (e.PutRegistry? || e.PutBasicMetatables? || e.Resume?)
    ensures Fine(Apply(s, e), M)
  {
    var t := Apply(s, e);
    RootPlain(s, e, M);
    hide Good, ClosedUnderRefs, Accessible, Live, Refers, KeysOld, IsRoot, Apply, PlainStore, Writes, IsThread,
      OperandsReached;
    forall r | IsRoot(t, r) ensures IsRoot(s, r) || (Live(s, r) && r in M) {
      NewRoots(s, e, r);
      if !IsRoot(s, r) {
        AccessibleHeld(s, M, r);
      }
    }
    PlainGood(s, t, M);
  }

  lemma ModeRefs(s: State, o: Ref, mode: Mode)
    requires HasTable(s, o)
    ensures var t := ChangeMode(s, o, mode);
            && (forall p, r :: Refers(t.heap, p, r) ==> Refers(s.heap, p, r))
            && (forall r :: IsRoot(t, r) == IsRoot(s, r)) && PlainStore(s, t) && Writes(s, t)
            && (IsThread(s, s.running) ==> IsThread(t, s.running))
  {
    var t := ChangeMode(s, o, mode);
    forall p, r | Refers(t.heap, p, r) ensures Refers(s.heap, p, r) {
      assert p in s.heap.objs;
    }
  }

  lemma ModeKeys(s: State, o: Ref, mode: Mode)
    requires HasTable(s, o) && KeysOld(s.heap, s.nextref)
    ensures KeysOld(ChangeMode(s, o, mode).heap, s.nextref)
  {
    var k := ChangeMode(s, o, mode).heap;
    assert forall p :: p in k.objs && k.objs[p].Table? ==> p in s.heap.objs && k.objs[p].hash == s.heap.objs[p].hash;
  }

  lemma ModeFine(s: State, o: Ref, mode: Mode, M: set<Ref>)
    requires Fine(s, M) && HasTable(s, o)
    ensures Fine(ChangeMode(s, o, mode), M)
  {
    FrameKeys(s, M);
    assert IsThread(s, s.running);
    ModeRefs(s, o, mode);
    ModeKeys(s, o, mode);
    hide Good, ClosedUnderRefs, Live, Refers, KeysOld, IsRoot, Writes, PlainStore;
    PlainGood(s, ChangeMode(s, o, mode), M);
  }

  lemma WhereListed(s: State, o: Ref)
    requires Frame(s) && o in s.heap.objs && (s.heap.objs[o].Table? || s.heap.objs[o].Userdata?)
    ensures o in s.finalizable || o in s.allgc
  {
    ListedOnce(s);
    assert o in s.fixedgc ==> IsString(s.heap, o);
    assert IsThread(s, s.mainthread);
    hide AllObjects, NoDup, KeysOld;
  }

  lemma FrameOf(s: State, M: set<Ref>)
    requires Good(s, M)
    ensures Frame(s)
  {
  }

  lemma GiveFinalizerFine(s: State, o: Ref, M: set<Ref>)
    requires Fine(s, M) && Allowed(s, GiveFinalizer(o))
    ensures Fine(CheckFinalizer(s, o), M)
  {
    hide Good, Frame, Accessible, Live, CheckFinalizer, ClosedUnderRefs, NoNewRefs;
    AccessibleHeld(s, M, o);
    FrameOf(s, M);
    WhereListed(s, o);
    CheckFinalizerGood(s, o, M);
    FinalizerRefs(s, o, M);
    RefsStayIn(s.heap, CheckFinalizer(s, o).heap, M);
  }

  lemma RefsStayIn(h: Heap, k: Heap, M: set<Ref>)
    requires ClosedUnderRefs(h, M) && NoNewRefs(h, k)
    ensures ClosedUnderRefs(k, M)
  {
    hide Refers;
  }

  /** Heap k holds no reference, and no string, that h does not hold. */
  ghost predicate NoNewRefs(h: Heap, k: Heap) {
    (forall o, r :: Refers(k, o, r) ==> Refers(h, o, r)) && forall r :: IsString(k, r) ==> IsString(h, r)
  }

  lemma SweepsRefs(s: State, t: State)
    requires Sweeps(s, t)
    ensures NoNewRefs(s.heap, t.heap) && t.nextref == s.nextref
  {
  }

  lemma FinalizerRefs(s: State, o: Ref, M: set<Ref>)
    requires Good(s, M) && Live(s, o) && (o in s.finalizable || o in s.allgc)
    ensures NoNewRefs(s.heap, CheckFinalizer(s, o).heap) && CheckFinalizer(s, o).nextref == s.nextref
  {
    if o !in s.finalizable && IsSweepPhase(s) {
      var w := MakeWhite(s, o);
      if w.sweepgc == After(o) {
        SweepParts(s, M);
        ListedOnce(s);
        hide Good, Frame, Surrounds, Listed, NoDup, LiveClosed, DeadAreOrdinary, CursorInPlace, RestIsWhite, DeadInTodo,
          OutsideDead, SweepToLive, Live;
        WhitenGood(s, o, M);
        ToLiveRefs(w, M);
      }
    }
  }

  lemma ToLiveRefs(s: State, M: set<Ref>)
    requires Good(s, M) && !KeepInvariant(s) && s.sweepgc != NoCursor
    ensures NoNewRefs(s.heap, SweepToLive(s, s.sweepgc).0.heap) && SweepToLive(s, s.sweepgc).0.nextref == s.nextref
  {
    SweepParts(s, M);
    AfterPhase(s, M);
    var l := SweptList(s, M);
    SweptInList(s, l);
    hide Listed, Good, Frame, Surrounds, LiveClosed, DeadAreOrdinary, CursorInPlace, RestIsWhite, DeadInTodo,
      OutsideDead, SweepToLive, InList, Stretch, ListSwept, NoNewRefs;
    var done := SweepToLiveKeeps(s, s.sweepgc, l);
    StretchPlain(s, s.sweepgc, done, SweepToLive(s, s.sweepgc).0, SweepToLive(s, s.sweepgc).1, l);
    SweepsRefs(s, SweepToLive(s, s.sweepgc).0);
  }

  lemma FixFine(s: State, M: set<Ref>)
    requires Fine(s, M) && Enabled(s, FixNewest)
    ensures Fine(Fix(s), M + {s.allgc[0]})
  {
    hide Good, Frame, Surrounds, LiveClosed, DeadAreOrdinary, CursorInPlace, RestIsWhite, DeadInTodo, OutsideDead, Listed,
      ClosedUnderRefs, Fix, IsRoot, Live;
    var o := s.allgc[0];
    SweepParts(s, M);
    FixCurrent(s);
    assert Intern(s, o) == s;
    InternGood(s, o, M);
    FixGood(s, M + {o});
    assert Fix(s).heap == s.heap by { FixHeap(s); }
  }

  lemma FixHeap(s: State)
    requires s.allgc != []
    ensures Fix(s).heap == s.heap
  {
  }

  lemma FinalizerFine(s: State, M: set<Ref>)
    requires Fine(s, M) && s.tobefnz != [] && !BadPop(s)
    ensures Fine(CallFinalizer(s), M)
  {
    hide Good, ClosedUnderRefs, BadPop, CallFinalizer;
    CallFinalizerGood(s, M);
  }

  lemma FieldFine(s: State, o: Ref, f: Field, v: Value, M: set<Ref>)
    requires Fine(s, M) && Allowed(s, PutField(o, f, v))
    ensures Fine(StoreField(s, o, f, v), M)
  {
    hide Good, ClosedUnderRefs, Accessible, Live, StoreField, BadMeta, HasField;
    ReachedHeld(s, M, v);
    StoreFieldGood(s, o, f, v, M);
  }

  lemma TableFine(s: State, o: Ref, slots: seq<Value>, hash: seq<Node>, key: Value, v: Value, M: set<Ref>)
    requires Fine(s, M) && Allowed(s, PutTable(o, slots, hash, key, v))
    ensures Fine(StoreTable(s, o, slots, hash, key, v), M)
  {
    hide Good, ClosedUnderRefs, Accessible, Live, StoreTable, Rewrites;
    ReachedHeld(s, M, key);
    ReachedHeld(s, M, v);
    StoreTableGood(s, o, slots, hash, key, v, M);
  }

  lemma CellFine(s: State, c: Cell, v: Value, M: set<Ref>)
    requires Fine(s, M) && Allowed(s, PutCell(c, v))
    ensures Fine(StoreCell(s, c, v), M)
  {
    hide Good, ClosedUnderRefs, Accessible, Live, StoreCell;
    ReachedHeld(s, M, v);
    StoreCellGood(s, c, v, M);
  }

  lemma StringFine(s: State, r: Ref, M: set<Ref>)
    requires Fine(s, M) && IsString(s.heap, r)
    ensures Fine(Push(Intern(s, r), r), M + {r})
  {
    assert Live(Intern(s, r), r) by { StringLive(s, r, M); }
    hide Good, ClosedUnderRefs, Push, Intern, Live;
    InternGood(s, r, M);
    PushGood(Intern(s, r), r, M + {r});
  }

  lemma StringLive(s: State, r: Ref, M: set<Ref>)
    requires Good(s, M) && IsString(s.heap, r)
    ensures Live(Intern(s, r), r)
  {
    assert Listed(s);
  }

  // ---------- Collector events ----------

  lemma AbandonFine(s: State, M: set<Ref>)
    requires Fine(s, M)
    ensures Fine(AbandonMarking(s), if KeepInvariant(s) then M + s.heap.objs.Keys else M)
  {
    if KeepInvariant(s) {
      var N := M + s.heap.objs.Keys;
      WidenGood(s, M);
      hide Good, EnterSweep;
      AbandonGood(s, N);
      AbandonRefs(s, N);
      RefsStayIn(s.heap, EnterSweep(s).heap, N);
    }
  }

  lemma WidenGood(s: State, M: set<Ref>)
    requires Fine(s, M) && KeepInvariant(s)
    ensures Fine(s, M + s.heap.objs.Keys)
  {
    var N := M + s.heap.objs.Keys;
    MarkingParts(s, M);
    InvHeapClosed(s, M);
    hide Good, Frame, Marks, KeysKnown, Refers, Inv, Closed;
    assert ClosedUnderRefs(s.heap, N);
    ClosedFollows(s.heap, N);
    assert Surrounds(s, N) by { hide IsRoot; }
    WidenInv(s, M, N);
    hide Surrounds;
    MarkingWhole(s, N);
  }

  lemma WidenInv(s: State, M: set<Ref>, N: set<Ref>)
    requires Inv(s, {}, MARKING.(within := M)) && M <= N && Closed(s.heap, N)
    ensures Inv(s, {}, MARKING.(within := N))
  {
    var c, d := MARKING.(within := M), MARKING.(within := N);
    hide RefsMarked, Closed;
    assert forall o :: Waits(s, o, c) ==> Waits(s, o, d);
    hide Waits;
    assert WeakLists(s, d);
    hide WeakLists;
    assert Queues(s, d);
  }

  lemma EnterSweepRefs(s: State, M: set<Ref>)
    requires Good(s.(phase := SweepAllGc, sweepgc := Head(AllGc)), M)
    ensures NoNewRefs(s.heap, EnterSweep(s).heap) && EnterSweep(s).nextref == s.nextref
  {
    var u := s.(phase := SweepAllGc);
    var p := Head(AllGc);
    assert u.(sweepgc := p) == s.(phase := SweepAllGc, sweepgc := p);
    SweepParts(u.(sweepgc := p), M);
    CursorFree(u, p, M);
    HeadInList(u);
    hide Good, Frame, Surrounds, LiveClosed, DeadAreOrdinary, RestIsWhite, DeadInTodo, OutsideDead, Listed, SweepToLive,
      Stretch, InList, NoNewRefs, CursorInPlace;
    var done := SweepToLiveKeeps(u, p, AllGc);
    StretchPlain(u, p, done, SweepToLive(u, p).0, SweepToLive(u, p).1, AllGc);
    SweepsRefs(u, SweepToLive(u, p).0);
  }

  lemma AbandonRefs(s: State, M: set<Ref>)
    requires Good(s, M) && KeepInvariant(s) && forall r :: r in s.heap.objs ==> r in M
    ensures NoNewRefs(s.heap, EnterSweep(s).heap) && EnterSweep(s).nextref == s.nextref
  {
    AbandonFlips(s, M);
    hide Good, EnterSweep;
    EnterSweepRefs(s, M);
  }

  lemma RisesRefs(s: State, t: State)
    requires Rises(s, t)
    ensures NoNewRefs(s.heap, t.heap) && t.nextref == s.nextref
  {
    ThinRefers(s.heap, t.heap);
  }

  lemma NoNewRefsTransitive(h: Heap, k: Heap, l: Heap)
    requires NoNewRefs(h, k) && NoNewRefs(k, l)
    ensures NoNewRefs(h, l)
  {
    hide Refers;
  }

  lemma PropagateRefs(s: State, M: set<Ref>)
    requires Good(s, M) && s.phase.Propagate?
    ensures NoNewRefs(s.heap, PropagateMark(s).heap) && s.gray != [] && PropagateMark(s).nextref == s.nextref
  {
    MarkingParts(s, M);
    hide Good, Inv, Frame, Surrounds, Marks, KeysKnown, Traverses, PropagateMark, NoNewRefs, Rises;
    PropagateMarkKeeps(s, MARKING.(within := M));
    TraversesRises(s, PropagateMark(s));
    RisesRefs(s, PropagateMark(s));
  }

  lemma AtomicRefs(s: State, M: set<Ref>)
    requires Good(s, M) && s.phase.Atomic?
    ensures NoNewRefs(s.heap, EnterSweep(AtomicStep(PropagateAll(s))).heap)
    ensures EnterSweep(AtomicStep(PropagateAll(s))).nextref == s.nextref
  {
    var t := AtomicClear(AtomicMark(PropagateAll(s)));
    AtomicClears(s, M);
    hide Good, Frame, Surrounds, AllMarked, PropagateAll, AtomicMark, AtomicClear, EnterSweep, Rises, NoNewRefs;
    RisesRefs(s, t);
    FlipGood(t, M);
    var u := AtomicStep(PropagateAll(s));
    assert Flipped(t) == u.(phase := SweepAllGc, sweepgc := Head(AllGc));
    EnterSweepRefs(u, M);
    NoNewRefsTransitive(s.heap, u.heap, EnterSweep(u).heap);
  }

  lemma SweepRefs(s: State, max: nat, M: set<Ref>)
    requires Good(s, M) && InSweepLists(s)
    ensures NoNewRefs(s.heap, SingleStep(s, max, false).heap) && SingleStep(s, max, false).nextref == s.nextref
  {
    if s.sweepgc != NoCursor {
      SweepParts(s, M);
      var l := SweptList(s, M);
      SweptInList(s, l);
      hide Good, Frame, Surrounds, LiveClosed, DeadAreOrdinary, RestIsWhite, DeadInTodo, OutsideDead, Listed,
        Stretch, InList, ListSwept, CursorInPlace, NoNewRefs, SweepList;
      var done := SweepListKeeps(s, s.sweepgc, l, max);
      StretchPlain(s, s.sweepgc, done, SweepList(s, s.sweepgc, max).0, SweepList(s, s.sweepgc, max).1, l);
      SweepsRefs(s, SweepList(s, s.sweepgc, max).0);
    }
  }

  /** Every step of the collector keeps the invariant. */
  lemma StepFine(s: State, max: nat, emergency: bool, M: set<Ref>)
    requires Fine(s, M)
    ensures Fine(SingleStep(s, max, emergency), M)
  {
    StepIs(s, max, emergency);
    assert !s.phase.InsideAtomic? && (s.phase.CallFin? ==> !BadPop(s));
    hide Good, ClosedUnderRefs, SingleStep, PropagateMark, PropagateAll, AtomicStep, EnterSweep, CallFinalizer, Restart,
      BadPop, NoNewRefs, MakeWhite;
    var t := SingleStep(s, max, emergency);
    match s.phase
    case Pause => RestartGood(s, M);
    case Propagate =>
      PropagateGood(s, M);
      PropagateRefs(s, M);
      RefsStayIn(s.heap, t.heap, M);
    case Atomic =>
      AtomicGood(s, M);
      AtomicRefs(s, M);
      RefsStayIn(s.heap, t.heap, M);
    case SweepEnd =>
      SweepEndGood(s, M);
      assert MakeWhite(s, s.mainthread).heap == s.heap by { WhiteHeap(s); }
    case CallFin =>
      if s.tobefnz != [] && !emergency {
        FinalizerFine(s, M);
      } else {
        PauseGood(s, M);
      }
    case _ =>
      SweepStepGood(s, max, M);
      SweepRefs(s, max, M);
      RefsStayIn(s.heap, t.heap, M);
  }

  lemma WhiteHeap(s: State)
    ensures MakeWhite(s, s.mainthread).heap == s.heap
  {
  }

  /** References are never used twice. */
  lemma NextRefGrows(s: State, e: Event, M: set<Ref>)
    requires Fine(s, M) && Allowed(s, e)
    ensures Apply(s, e).nextref == if e.New? then s.nextref + 1 else s.nextref
  {
    hide Good, ClosedUnderRefs, NoNewRefs, SingleStep, CheckFinalizer, PropagateMark, EnterSweep, AtomicStep, PropagateAll,
      Restart, CallFinalizer, Accessible, Refers;
    match e
    case PutTable(o, slots, hash, key, v) =>
      StoreTableColors(s, o, slots, hash, key, v);
    case GiveFinalizer(o) =>
      AccessibleHeld(s, M, o);
      FrameOf(s, M);
      WhereListed(s, o);
      FinalizerRefs(s, o, M);
    case Step(max, emergency) => StepNext(s, max, emergency, M);
    case RunFinalizer => CallNext(s);
    case Abandon =>
      if KeepInvariant(s) {
        WidenGood(s, M);
        AbandonRefs(s, M + s.heap.objs.Keys);
      }
    case _ =>
  }

  lemma CallNext(s: State)
    requires s.tobefnz != []
    ensures CallFinalizer(s).nextref == s.nextref
  {
  }

  lemma RestartNext(s: State)
    ensures Restart(s).nextref == s.nextref
  {
  }

  lemma PropagateNext(s: State)
    requires s.phase.Propagate? && s.gray != []
    ensures SingleStep(s, 0, false).nextref == PropagateMark(s).nextref
  {
    hide PropagateMark;
  }

  lemma StepNext(s: State, max: nat, emergency: bool, M: set<Ref>)
    requires Fine(s, M)
    ensures SingleStep(s, max, emergency).nextref == s.nextref
  {
    StepIs(s, max, emergency);
    assert !s.phase.InsideAtomic?;
    hide Good, ClosedUnderRefs, SingleStep, PropagateMark, PropagateAll, AtomicStep, EnterSweep, CallFinalizer, Restart,
      BadPop, NoNewRefs;
    match s.phase
    case Pause => RestartNext(s);
    case Propagate =>
      PropagateRefs(s, M);
      PropagateNext(s);
    case Atomic => AtomicRefs(s, M);
    case SweepEnd =>
    case CallFin =>
      if s.tobefnz != [] { CallNext(s); }
    case _ => SweepRefs(s, max, M);
  }

  // ---------- Runs ----------

  /** Every event that the code makes safe keeps the invariant. */
  lemma EventFine(s: State, e: Event, M: set<Ref>)
    requires Fine(s, M) && Allowed(s, e)
    ensures Fine(Apply(s, e), Grown(M, s, e))
  {
    hide Fine;
    match e
    case New(p) => NewFine(s, p, M);
    case PutField(o, f, v) => FieldFine(s, o, f, v, M);
    case PutTable(o, slots, hash, key, v) => TableFine(s, o, slots, hash, key, v, M);
    case PutCell(c, v) => CellFine(s, c, v, M);
    case Join(o, i, c) => JoinFine(s, o, i, c, M);
    case PutStack(o, stack) => StackFine(s, o, stack, M);
    case PutRegistry(v) => RootFine(s, e, M);
    case PutBasicMetatables(vs) => RootFine(s, e, M);
    case Resume(o) => RootFine(s, e, M);
    case PutMode(o, mode) => ModeFine(s, o, mode, M);
    case GiveFinalizer(o) => GiveFinalizerFine(s, o, M);
    case FindString(r) => StringFine(s, r, M);
    case FixNewest => FixFine(s, M);
    case Step(max, emergency) => StepFine(s, max, emergency, M);
    case RunFinalizer => FinalizerFine(s, M);
    case Abandon => AbandonFine(s, M);
  }

  ghost predicate AllowedRun(s: State, es: seq<Event>)
    decreases |es|
  {
    es == [] || (Allowed(s, es[0]) && AllowedRun(Apply(s, es[0]), es[1..]))
  }

  ghost function Final(s: State, es: seq<Event>): State
    requires AllowedRun(s, es)
    decreases |es|
  {
    if es == [] then s else Final(Apply(s, es[0]), es[1..])
  }

  ghost function FinalSet(M: set<Ref>, s: State, es: seq<Event>): set<Ref>
    requires AllowedRun(s, es)
    decreases |es|
  {
    if es == [] then M else FinalSet(Grown(M, s, es[0]), Apply(s, es[0]), es[1..])
  }

  lemma {:induction false} RunFine(s: State, es: seq<Event>, M: set<Ref>)
    requires Fine(s, M) && AllowedRun(s, es)
    ensures Fine(Final(s, es), FinalSet(M, s, es))
    decreases |es|
  {
    hide Fine, Allowed, Apply, Grown;
    if es != [] {
      FirstAllowed(s, es);
      EventFine(s, es[0], M);
      RunFine(Apply(s, es[0]), es[1..], Grown(M, s, es[0]));
    }
  }

  lemma FirstAllowed(s: State, es: seq<Event>)
    requires AllowedRun(s, es) && es != []
    ensures Allowed(s, es[0]) && Enabled(s, es[0]) && AllowedRun(Apply(s, es[0]), es[1..])
  {
  }

  /** Safety over whole runs: what the program can reach has not been freed, and is not about to be. */
  lemma NothingReachableIsFreed(s: State, es: seq<Event>, M: set<Ref>, r: Ref)
    requires Fine(s, M) && AllowedRun(s, es) && Accessible(Final(s, es), r)
    ensures r in Final(s, es).heap.objs && !IsDead(Final(s, es), r)
  {
    RunFine(s, es, M);
    AccessibleHeld(Final(s, es), FinalSet(M, s, es), r);
  }
}
