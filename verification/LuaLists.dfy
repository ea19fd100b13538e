/** Operations that move objects between lists: allocation, luaC_fix, luaC_checkfinalizer, udata2finalize, and strings
    that are found again (lgc.c:194-216, 790-800, 902-921; lstring.c:167-180). */
module LuaLists {
  import opened LuaObjects
  import opened LuaMark
  import opened LuaTraverse
  import opened LuaKeys
  import opened LuaAtomicStep
  import opened LuaSweep
  import opened LuaEvents
  import opened LuaInvariant
  import opened LuaSweepGood
  import opened LuaCollect
  import opened LuaMutator

  // ---------- Cursors and moving objects ----------

  lemma {:induction false} IndexBehind(q: seq<Ref>, o: Ref, x: Ref)
    requires x in q && o != x
    ensures IndexOf([o] + q, x) == IndexOf(q, x) + 1
  {
    assert ([o] + q)[1..] == q;
  }

  /** Object o is first on 'allgc' now: what a cursor has to visit stays the same, or has o in front of it. */
  lemma TodoPrepends(s: State, t: State, o: Ref, p: Cursor)
    requires Listed(s) && t.allgc == [o] + s.allgc && t.finobj == s.finobj && t.tobefnz == s.tobefnz
    requires o !in s.allgc && o !in s.finobj && o !in s.tobefnz
    ensures forall x :: x in Todo(s, p) ==> x in Todo(t, p)
    ensures forall l :: InList(s, p, l) ==> InList(t, p, l)
  {
    hide Listed;
    if p.After? && p.ref in s.allgc {
      IndexBehind(s.allgc, o, p.ref);
      var i := IndexOf(s.allgc, p.ref);
      assert t.allgc[i + 2..] == s.allgc[i + 1..];
    } else if p.After? {
      hide IndexOf;
      assert p.ref in t.allgc ==> p.ref == o;
    }
  }

  // ---------- luaC_newobj ----------

  /** What a new object is given is held by the program. */
  ghost predicate HeldPayload(s: State, p: Payload, M: set<Ref>) {
    && (forall r :: Refers(NewObject(s, p).heap, s.nextref, r) ==> Live(s, r) && r in M)
    && (p.Table? ==> forall n: Node :: n in p.hash && n.key.Obj? ==> n.key.ref < s.nextref)
  }

  lemma NewRefs(s: State, p: Payload)
    requires s.nextref !in s.heap.objs
    ensures var t := NewObject(s, p);
            && (forall o, r :: o != s.nextref ==> (Refers(t.heap, o, r) <==> Refers(s.heap, o, r)))
            && (forall r :: IsRoot(t, r) == IsRoot(s, r))
  {
  }

  lemma NewListed(s: State, p: Payload)
    requires Frame(s)
    ensures Listed(NewObject(s, p)) && s.nextref !in s.heap.objs
  {
    var t := NewObject(s, p);
    var o := s.nextref;
    ListedOnce(s);
    assert o !in s.heap.objs;
    assert multiset(t.allgc) == multiset{o} + multiset(s.allgc);
    assert AllObjects(t) == AllObjects(s) + multiset{o};
    assert t.heap.objs.Keys == s.heap.objs.Keys + {o};
    assert multiset(t.heap.objs.Keys) == multiset(s.heap.objs.Keys) + multiset{o};
  }

  lemma NewFrame(s: State, p: Payload, M: set<Ref>)
    requires Frame(s) && HeldPayload(s, p, M)
    ensures Frame(NewObject(s, p))
  {
    var t := NewObject(s, p);
    NewListed(s, p);
    ListedOnce(s);
    hide Listed, NoDup, Refers;
    assert KeysOld(t.heap, t.nextref);
    hide KeysOld;
    assert s.mainthread in s.heap.objs && s.running in s.heap.objs;
  }

  lemma NewClosed(s: State, p: Payload, M: set<Ref>)
    requires Frame(s) && HeldPayload(s, p, M) && ClosedUnderRefs(s.heap, M)
    ensures var t := NewObject(s, p); var N := M + {s.nextref};
            && ClosedUnderRefs(t.heap, N) && Closed(t.heap, N)
            && (HeapClosed(s.heap) ==> HeapClosed(t.heap))
            && (LiveClosed(s) ==> LiveClosed(t))
            && (Surrounds(s, M) ==> Surrounds(t, N))
  {
    var t := NewObject(s, p);
    NewListed(s, p);
    NewRefs(s, p);
    hide Refers, Listed, IsRoot;
    assert forall r :: Live(s, r) ==> Live(t, r) && r in s.heap.objs;
    assert forall r :: Live(t, r) ==> r == s.nextref || Live(s, r);
    hide Live;
    ClosedFollows(t.heap, M + {s.nextref});
    hide Closed;
  }

  lemma NewQueues(s: State, p: Payload, c: Context, d: Context)
    requires Queues(s, c) && WeakLists(s, c) && s.nextref !in s.heap.objs && !c.final && d == c.(within := d.within)
    requires s.color.Keys == s.heap.objs.Keys
    ensures Queues(NewObject(s, p), d) && WeakLists(NewObject(s, p), d)
  {
    var t := NewObject(s, p);
    hide Traversable;
    assert Queues(t, d);
    hide Queues;
  }

  lemma NewWaits(s: State, p: Payload, c: Context, d: Context)
    requires EveryGrayWaits(s, {}, c) && NoBlackToWhite(s.heap, s.color, {})
    requires s.nextref !in s.heap.objs && !c.final && d == c.(within := d.within)
    requires s.color.Keys == s.heap.objs.Keys && HeapClosed(s.heap)
    ensures EveryGrayWaits(NewObject(s, p), {}, d) && NoBlackToWhite(NewObject(s, p).heap, NewObject(s, p).color, {})
  {
    var t := NewObject(s, p);
    NewRefs(s, p);
    hide Refers, IsRoot;
    forall o | o in t.heap.objs && IsColor(t.color, o, Black) ensures !t.heap.objs[o].Thread? && RefsMarked(t.heap, t.color, o) {
      assert RefsMarked(s.heap, s.color, o);
    }
    hide RefsMarked;
    forall o | o in t.heap.objs && IsColor(t.color, o, Gray) ensures Waits(t, o, d) {
      assert Waits(s, o, c);
    }
  }

  lemma NewMarks(s: State, p: Payload, c: Context, d: Context)
    requires Inv(s, {}, c) && s.nextref !in s.heap.objs && !c.final && d == c.(within := d.within)
    requires HeapClosed(NewObject(s, p).heap) && Closed(NewObject(s, p).heap, d.within)
    requires c.within <= d.within
    ensures Inv(NewObject(s, p), {}, d)
  {
    NewWaits(s, p, c, d);
    NewQueues(s, p, c, d);
    hide Queues, WeakLists, EveryGrayWaits, NoBlackToWhite, HeapClosed, Closed;
  }

  lemma NewKeys(s: State, p: Payload)
    requires KeysKnown(s.heap, s.color) && KeysOld(s.heap, s.nextref) && s.nextref !in s.heap.objs
    ensures KeysKnown(NewObject(s, p).heap, NewObject(s, p).color)
  {
    var t := NewObject(s, p);
    forall o | IsBlackTable(t.heap, t.color, o) ensures KeysNotWhite(t.color, t.heap.objs[o].hash) {
      assert IsBlackTable(s.heap, s.color, o);
      assert KeysNotWhite(s.color, s.heap.objs[o].hash);
    }
  }

  /** Nothing that counts for sweeping has changed but that there is a new white object. */
  ghost predicate AddsWhite(s: State, t: State, o: Ref) {
    && t.white == s.white && t.phase == s.phase && t.sweepgc == s.sweepgc
    && t.finobj == s.finobj && t.tobefnz == s.tobefnz && t.fixedgc == s.fixedgc && t.mainthread == s.mainthread
    && t.heap.objs.Keys == s.heap.objs.Keys + {o} && t.color == s.color[o := White(s.white)]
  }

  lemma AddedWhite(s: State, t: State, o: Ref)
    requires AddsWhite(s, t, o) && s.color.Keys == s.heap.objs.Keys && o !in s.heap.objs
    ensures forall r :: (Current(t, r) <==> Current(s, r) || r == o) && (IsDead(t, r) <==> IsDead(s, r))
    ensures forall r :: Live(t, r) <==> Live(s, r) || r == o
  {
  }

  lemma AddedSweeping(s: State, t: State, o: Ref, M: set<Ref>)
    requires AddsWhite(s, t, o) && s.color.Keys == s.heap.objs.Keys && o !in s.heap.objs
    requires forall x :: x in Todo(s, s.sweepgc) ==> x in Todo(t, t.sweepgc)
    requires forall l :: InList(s, s.sweepgc, l) ==> InList(t, t.sweepgc, l)
    requires DeadAreOrdinary(s) && CursorInPlace(s) && RestIsWhite(s) && DeadInTodo(s) && OutsideDead(s, M)
    ensures DeadAreOrdinary(t) && CursorInPlace(t) && RestIsWhite(t) && DeadInTodo(t) && OutsideDead(t, M + {o})
  {
    AddedWhite(s, t, o);
    hide Todo, InList, Live, IsDead, Current;
  }

  lemma NewSweeping(s: State, p: Payload, M: set<Ref>)
    requires Frame(s) && DeadAreOrdinary(s) && CursorInPlace(s) && RestIsWhite(s) && DeadInTodo(s) && OutsideDead(s, M)
    requires forall r :: IsRoot(s, r) ==> Live(s, r)
    ensures var t := NewObject(s, p);
            && DeadAreOrdinary(t) && CursorInPlace(t) && RestIsWhite(t) && DeadInTodo(t)
            && OutsideDead(t, M + {s.nextref}) && forall r :: IsRoot(t, r) ==> Live(t, r)
  {
    var t := NewObject(s, p);
    var o := s.nextref;
    NewListed(s, p);
    Domains(s);
    NewRefs(s, p);
    ListedOnce(s);
    assert Listed(s) && t.allgc == [o] + s.allgc && AddsWhite(s, t, o);
    hide Listed, Todo, InList, IsRoot, Refers, NoDup, Frame, NewObject, AddsWhite, DeadAreOrdinary, CursorInPlace,
      RestIsWhite, DeadInTodo, OutsideDead;
    TodoPrepends(s, t, o, s.sweepgc);
    AddedSweeping(s, t, o, M);
    AddedWhite(s, t, o);
    hide Live;
  }

  /** A new object is white and needs no list but 'allgc', in every phase. */
  lemma NewObjectGood(s: State, p: Payload, M: set<Ref>)
    requires Good(s, M) && ClosedUnderRefs(s.heap, M) && HeldPayload(s, p, M)
    ensures Good(NewObject(s, p), M + {s.nextref}) && ClosedUnderRefs(NewObject(s, p).heap, M + {s.nextref})
  {
    var t := NewObject(s, p);
    var N := M + {s.nextref};
    assert Frame(s) && Surrounds(s, M);
    NewFrame(s, p, M);
    NewListed(s, p);
    NewClosed(s, p, M);
    FrameKeys(s, M);
    hide Frame, Surrounds, ClosedUnderRefs, HeldPayload, Listed;
    if KeepInvariant(s) {
      MarkingParts(s, M);
      InvHeapClosed(s, M);
      hide Good;
      NewMarks(s, p, MARKING.(within := M), MARKING.(within := N));
      NewKeys(s, p);
      hide Inv, KeysKnown, HeapClosed, Closed, LiveClosed, KeysOld;
      NewOthers(s, p);
      MarkingWhole(t, N);
    } else {
      SweepParts(s, M);
      hide Good;
      NewSweeping(s, p, M);
      hide HeapClosed, Closed, LiveClosed, KeysOld, DeadAreOrdinary, CursorInPlace, RestIsWhite, DeadInTodo, OutsideDead,
        IsRoot, Live, KeysKnown;
      SweepWhole(t, N);
    }
  }

  lemma NewOthers(s: State, p: Payload)
    requires Marks(s) && s.nextref !in s.heap.objs && s.color.Keys == s.heap.objs.Keys
    ensures Marks(NewObject(s, p))
  {
    var t := NewObject(s, p);
    assert RootValues(t) == RootValues(s);
    hide RootValues;
    forall r ensures !IsDead(t, r) {
      assert !IsDead(s, r);
    }
  }

  // ---------- luaC_fix ----------

  lemma FixListed(s: State)
    requires Listed(s) && s.allgc != []
    ensures Listed(Fix(s)) && s.allgc[0] in s.heap.objs
  {
    var o := s.allgc[0];
    var t := Fix(s);
    ListedOnce(s);
    assert s.allgc == [o] + t.allgc;
    assert multiset(s.allgc) == multiset{o} + multiset(t.allgc);
    assert multiset(t.fixedgc) == multiset{o} + multiset(s.fixedgc);
    assert AllObjects(t) == AllObjects(s);
    hide AllObjects, NoDup;
  }

  lemma FixFrame(s: State)
    requires Frame(s) && s.allgc != [] && IsString(s.heap, s.allgc[0]) && IsWhite(s, s.allgc[0])
    ensures Frame(Fix(s))
  {
    FixListed(s);
    hide Listed, KeysOld;
  }

  lemma FixColors(s: State)
    requires s.allgc != [] && Current(s, s.allgc[0]) && IsWhite(s, s.allgc[0])
    ensures var t := Fix(s); var o := s.allgc[0];
            && (forall r :: Live(t, r) == Live(s, r) && IsDead(t, r) == IsDead(s, r))
            && (forall r :: Current(t, r) <==> Current(s, r) && r != o)
            && (forall r :: IsRoot(t, r) <==> IsRoot(s, r) || r == o)
            && (LiveClosed(s) ==> LiveClosed(t))
  {
    var t := Fix(s);
    var o := s.allgc[0];
    assert forall r :: IsRoot(t, r) <==> IsRoot(s, r) || r == o;
    assert forall r :: Live(t, r) == Live(s, r) && IsDead(t, r) == IsDead(s, r);
    hide IsRoot, Live, IsDead, Refers;
  }

  lemma FixRest(s: State, M: set<Ref>)
    requires s.phase.Pause? && CursorInPlace(s) && RestIsWhite(s) && DeadInTodo(s) && DeadAreOrdinary(s)
    requires s.allgc != [] && Current(s, s.allgc[0]) && IsWhite(s, s.allgc[0])
    ensures var t := Fix(s); CursorInPlace(t) && RestIsWhite(t) && DeadInTodo(t) && OutsideDead(t, M) && DeadAreOrdinary(t)
  {
    var t := Fix(s);
    NoCursorNothing(s);
    NoCursorNothing(t);
    FixColors(s);
    hide Todo, Live, IsDead, IsRoot, Current, LiveClosed;
  }

  /** Before the first cycle, the newest object may be fixed; only strings are. */
  lemma FixGood(s: State, M: set<Ref>)
    requires Good(s, M) && s.phase.Pause? && s.allgc != [] && IsString(s.heap, s.allgc[0]) && s.allgc[0] in M
    ensures Good(Fix(s), M)
  {
    var o := s.allgc[0];
    var t := Fix(s);
    SweepParts(s, M);
    FixCurrent(s);
    FixFrame(s);
    FixColors(s);
    FixRest(s, M);
    assert Live(s, o);
    hide Good, Frame, RestIsWhite, DeadInTodo, DeadAreOrdinary, CursorInPlace, OutsideDead, IsRoot, Live, LiveClosed, IsDead,
      Closed, Listed;
    assert Surrounds(t, M);
    SweepWhole(t, M);
  }

  lemma FixCurrent(s: State)
    requires s.phase.Pause? && RestIsWhite(s) && CursorInPlace(s) && Listed(s) && s.allgc != []
    ensures Current(s, s.allgc[0]) && IsWhite(s, s.allgc[0])
  {
    ListedOnce(s);
    NoCursorNothing(s);
    assert s.allgc[0] in s.allgc;
    hide Listed, NoDup, Todo;
  }

  // ---------- internshrstr ----------

  lemma StringFollows(h: Heap, r: Ref, M: set<Ref>)
    requires ClosedUnderRefs(h, M) && IsString(h, r)
    ensures ClosedUnderRefs(h, M + {r}) && Closed(h, M + {r})
  {
    ClosedFollows(h, M + {r}) by { assert forall x :: !Refers(h, r, x); }
  }

  lemma MoreSurrounds(s: State, r: Ref, M: set<Ref>)
    requires Surrounds(s, M) && Closed(s.heap, M + {r})
    ensures Surrounds(s, M + {r})
  {
    hide Closed, IsRoot;
  }

  lemma MoreMarks(s: State, r: Ref, M: set<Ref>)
    requires Inv(s, {}, MARKING.(within := M)) && Closed(s.heap, M + {r})
    ensures Inv(s, {}, MARKING.(within := M + {r}))
  {
    var c, d := MARKING.(within := M), MARKING.(within := M + {r});
    hide RefsMarked, Closed;
    assert forall o :: Waits(s, o, c) ==> Waits(s, o, d);
    hide Waits;
    assert WeakLists(s, d);
    hide WeakLists;
    assert Queues(s, d);
  }

  lemma InternWhole(s: State, t: State, r: Ref, M: set<Ref>)
    requires t == Intern(s, r) && IsString(s.heap, r) && r in s.color && Frame(s)
    ensures AllObjects(t) == AllObjects(s) && t.color.Keys == s.color.Keys
    ensures forall x :: IsRoot(t, x) == IsRoot(s, x)
    ensures forall x :: Live(t, x) <==> Live(s, x) || x == r
    ensures forall x :: IsDead(t, x) <==> IsDead(s, x) && x != r
    ensures forall x :: Current(t, x) <==> Current(s, x) || (x == r && IsDead(s, r))
    ensures Todo(t, t.sweepgc) == Todo(s, s.sweepgc) && Later(t) == Later(s)
  {
    assert Todo(t, t.sweepgc) == Todo(s, s.sweepgc);
    hide Todo, Frame, AllObjects;
  }

  lemma InternFrame(s: State, r: Ref)
    requires Frame(s) && r in s.color && IsString(s.heap, r)
    requires forall x :: x in s.fixedgc ==> !IsDead(s, x)
    ensures Frame(Intern(s, r))
  {
    assert AllObjects(Intern(s, r)) == AllObjects(s);
    hide AllObjects, KeysOld;
  }

  lemma InternRest(s: State, r: Ref, M: set<Ref>)
    requires Frame(s) && IsString(s.heap, r) && r in s.color
    requires CursorInPlace(s) && RestIsWhite(s) && DeadInTodo(s) && DeadAreOrdinary(s) && OutsideDead(s, M)
    ensures var t := Intern(s, r);
            CursorInPlace(t) && RestIsWhite(t) && DeadInTodo(t) && OutsideDead(t, M + {r}) && DeadAreOrdinary(t)
  {
    var t := Intern(s, r);
    InternWhole(s, t, r, M);
    assert forall l :: InList(t, t.sweepgc, l) == InList(s, s.sweepgc, l);
    hide Frame, Todo, IsRoot, Live, IsDead, AllObjects, InList, Later, Current;
  }

  lemma InternClosed(s: State, r: Ref)
    requires LiveClosed(s) && IsString(s.heap, r) && r in s.color
    ensures LiveClosed(Intern(s, r))
  {
    var t := Intern(s, r);
    assert forall x :: !Refers(t.heap, r, x);
    hide Refers;
    assert forall x :: Live(t, x) <==> Live(s, x) || x == r;
  }

  lemma InternSweeping(s: State, r: Ref, M: set<Ref>)
    requires Good(s, M) && !KeepInvariant(s) && IsString(s.heap, r) && Closed(s.heap, M + {r})
    ensures Good(Intern(s, r), M + {r})
  {
    var t := Intern(s, r);
    var N := M + {r};
    SweepParts(s, M);
    Domains(s);
    InternWhole(s, t, r, M);
    InternClosed(s, r);
    InternRest(s, r, M);
    assert forall x :: x in s.fixedgc ==> IsRoot(s, x) && Live(s, x);
    hide Good, RestIsWhite, DeadInTodo, DeadAreOrdinary, CursorInPlace, OutsideDead, Todo, IsRoot, AllObjects, LiveClosed,
      Closed, KeysOld, Later;
    InternFrame(s, r);
    hide Frame, Live;
    assert Surrounds(t, N);
    SweepWhole(t, N);
  }

  /** A string found in the string table is live afterwards, even if it was dead and waiting to be swept. */
  lemma InternGood(s: State, r: Ref, M: set<Ref>)
    requires Good(s, M) && ClosedUnderRefs(s.heap, M) && IsString(s.heap, r)
    ensures Good(Intern(s, r), M + {r}) && ClosedUnderRefs(Intern(s, r).heap, M + {r}) && Live(Intern(s, r), r)
  {
    assert Frame(s) && Surrounds(s, M);
    assert r in s.color by { Domains(s); }
    StringFollows(s.heap, r, M);
    if KeepInvariant(s) {
      MarkingParts(s, M);
      assert !IsDead(s, r);
      assert Intern(s, r) == s;
      hide Good, Inv, Frame, Surrounds, Marks, KeysKnown, ClosedUnderRefs, Closed;
      MoreSurrounds(s, r, M);
      MoreMarks(s, r, M);
      MarkingWhole(s, M + {r});
    } else {
      hide Good, Frame, Surrounds, ClosedUnderRefs, Closed;
      InternSweeping(s, r, M);
    }
  }
}
