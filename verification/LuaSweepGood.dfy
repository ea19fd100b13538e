/** Sweeping keeps the invariant, a stretch at a time (lgc.c:734-766, 960-967, 1032-1045). */
module LuaSweepGood {
  import opened LuaObjects
  import opened LuaMark
  import opened LuaAtomicStep
  import opened LuaSweep
  import opened LuaEvents
  import opened LuaInvariant

  lemma TodoListed(s: State, p: Cursor, l: ListName)
    requires Listed(s) && InList(s, p, l)
    ensures NoDup(Todo(s, p)) && forall x :: x in Todo(s, p) ==> x in ListOf(s, l)
  {
    ListedOnce(s);
    if p != NoCursor {
      var q := ListOf(s, l);
      var i := PlaceOf(s, p).index;
      assert NoDup(q);
      assert Todo(s, p) == q[i..];
      forall j, k | 0 <= j < k < |q[i..]| ensures q[i..][j] != q[i..][k] {
        assert q[i..][j] == q[i + j] && q[i..][k] == q[i + k];
      }
    }
  }

  /** The lists lose exactly the objects that are freed. */
  lemma StretchMembers(s: State, p: Cursor, done: seq<Ref>, t: State, r: Cursor, l: ListName)
    requires Listed(s) && Stretch(s, p, done, t, r, l)
    ensures forall x :: x in t.allgc <==> x in s.allgc && x in t.heap.objs
    ensures forall x :: x in t.finobj <==> x in s.finobj && x in t.heap.objs
    ensures forall x :: x in t.tobefnz <==> x in s.tobefnz && x in t.heap.objs
    ensures t.fixedgc == s.fixedgc && t.mainthread == s.mainthread
  {
    StretchLists(s, p, done, t, r, l);
    ListedOnce(s);
    ListedOnce(t);
    hide Stretch, Listed, NoDup;
    assert forall x :: x in t.heap.objs ==> x in s.heap.objs;
    hide Sweeps;
  }

  /** What a stretch of sweeping does to object x. */
  lemma StretchObject(s: State, p: Cursor, done: seq<Ref>, t: State, r: Cursor, l: ListName, x: Ref)
    requires Listed(s) && InList(s, p, l) && Stretch(s, p, done, t, r, l)
    ensures x in t.heap.objs ==>
              && x in s.heap.objs && t.heap.objs[x] == s.heap.objs[x] && x in s.color && x in t.color
              && (if x in done then Current(t, x) && !IsDead(s, x) else t.color[x] == s.color[x])
    ensures x in done ==> x in ListOf(s, l) && x !in Todo(t, r)
    ensures x in Todo(s, p) <==> x in done || x in Todo(t, r)
    ensures Live(s, x) <==> Live(t, x)
    ensures IsDead(t, x) <==> IsDead(s, x) && x !in done
    ensures x in ListOf(s, AllGc) + ListOf(s, FinObj) + ListOf(s, ToBeFnz) || x !in done
  {
    TodoListed(s, p, l);
    Domains(s);
    Domains(t);
    hide Todo, InList, Listed, Count, ListOf;
    var q := Todo(s, p);
    if x in done && x in Todo(t, r) {
      Repeated(done, Todo(t, r), x);
    }
  }

  lemma Repeated(q: seq<Ref>, p: seq<Ref>, x: Ref)
    requires x in q && x in p
    ensures !NoDup(q + p)
  {
    var i :| 0 <= i < |q| && q[i] == x;
    var j :| 0 <= j < |p| && p[j] == x;
    assert (q + p)[i] == (q + p)[|q| + j];
  }

  lemma StretchPlain(s: State, p: Cursor, done: seq<Ref>, t: State, r: Cursor, l: ListName)
    requires Stretch(s, p, done, t, r, l)
    ensures t.white == s.white && t.phase == s.phase && t.heap.cells == s.heap.cells && Listed(t)
    ensures t.fixedgc == s.fixedgc && t.mainthread == s.mainthread && RootValues(t) == RootValues(s)
    ensures t.running == s.running && t.nextref == s.nextref && Sweeps(s, t) && InList(t, r, l)
  {
  }

  lemma StretchKeys(s: State, p: Cursor, done: seq<Ref>, t: State, r: Cursor, l: ListName)
    requires Frame(s) && Stretch(s, p, done, t, r, l)
    ensures KeysOld(t.heap, t.nextref) && forall x :: x in t.heap.objs ==> x < t.nextref
  {
    hide Listed, InList, Swept, Todo;
  }

  lemma StretchFrame(s: State, p: Cursor, done: seq<Ref>, t: State, r: Cursor, l: ListName)
    requires Frame(s) && InList(s, p, l) && Stretch(s, p, done, t, r, l)
    requires forall x :: IsRoot(s, x) ==> Live(s, x)
    ensures Frame(t)
  {
    StretchPlain(s, p, done, t, r, l);
    ListedOnce(s);
    assert IsRoot(s, s.mainthread) && Obj(s.running) in RootValues(s) && IsRoot(s, s.running);
    hide Listed, NoDup, InList, Stretch, PlaceOf, Todo, RootValues, Sweeps, KeysOld;
    forall x | x in s.fixedgc ensures IsString(t.heap, x) && IsColor(t.color, x, Gray) {
      assert IsRoot(s, x);
      StretchObject(s, p, done, t, r, l, x);
    }
    hide IsRoot;
    StretchObject(s, p, done, t, r, l, s.mainthread);
    StretchObject(s, p, done, t, r, l, s.running);
    StretchKeys(s, p, done, t, r, l);
  }

  /** Where objects have only been freed, what was closed is closed. */
  lemma FreedCloses(h: Heap, k: Heap, M: set<Ref>)
    requires k.cells == h.cells && forall o :: o in k.objs ==> o in h.objs && k.objs[o] == h.objs[o]
    requires Closed(h, M)
    ensures Closed(k, M)
  {
    assert forall r :: IsString(k, r) ==> IsString(h, r);
    assert forall v :: Keeps(k, v, M) ==> Keeps(h, v, M);
    assert forall o, r :: Refers(k, o, r) ==> Refers(h, o, r);
    hide Refers, IsString, Keeps;
    forall o | o in M && o in k.objs ensures Follows(k, o, M) {
      assert Follows(h, o, M);
    }
  }

  lemma StretchSurrounds(s: State, p: Cursor, done: seq<Ref>, t: State, r: Cursor, l: ListName, M: set<Ref>)
    requires Listed(s) && Surrounds(s, M) && InList(s, p, l) && Stretch(s, p, done, t, r, l)
    requires forall x :: IsRoot(s, x) ==> Live(s, x)
    ensures Surrounds(t, M) && forall x :: IsRoot(t, x) ==> IsRoot(s, x) && Live(t, x)
  {
    StretchMembers(s, p, done, t, r, l);
    StretchPlain(s, p, done, t, r, l);
    hide Listed, NoDup, InList, Stretch, PlaceOf, Todo, Live, RootValues, ListOf;
    FreedCloses(s.heap, t.heap, M);
  }

  ghost predicate InSweepLists(s: State) {
    s.phase.SweepAllGc? || s.phase.SweepFinObj? || s.phase.SweepToBeFnz?
  }

  /** The list a sweep phase may be sweeping. */
  ghost predicate ListSwept(s: State, p: Cursor, l: ListName) {
    && InList(s, p, l)
    && match s.phase
       case SweepAllGc => l.AllGc?
       case SweepFinObj => l.FinObj?
       case SweepToBeFnz => l.ToBeFnz? || (l.AllGc? && forall r :: r in s.tobefnz ==> Current(s, r))
       case _ => false
  }

  lemma StretchCurrent(s: State, p: Cursor, done: seq<Ref>, t: State, r: Cursor, l: ListName, x: Ref)
    requires Listed(s) && InList(s, p, l) && Stretch(s, p, done, t, r, l) && Current(s, x) && x in t.heap.objs
    ensures Current(t, x)
  {
    StretchObject(s, p, done, t, r, l, x);
    StretchPlain(s, p, done, t, r, l);
    hide Stretch, Listed, InList, Todo, ListOf;
  }

  lemma InListFree(s: State, p: Cursor, l: ListName)
    ensures InList(s.(sweepgc := p), p, l) == InList(s, p, l)
  {
  }

  lemma CursorIn(s: State, l: ListName)
    requires InSweepLists(s) && InList(s, s.sweepgc, l)
    requires match s.phase
             case SweepAllGc => l.AllGc?
             case SweepFinObj => l.FinObj?
             case _ => l.ToBeFnz? || (l.AllGc? && forall r :: r in s.tobefnz ==> Current(s, r))
    ensures CursorInPlace(s)
  {
    hide InList, Current;
  }

  lemma StretchCursor(s: State, p: Cursor, done: seq<Ref>, t: State, r: Cursor, l: ListName)
    requires Listed(s) && ListSwept(s, p, l) && Stretch(s, p, done, t, r, l)
    ensures CursorInPlace(t.(sweepgc := r))
  {
    hide InList, Listed, Stretch, PlaceOf, Sweeps, RootValues, Todo, CursorInPlace, IndexOf;
    var v := t.(sweepgc := r);
    StretchPlain(s, p, done, t, r, l);
    StretchMembers(s, p, done, t, r, l);
    InListFree(t, r, l);
    if s.phase.SweepToBeFnz? && l.AllGc? {
      forall x | x in v.tobefnz ensures Current(v, x) {
        StretchCurrent(s, p, done, t, r, l, x);
      }
    }
    CursorIn(v, l);
  }

  ghost predicate IsRest(s: State, p: Cursor, x: Ref) {
    || Current(s, x) || x in Todo(s, p) || x in Later(s) || x in s.fixedgc
    || (x == s.mainthread && IsSweepPhase(s))
  }

  lemma RestIs(s: State, p: Cursor)
    ensures RestIsWhite(s.(sweepgc := p)) <==> forall x :: x in s.heap.objs ==> IsRest(s, p, x)
  {
    var u := s.(sweepgc := p);
    assert Todo(u, p) == Todo(s, p) && Later(u) == Later(s);
    hide Todo, Later;
    assert forall x :: Current(u, x) == Current(s, x);
  }

  lemma StretchLater(s: State, p: Cursor, done: seq<Ref>, t: State, r: Cursor, l: ListName)
    requires ListSwept(s, p, l) && Stretch(s, p, done, t, r, l)
    ensures Later(t) == Later(s) && t.phase == s.phase
    ensures InSweepLists(s) && InList(s, p, l)
    ensures !s.phase.SweepToBeFnz? ==> t.tobefnz == s.tobefnz && !l.ToBeFnz?
  {
    hide Todo, InList, Swept, Count, Listed;
    assert ListOf(t, FinObj) == t.finobj && ListOf(t, ToBeFnz) == t.tobefnz;
    assert ListOf(s, FinObj) == s.finobj && ListOf(s, ToBeFnz) == s.tobefnz;
  }

  lemma StretchRest(s: State, p: Cursor, done: seq<Ref>, t: State, r: Cursor, l: ListName)
    requires Listed(s) && ListSwept(s, p, l) && Stretch(s, p, done, t, r, l)
    requires RestIsWhite(s.(sweepgc := p))
    ensures RestIsWhite(t.(sweepgc := r))
  {
    RestIs(s, p);
    RestIs(t, r);
    StretchLater(s, p, done, t, r, l);
    StretchPlain(s, p, done, t, r, l);
    hide Listed, InList, Stretch, PlaceOf, Todo, RootValues, RestIsWhite, Sweeps, Later, ListSwept;
    forall x | x in t.heap.objs ensures IsRest(t, r, x) {
      StretchObject(s, p, done, t, r, l, x);
      assert IsRest(s, p, x);
    }
  }

  lemma DeadIs(s: State, p: Cursor, M: set<Ref>)
    ensures DeadInTodo(s.(sweepgc := p)) <==> forall x :: IsDead(s, x) ==> s.phase.SweepAllGc? && x in Todo(s, p)
    ensures OutsideDead(s.(sweepgc := p), M) == OutsideDead(s, M)
  {
    var u := s.(sweepgc := p);
    assert Todo(u, p) == Todo(s, p);
    hide Todo;
    assert forall x :: IsDead(u, x) == IsDead(s, x);
    hide IsDead;
  }

  lemma StretchDead(s: State, p: Cursor, done: seq<Ref>, t: State, r: Cursor, l: ListName, M: set<Ref>)
    requires Listed(s) && ListSwept(s, p, l) && Stretch(s, p, done, t, r, l)
    requires DeadInTodo(s.(sweepgc := p)) && OutsideDead(s.(sweepgc := p), M)
    ensures DeadInTodo(t.(sweepgc := r)) && OutsideDead(t.(sweepgc := r), M)
  {
    DeadIs(s, p, M);
    DeadIs(t, r, M);
    StretchPlain(s, p, done, t, r, l);
    StretchLater(s, p, done, t, r, l);
    hide Listed, InList, Stretch, PlaceOf, Todo, RootValues, Sweeps, ListSwept, DeadInTodo, IsDead, Later, ListOf;
    forall x | IsDead(t, x) ensures t.phase.SweepAllGc? && x in Todo(t, r) {
      StretchObject(s, p, done, t, r, l, x);
    }
    forall x | x in t.heap.objs && x !in M && !t.phase.Pause? ensures IsDead(t, x) {
      StretchObject(s, p, done, t, r, l, x);
    }
  }

  lemma CursorFree(s: State, p: Cursor, M: set<Ref>)
    ensures var u := s.(sweepgc := p);
            && Frame(u) == Frame(s) && Surrounds(u, M) == Surrounds(s, M) && LiveClosed(u) == LiveClosed(s)
            && DeadAreOrdinary(u) == DeadAreOrdinary(s) && Listed(u) == Listed(s)
            && forall r :: IsRoot(u, r) == IsRoot(s, r) && Live(u, r) == Live(s, r)
  {
    var u := s.(sweepgc := p);
    assert AllObjects(u) == AllObjects(s);
    assert forall r :: IsRoot(u, r) == IsRoot(s, r) && Live(u, r) == Live(s, r) && IsDead(u, r) == IsDead(s, r);
    hide Live, IsRoot, Refers, AllObjects, IsDead;
  }

  lemma SweepParts(s: State, M: set<Ref>)
    requires Good(s, M) && !KeepInvariant(s)
    ensures CursorInPlace(s) && Frame(s) && Surrounds(s, M) && LiveClosed(s) && DeadAreOrdinary(s) && Listed(s)
    ensures forall r :: IsRoot(s, r) ==> Live(s, r)
    ensures RestIsWhite(s) && DeadInTodo(s) && OutsideDead(s, M)
  {
    hide Surrounds, LiveClosed, DeadAreOrdinary, RestIsWhite, DeadInTodo, OutsideDead, IsRoot, Live,
      CursorInPlace;
  }

  /** Sweeping from the cursor to another place keeps everything that holds while objects are being swept. */
  lemma StretchGood(s: State, p: Cursor, done: seq<Ref>, t: State, r: Cursor, l: ListName, M: set<Ref>)
    requires Good(s.(sweepgc := p), M) && ListSwept(s, p, l)
    requires Stretch(s, p, done, t, r, l) && DeadAreOrdinary(t)
    ensures Good(t.(sweepgc := r), M)
  {
    hide Good, Frame, Surrounds, LiveClosed, DeadAreOrdinary, RestIsWhite, DeadInTodo, OutsideDead, Listed,
      Stretch, ListSwept, IsRoot, Live, CursorInPlace, InList, Swept, Sweeps;
    var u, v := s.(sweepgc := p), t.(sweepgc := r);
    StretchPhase(s, p, done, t, r, l);
    SweepParts(u, M);
    CursorFree(s, p, M);
    StretchFrame(s, p, done, t, r, l);
    StretchSurrounds(s, p, done, t, r, l, M);
    StretchCursor(s, p, done, t, r, l);
    StretchRest(s, p, done, t, r, l);
    SweepsLiveClosed(s, t);
    StretchDead(s, p, done, t, r, l, M);
    CursorFree(t, r, M);
    SweepWhole(v, M);
  }

  lemma StretchPhase(s: State, p: Cursor, done: seq<Ref>, t: State, r: Cursor, l: ListName)
    requires ListSwept(s, p, l) && Stretch(s, p, done, t, r, l)
    ensures t.phase == s.phase && InSweepLists(s) && Sweeps(s, t) && InList(s, p, l)
  {
  }

  lemma SweepWhole(s: State, M: set<Ref>)
    requires !KeepInvariant(s) && !s.phase.InsideAtomic?
    requires Frame(s) && Surrounds(s, M) && LiveClosed(s) && DeadAreOrdinary(s) && CursorInPlace(s)
    requires forall r :: IsRoot(s, r) ==> Live(s, r)
    requires RestIsWhite(s) && DeadInTodo(s) && OutsideDead(s, M)
    ensures Good(s, M)
  {
    hide Surrounds, LiveClosed, DeadAreOrdinary, RestIsWhite, DeadInTodo, OutsideDead, IsRoot, Live,
      CursorInPlace, Frame;
  }
}
