/** A finalizer that is called while 'tobefnz' is being swept, and a second one that saves its object: for every state,
    the next cycle frees what that object holds, exactly if the sweep had come to the first object. */
module LuaExactPop {
  import opened LuaObjects
  import opened LuaMark
  import opened LuaTraverse
  import opened LuaAtomicStep
  import opened LuaSweep
  import opened LuaEvents
  import opened LuaInvariant
  import opened LuaCollect
  import opened LuaMutator
  import opened LuaFinalize
  import opened LuaRun
  import opened LuaCycle
  import opened LuaUnseen
  import opened LuaExact

  // ---------- An object that is black out of season ----------

  function Blacken(s: State, x: Ref): State {
    s.(color := s.color[x := Black])
  }

  /** x is marked, or would be marked without any effect on other objects. */
  ghost predicate Leaf(s: State, x: Ref) {
    x in s.heap.objs && x in s.color && s.heap.objs[x] == Userdata(Nil, Nil) && !s.color[x].Gray?
  }

  /** What is black, or a leaf, or dressed as something else: marking does not see the difference. */
  function Guise(s: State, d: Fields): State {
    Blacken(Dress(s, d), d.obj)
  }

  lemma GuiseParts(s: State, d: Fields)
    requires Leaf(s, d.obj)
    ensures var t := Guise(s, d);
            && t == s.(heap := t.heap, color := s.color[d.obj := Black]) && t.heap.cells == s.heap.cells
            && t.heap.objs == s.heap.objs[d.obj := Userdata(d.meta, d.uservalue)]
            && (forall r :: r != d.obj ==> IsWhite(t, r) == IsWhite(s, r)) && !IsWhite(t, d.obj)
  {
  }

  /** Marking a leaf only blackens it. */
  lemma MarkLeaf(s: State, x: Ref)
    requires Leaf(s, x) && IsWhite(s, x)
    ensures ReallyMark(s, x) == Blacken(s, x)
  {
    var s1 := s.(color := s.color[x := Gray]);
    assert MarkValue(s1, Nil) == s1;
    var s3 := s1.(color := s1.color[x := Black]);
    assert MarkValue(s3, Nil) == s3;
    assert s3.color == s.color[x := Black];
  }

  lemma {:induction false} ReallyMarkGuise(s: State, o: Ref, d: Fields)
    requires Leaf(s, d.obj) && IsWhite(s, o) && o != d.obj
    ensures IsWhite(Guise(s, d), o) && ReallyMark(Guise(s, d), o) == Guise(ReallyMark(s, o), d)
    ensures Leaf(ReallyMark(s, o), d.obj)
    decreases Whites(s), 0
  {
    GuiseParts(s, d);
    hide Guise;
    match s.heap.objs[o]
    case Userdata(m, u) =>
      var s1 := s.(color := s.color[o := Gray]);
      WhitesShrink(s, s1, o);
      PaintGuise(s, o, Gray, d);
      MarkValueGuise(s1, m, d);
      var s2 := MarkValue(s1, m);
      var s3 := s2.(color := s2.color[o := Black]);
      assert Whites(s3) == Whites(s2);
      PaintGuise(s2, o, Black, d);
      MarkValueGuise(s3, u, d);
      hide Whites, Leaf;
    case _ =>
      PaintGuise(s, o, Gray, d);
      PaintGuise(s, o, Black, d);
      QueueGuise(s, o, d);
      hide Whites, Leaf;
  }

  /** Painting another object. */
  lemma PaintGuise(s: State, o: Ref, paint: Color, d: Fields)
    requires Leaf(s, d.obj) && o != d.obj
    ensures var t := s.(color := s.color[o := paint]);
            Leaf(t, d.obj) && Guise(t, d) == Guise(s, d).(color := Guise(s, d).color[o := paint])
  {
    assert s.color[o := paint][d.obj := Black] == s.color[d.obj := Black][o := paint];
  }

  lemma QueueGuise(s: State, o: Ref, d: Fields)
    requires Leaf(s, d.obj) && o != d.obj
    ensures var t := s.(color := s.color[o := Gray], gray := [o] + s.gray);
            && Leaf(t, d.obj)
            && Guise(t, d) == Guise(s, d).(color := Guise(s, d).color[o := Gray], gray := [o] + Guise(s, d).gray)
  {
    assert s.color[o := Gray][d.obj := Black] == s.color[d.obj := Black][o := Gray];
  }

  lemma {:induction false} MarkValueGuise(s: State, v: Value, d: Fields)
    requires Leaf(s, d.obj)
    ensures MarkValue(Guise(s, d), v) == Guise(MarkValue(s, v), d) && Leaf(MarkValue(s, v), d.obj)
    decreases Whites(s), 1
  {
    GuiseParts(s, d);
    if v == Obj(d.obj) {
      if IsWhite(s, d.obj) {
        MarkLeaf(s, d.obj);
        assert s.color[d.obj := Black][d.obj := Black] == s.color[d.obj := Black];
      }
    } else if ValueIsWhite(s, v) {
      ReallyMarkGuise(s, v.ref, d);
    }
  }

  lemma {:induction false} MarkValuesGuise(s: State, vs: seq<Value>, d: Fields)
    requires Leaf(s, d.obj)
    ensures MarkValues(Guise(s, d), vs) == Guise(MarkValues(s, vs), d) && Leaf(MarkValues(s, vs), d.obj)
    decreases |vs|
  {
    if vs != [] {
      hide MarkValue, Leaf, Guise;
      MarkValueGuise(s, vs[0], d);
      MarkValuesGuise(MarkValue(s, vs[0]), vs[1..], d);
    }
  }

  lemma RestartGuise(g: State, d: Fields)
    requires Leaf(g, d.obj)
    ensures Restart(Guise(g, d)) == Guise(Restart(g), d) && Leaf(Restart(g), d.obj)
  {
    var g1 := Emptied(g);
    var vs := StartValues(g);
    GuiseParts(g, d);
    assert Leaf(g1, d.obj) && Guise(g1, d) == Emptied(Guise(g, d));
    assert StartValues(Guise(g, d)) == vs;
    MarkValuesGuise(g1, vs, d);
    var t := MarkValues(g1, vs);
    GuiseParts(t, d);
    hide MarkValues, StartValues;
    assert Guise(t.(phase := Propagate), d) == Guise(t, d).(phase := Propagate);
  }

  // ---------- The next cycle ----------

  ghost predicate InCell(s: State, cell: Cell, x: Ref) {
    cell in s.heap.cells && s.heap.cells[cell] == Obj(x)
  }

  lemma RestartPath(g: State, p: seq<Ref>, x: Ref)
    requires FastPath(g, p, x) && g.phase.Pause?
    ensures FastPath(Restart(g), p, x) && Restart(g).heap == g.heap && Restart(g).phase.Propagate?
  {
    StepIs(g, 0, true);
    assert RootValues(Restart(g)) == RootValues(g);
    hide Refers;
  }

  /** Marking a value that an upvalue holds is what the barrier for the upvalue does. */
  lemma MarkCellFine(e: State, M: set<Ref>, cell: Cell, x: Ref)
    requires Fine(e, M) && e.phase.Propagate? && InCell(e, cell, x) && Accessible(e, x)
    ensures Fine(MarkValue(e, Obj(x)), M)
  {
    hide Fine, StoreCell, MarkValue, Accessible, InCell;
    StoreCellIs(e, cell, x);
    CellFine(e, cell, Obj(x), M);
  }

  lemma StoreCellIs(e: State, cell: Cell, x: Ref)
    requires e.phase.Propagate? && InCell(e, cell, x)
    ensures StoreCell(e, cell, Obj(x)) == MarkValue(e, Obj(x))
  {
    assert e.heap.cells[cell := Obj(x)] == e.heap.cells;
    assert e.(heap := e.heap.(cells := e.heap.cells[cell := Obj(x)])) == e;
    hide MarkValue;
  }

  lemma MarkedLeaf(e: State, d: Fields)
    requires Leaf(e, d.obj)
    ensures var f := MarkValue(e, Obj(d.obj));
            && Guise(e, d) == Dress(f, d) && f == e.(color := f.color) && Leaf(f, d.obj) && Marked(f.color, d.obj)
  {
    if IsWhite(e, d.obj) {
      MarkLeaf(e, d.obj);
    } else {
      assert e.color[d.obj := Black] == e.color;
    }
  }

  lemma LeafUnseen(s: State, x: Ref, M: set<Ref>)
    requires Good(s, M) && KeepInvariant(s) && Leaf(s, x) && Marked(s.color, x)
    ensures Unseen(s, x) && HasFields(s, x, true)
  {
    var c := MARKING.(within := M);
    assert Queues(s, c);
    assert GrayList(s.heap, s.color, s.gray) && GrayList(s.heap, s.color, s.grayagain);
  }

  lemma SamePath(s: State, t: State, p: seq<Ref>, x: Ref)
    requires FastPath(s, p, x) && t.heap == s.heap && RootValues(t) == RootValues(s)
    requires t.mainthread == s.mainthread && t.fixedgc == s.fixedgc
    ensures FastPath(t, p, x)
  {
    hide Refers;
  }

  lemma PathReaches(s: State, p: seq<Ref>, x: Ref)
    requires FastPath(s, p, x)
    ensures Accessible(s, x)
  {
    PathLast(s, p, x);
    PathHolds(s, p, x, |p| - 1);
  }

  /** In a pause: x, which an upvalue holds, is black out of season, and is all that holds c. */
  lemma BlackFrees(g: State, M: set<Ref>, d: Fields, c: Ref, cell: Cell, p: seq<Ref>, max: nat) returns (n: nat)
    requires Fine(g, M) && g.phase.Pause? && Leaf(g, d.obj) && c !in M && max > 0
    requires FastPath(g, p, d.obj) && InCell(g, cell, d.obj) && Holds(d, true, c)
    ensures var t := Idle(Guise(g, d), max, n); Accessible(t, c) && c !in t.heap.objs
  {
    var e := Restart(g);
    var x := d.obj;
    var f := MarkValue(e, Obj(x));
    hide Fine, Leaf, FastPath, Holds, Restart, Idle, MarkValue, Guise, Unseen, Accessible, HasFields, Dress, InCell;
    RestartGuise(g, d);
    RestartPath(g, p, x);
    RestartFine(g, M);
    PathReaches(e, p, x);
    assert InCell(e, cell, x) by { SameCell(g, e, cell, x); }
    MarkCellFine(e, M, cell, x);
    MarkedLeaf(e, d);
    SamePath(e, f, p, x);
    FinePhase(f, M);
    LeafUnseen(f, x, M);
    var k := UnseenFrees(f, M, d, true, c, p, max);
    n := k + 1;
    GuisePhase(g, d);
    PauseRestarts(Guise(g, d), max, k);
  }

  lemma SameCell(s: State, t: State, cell: Cell, x: Ref)
    requires InCell(s, cell, x) && t.heap == s.heap
    ensures InCell(t, cell, x)
  {
  }

  lemma GuisePhase(g: State, d: Fields)
    ensures Guise(g, d).phase == g.phase
  {
  }

  lemma RestartFine(g: State, M: set<Ref>)
    requires Fine(g, M) && g.phase.Pause?
    ensures Fine(Restart(g), M)
  {
    StepIs(g, 0, true);
    hide Fine, SingleStep, Restart;
    StepFine(g, 0, true, M);
  }

  lemma PauseRestarts(s: State, max: nat, k: nat)
    requires s.phase.Pause?
    ensures Idle(s, max, k + 1) == Idle(Restart(s), max, k)
  {
    StepIs(s, max, true);
  }

  // ---------- The end of the cycle in which the finalizer was called ----------

  lemma BlackWhiten(s: State, o: Ref, x: Ref)
    requires o != x
    ensures MakeWhite(Blacken(s, x), o) == Blacken(MakeWhite(s, o), x)
  {
    assert s.color[x := Black][o := White(s.white)] == s.color[o := White(s.white)][x := Black];
  }

  lemma BlackFree(s: State, o: Ref, x: Ref)
    requires o != x
    ensures Free(Blacken(s, x), o) == Blacken(Free(s, o), x)
  {
    assert s.color[x := Black] - {o} == (s.color - {o})[x := Black];
  }

  lemma BlackPlace(s: State, x: Ref, p: Cursor)
    ensures PlaceOf(Blacken(s, x), p) == PlaceOf(s, p) && Todo(Blacken(s, x), p) == Todo(s, p)
    ensures forall l :: ListOf(Blacken(s, x), l) == ListOf(s, l)
    ensures forall r :: r != x ==> IsDead(Blacken(s, x), r) == IsDead(s, r)
  {
  }

  ghost predicate InAllGc(s: State, p: Cursor) {
    p == NoCursor || (PlaceOf(s, p).At? && PlaceOf(s, p).list == AllGc)
  }

  lemma NoCursorAllGc(s: State)
    ensures InAllGc(s, NoCursor)
  {
  }

  lemma IndexStays(q: seq<Ref>, y: Ref, i: nat)
    requires y in q && i < |q| && IndexOf(q, y) < i
    ensures y in q[..i] + q[i + 1..]
  {
    assert q[..i][IndexOf(q, y)] == y;
  }

  lemma TodoAllGc(s: State, p: Cursor)
    requires Todo(s, p) != [] && InAllGc(s, p)
    ensures PlaceOf(s, p).At? && PlaceOf(s, p).list == AllGc && PlaceOf(s, p).index < |s.allgc|
  {
  }

  lemma BlackList(s: State, q: seq<Ref>, x: Ref)
    ensures Blacken(s, x).(allgc := q) == Blacken(s.(allgc := q), x)
  {
  }

  lemma SweepOneBlack(s: State, p: Cursor, x: Ref)
    requires Todo(s, p) != [] && InAllGc(s, p) && x !in s.allgc
    ensures Todo(Blacken(s, x), p) != []
    ensures var (t, r) := SweepOne(s, p); SweepOne(Blacken(s, x), p) == (Blacken(t, x), r) && InAllGc(t, r) && x !in t.allgc
  {
    hide Todo, InAllGc, Blacken, Free, MakeWhite, IsDead, PlaceOf, Shrinks;
    BlackPlace(s, x, p);
    TodoAllGc(s, p);
    var i := PlaceOf(s, p).index;
    var q := s.allgc;
    var rest := q[..i] + q[i + 1..];
    assert q[i] in q && x !in rest;
    BlackWhiten(s, q[i], x);
    BlackList(s, rest, x);
    BlackFree(s.(allgc := rest), q[i], x);
    SweepOneStays(s, p);
    FreeLists(s.(allgc := rest), q[i]);
    FreeLists(s, q[i]);
  }

  lemma FreeLists(s: State, o: Ref)
    ensures Free(s, o).allgc == s.allgc && MakeWhite(s, o).allgc == s.allgc
  {
  }

  lemma {:induction false} SweepListBlack(s: State, p: Cursor, count: nat, x: Ref)
    requires InAllGc(s, p) && x !in s.allgc
    ensures var (t, r) := SweepList(s, p, count);
            SweepList(Blacken(s, x), p, count) == (Blacken(t, x), r) && InAllGc(t, r) && x !in t.allgc
    decreases count
  {
    hide Blacken, SweepOne, Todo, PlaceOf, ListOf, InAllGc;
    BlackPlace(s, x, p);
    if Todo(s, p) != [] {
      if count > 0 {
        SweepOneBlack(s, p, x);
        var (t, r) := SweepOne(s, p);
        SweepListBlack(t, r, count - 1, x);
      }
    } else {
      NoCursorAllGc(s);
    }
  }

  /** What is left of the cycle: the sweep is in 'allgc', where x is not. */
  ghost predicate LastPhases(s: State, x: Ref) {
    && (s.phase.SweepToBeFnz? || s.phase.SweepEnd? || s.phase.CallFin?) && x != s.mainthread && x !in s.allgc
    && (s.phase.SweepToBeFnz? ==> InAllGc(s, s.sweepgc))
  }

  lemma BlackCursor(t: State, x: Ref)
    ensures forall cursor: Cursor :: Blacken(t.(sweepgc := cursor), x) == Blacken(t, x).(sweepgc := cursor)
    ensures forall p: Phase, cursor: Cursor ::
              Blacken(t.(phase := p, sweepgc := cursor), x) == Blacken(t, x).(phase := p, sweepgc := cursor)
    ensures forall p: Phase :: Blacken(t.(phase := p), x) == Blacken(t, x).(phase := p)
    ensures Blacken(t, x).phase == t.phase && Blacken(t, x).sweepgc == t.sweepgc && Blacken(t, x).mainthread == t.mainthread
    ensures forall cursor: Cursor :: InAllGc(t, cursor) ==> InAllGc(t.(sweepgc := cursor), cursor)
  {
  }

  lemma StepBlack(s: State, max: nat, x: Ref)
    requires LastPhases(s, x) && !s.phase.CallFin?
    ensures SingleStep(Blacken(s, x), max, true) == Blacken(SingleStep(s, max, true), x)
    ensures LastPhases(SingleStep(s, max, true), x) && Shrinks(s, SingleStep(s, max, true))
  {
    hide SweepList, PlaceOf;
    BlackCursor(s, x);
    if s.phase.SweepEnd? {
      BlackWhiten(s, s.mainthread, x);
    } else if s.sweepgc != NoCursor {
      SweepListBlack(s, s.sweepgc, max, x);
      var (t, r) := SweepList(s, s.sweepgc, max);
      SweptPhase(s, s.sweepgc, max);
      BlackCursor(t, x);
    }
  }

  /** Objects may have been freed; nothing else has changed that a program could see. */
  ghost predicate Shrinks(s: State, t: State) {
    && t.heap.cells == s.heap.cells && RootValues(t) == RootValues(s) && t.running == s.running
    && t.mainthread == s.mainthread && t.fixedgc == s.fixedgc && t.tobefnz == s.tobefnz && t.finobj == s.finobj
    && forall r :: r in t.heap.objs ==> r in s.heap.objs && t.heap.objs[r] == s.heap.objs[r]
  }

  lemma {:induction false} SweptPhase(s: State, p: Cursor, count: nat)
    requires InAllGc(s, p)
    ensures var (t, r) := SweepList(s, p, count); t.phase == s.phase && Shrinks(s, t)
    decreases count
  {
    hide SweepOne, Todo, InAllGc, PlaceOf, Shrinks;
    ShrinksRefl(s);
    if Todo(s, p) != [] && count > 0 {
      var (t, r) := SweepOne(s, p);
      SweepOneStays(s, p);
      SweptPhase(t, r, count - 1);
      ShrinksTransitive(s, t, SweepList(t, r, count - 1).0);
    }
  }

  lemma ShrinksRefl(s: State)
    ensures Shrinks(s, s)
  {
  }

  lemma ShrinksTransitive(s: State, t: State, u: State)
    requires Shrinks(s, t) && Shrinks(t, u)
    ensures Shrinks(s, u)
  {
  }

  lemma SweepOneStays(s: State, p: Cursor)
    requires Todo(s, p) != [] && InAllGc(s, p)
    ensures var (t, r) := SweepOne(s, p);
            InAllGc(t, r) && t.phase == s.phase && Shrinks(s, t)
  {
    var i := PlaceOf(s, p).index;
    var q := s.allgc;
    assert Todo(s, p) == q[i..];
    if IsDead(s, q[i]) {
      match p {
        case After(y) => IndexStays(q, y, i);
        case _ =>
      }
    }
  }

  // ---------- The whole run ----------

  /** The closure q, which the path p leads to, has an upvalue that holds nil. */
  ghost predicate EmptyUpvalue(s: State, cell: Cell, p: seq<Ref>, q: Ref) {
    && FastPath(s, p, q) && q in s.heap.objs && s.heap.objs[q].LClosure? && cell in s.heap.objs[q].upvals
    && cell in s.heap.cells && s.heap.cells[cell] == Nil
  }

  /** x is a userdata, and only it holds c; the program has a place to save x in. */
  ghost predicate Carries(s: State, x: Ref, c: Ref, meta: Value, cell: Cell, p: seq<Ref>, q: Ref) {
    && x != c && x !in p && x in s.heap.objs && s.heap.objs[x] == Userdata(meta, Obj(c))
    && OnlyHolder(s, x, c) && EmptyUpvalue(s, cell, p, q)
  }

  lemma CarriesSame(s: State, t: State, x: Ref, c: Ref, meta: Value, cell: Cell, p: seq<Ref>, q: Ref)
    requires Carries(s, x, c, meta, cell, p, q) && t.heap == s.heap && RootValues(t) == RootValues(s)
    requires t.mainthread == s.mainthread && t.fixedgc == s.fixedgc && t.finobj == s.finobj
    requires forall r :: r in t.tobefnz ==> r in s.tobefnz
    ensures Carries(t, x, c, meta, cell, p, q)
  {
    hide Refers;
    SamePath(s, t, p, q);
  }

  lemma ShrinksPlain(s: State, t: State)
    requires Shrinks(s, t)
    ensures KeepsPlain(s, t)
  {
  }

  lemma ShrinksHolder(s: State, t: State, x: Ref, c: Ref)
    requires Shrinks(s, t) && OnlyHolder(s, x, c)
    ensures OnlyHolder(t, x, c)
  {
    forall o | Refers(t.heap, o, c) ensures o == x || o == c {
      assert Refers(s.heap, o, c);
    }
    hide Refers;
  }

  lemma CarriesStep(s: State, t: State, x: Ref, c: Ref, meta: Value, cell: Cell, p: seq<Ref>, q: Ref, M: set<Ref>)
    requires Carries(s, x, c, meta, cell, p, q) && Shrinks(s, t) && Fine(s, M) && Fine(t, M) && x in t.tobefnz
    ensures Carries(t, x, c, meta, cell, p, q)
  {
    ShrinksHolder(s, t, x, c);
    ShrinksPlain(s, t);
    hide Fine, OnlyHolder, FastPath;
    forall i | 0 <= i < |p| ensures p[i] in t.heap.objs { StillThere(s, t, p, q, i, M); }
    PathKept(s, t, p, q, M, M);
    PathLast(t, p, q);
    WaitingThere(t, x, M);
  }

  lemma WaitingThere(t: State, x: Ref, M: set<Ref>)
    requires Fine(t, M) && x in t.tobefnz
    ensures x in t.heap.objs && x in M && Live(t, x)
  {
    FinalizersIn(t, M);
    LiveSetClosed(t, M);
  }

  /** The cycle goes on to its last phase as if x had been swept. */
  lemma {:induction false} BlackRun(s: State, M: set<Ref>, x: Ref, c: Ref, meta: Value, cell: Cell, p: seq<Ref>, q: Ref, max: nat)
    returns (n: nat, u: State)
    requires Fine(s, M) && LastPhases(s, x) && s.tobefnz == [x] && Carries(s, x, c, meta, cell, p, q) && max > 0
    ensures Idle(Blacken(s, x), max, n) == Blacken(u, x) && Fine(u, M) && u.phase.CallFin? && LastPhases(u, x)
    ensures u.tobefnz == [x] && Carries(u, x, c, meta, cell, p, q)
    decreases PhasesLeft(s.phase), WorkLeft(s)
  {
    hide Fine, SingleStep, WorkLeft, Carries, Blacken;
    if s.phase.CallFin? {
      n, u := 0, s;
    } else {
      var t := SingleStep(s, max, true);
      StepBlack(s, max, x);
      StepFine(s, max, true, M);
      StepDescends(s, max, true, M);
      assert x in t.tobefnz;
      CarriesStep(s, t, x, c, meta, cell, p, q, M);
      n, u := BlackRun(t, M, x, c, meta, cell, p, q, max);
      n := n + 1;
    }
  }

  /** A finalizer is called and returns: its argument has left the stack. */
  function Called(s: State): State
    requires s.tobefnz != []
  {
    var t := CallFinalizer(s);
    if s.running in s.heap.objs then SetObject(t, s.running, s.heap.objs[s.running]) else t
  }

  lemma CalledIs(s: State)
    requires s.tobefnz != [] && IsThread(s, s.running)
    ensures Called(s) == ToFinalize(s) && ToFinalize(s).heap == s.heap
  {
    var st := s.heap.objs[s.running].stack;
    assert s.heap.objs[s.running := Thread([Obj(s.tobefnz[0])] + st)][s.running := Thread(st)] == s.heap.objs;
  }

  /** A finalizer is called, saves its argument in an upvalue, and returns. */
  function CalledSaving(s: State, cell: Cell): State
    requires s.tobefnz != []
  {
    var t := StoreCell(CallFinalizer(s), cell, Obj(s.tobefnz[0]));
    if s.running in s.heap.objs then SetObject(t, s.running, s.heap.objs[s.running]) else t
  }

  function WithCell(s: State, cell: Cell, v: Value): State {
    s.(heap := s.heap.(cells := s.heap.cells[cell := v]))
  }

  lemma SavingIs(s: State, cell: Cell)
    requires s.tobefnz != [] && IsThread(s, s.running) && s.phase.CallFin?
    ensures CalledSaving(s, cell) == WithCell(ToFinalize(s), cell, Obj(s.tobefnz[0]))
    ensures CalledSaving(s, cell) == StoreCell(ToFinalize(s), cell, Obj(s.tobefnz[0]))
    ensures ToFinalize(s).heap == s.heap && ToFinalize(s).phase.CallFin? && ToFinalize(s).tobefnz == s.tobefnz[1..]
  {
    var st := s.heap.objs[s.running].stack;
    assert s.heap.objs[s.running := Thread([Obj(s.tobefnz[0])] + st)][s.running := Thread(st)] == s.heap.objs;
  }

  /** The first finalizer, the rest of the cycle, the second finalizer, and more steps of the collector. */
  function TwoCalls(s: State, cell: Cell, max: nat, n: nat, m: nat): State
    requires s.tobefnz != []
  {
    var b := Idle(Called(s), max, n);
    if b.phase.CallFin? && b.tobefnz != [] then Idle(CalledSaving(b, cell), max, m) else b
  }

  ghost predicate ReachesFreed(t: State) {
    exists c: Ref :: Accessible(t, c) && c !in t.heap.objs
  }

  lemma FineReaches(s: State, M: set<Ref>)
    requires Fine(s, M)
    ensures !ReachesFreed(s)
  {
    forall c: Ref | Accessible(s, c) ensures c in s.heap.objs { AccessibleHeld(s, M, c); }
  }

  lemma SavingFine(s: State, M: set<Ref>, cell: Cell)
    requires Fine(s, M) && s.phase.CallFin? && s.tobefnz != []
    ensures Fine(CalledSaving(s, cell), M)
  {
    var x := s.tobefnz[0];
    WaitingThere(s, x, M);
    FineThread(s, M);
    SavingIs(s, cell);
    hide Good, ClosedUnderRefs, ToFinalize, StoreCell, CalledSaving, WithCell;
    ToFinalizeGood(s, M);
    SameHeapClosed(s.heap, ToFinalize(s).heap, M);
    StoreCellGood(ToFinalize(s), cell, Obj(x), M);
  }

  lemma SameHeapClosed(h: Heap, k: Heap, M: set<Ref>)
    requires k == h && ClosedUnderRefs(h, M)
    ensures ClosedUnderRefs(k, M)
  {
  }

  lemma FineThread(s: State, M: set<Ref>)
    requires Fine(s, M)
    ensures IsThread(s, s.running)
  {
    assert Frame(s);
  }

  lemma CalledFine(s: State, M: set<Ref>)
    requires Fine(s, M) && s.tobefnz != [] && !BadPop(s)
    ensures Fine(Called(s), M)
  {
    FineThread(s, M);
    CalledIs(s);
    hide Good, ClosedUnderRefs, ToFinalize, Called, BadPop;
    ToFinalizeGood(s, M);
    SameHeapClosed(s.heap, ToFinalize(s).heap, M);
  }

  lemma CallsFine(s: State, M: set<Ref>, cell: Cell, max: nat, n: nat, m: nat)
    requires Fine(s, M) && s.tobefnz != [] && !BadPop(s)
    ensures Fine(TwoCalls(s, cell, max, n, m), M)
  {
    hide Fine, BadPop, Called, CalledSaving, Idle;
    CalledFine(s, M);
    IdleFine(Called(s), M, max, n);
    var b := Idle(Called(s), max, n);
    if b.phase.CallFin? && b.tobefnz != [] {
      SavingFine(b, M, cell);
      IdleFine(CalledSaving(b, cell), M, max, m);
    }
  }

  // ---------- From the second call to the next cycle ----------

  lemma BlackFinalize(s: State, x: Ref)
    requires s.tobefnz != [] && (s.tobefnz[0] != x || !IsSweepPhase(s))
    ensures ToFinalize(Blacken(s, x)) == Blacken(ToFinalize(s), x)
  {
    if IsSweepPhase(s) {
      var o := s.tobefnz[0];
      assert s.color[x := Black][o := White(s.white)] == s.color[o := White(s.white)][x := Black];
    }
  }

  lemma BlackSaving(s: State, x: Ref, cell: Cell)
    requires s.tobefnz != [] && s.phase.CallFin? && IsThread(s, s.running)
    ensures CalledSaving(Blacken(s, x), cell) == Blacken(CalledSaving(s, cell), x)
  {
    SavingIs(s, cell);
    SavingIs(Blacken(s, x), cell);
    BlackFinalize(s, x);
    hide ToFinalize, CalledSaving, StoreCell;
  }

  lemma SavedRefs(s: State, cell: Cell, x: Ref, o: Ref, r: Ref)
    requires cell in s.heap.cells && s.heap.cells[cell] == Nil
    ensures Refers(s.heap, o, r) ==> Refers(WithCell(s, cell, Obj(x)).heap, o, r)
    ensures Refers(WithCell(s, cell, Obj(x)).heap, o, r) ==> Refers(s.heap, o, r) || r == x
  {
    var h, k := s.heap, WithCell(s, cell, Obj(x)).heap;
    if o in h.objs && h.objs[o].LClosure? {
      var ups := h.objs[o].upvals;
      if InCells(h.cells, ups, r) {
        var u :| u in ups && u in h.cells && h.cells[u] == Obj(r);
        assert u in ups && u in k.cells && k.cells[u] == Obj(r);
      }
      if InCells(k.cells, ups, r) {
        var u :| u in ups && u in k.cells && k.cells[u] == Obj(r);
        assert u != cell ==> h.cells[u] == Obj(r);
      }
    }
  }

  /** The userdata is saved: the path goes on to it. */
  lemma SavedPath(s: State, t: State, cell: Cell, x: Ref, p: seq<Ref>, q: Ref)
    requires EmptyUpvalue(s, cell, p, q) && x !in p && t == WithCell(s, cell, Obj(x))
    ensures FastPath(t, p + [x], x)
  {
    var w := p + [x];
    forall i | 0 <= i < |w| - 1 ensures Refers(t.heap, w[i], w[i + 1]) && w[i] != x && !t.heap.objs[w[i]].Table? {
      assert w[i] == p[i] && p[i] in p;
      if i < |p| - 1 {
        assert Refers(s.heap, p[i], p[i + 1]);
        SavedRefs(s, cell, x, p[i], p[i + 1]);
      } else {
        assert cell in s.heap.objs[q].upvals && t.heap.cells[cell] == Obj(x);
      }
    }
    hide Refers;
    assert IsPath(t.heap, w) && IsProgramRoot(t, w[0]);
  }

  lemma SavedHolder(s: State, t: State, cell: Cell, x: Ref, c: Ref)
    requires OnlyHolder(s, x, c) && x != c && cell in s.heap.cells && s.heap.cells[cell] == Nil
    requires t == WithCell(s, cell, Obj(x))
    ensures OnlyHolder(t, x, c)
  {
    forall o | Refers(t.heap, o, c) ensures o == x || o == c {
      SavedRefs(s, cell, x, o, c);
    }
    hide Refers;
  }

  /** x with nothing in it. */
  function Hollow(s: State, x: Ref): State
    requires x in s.heap.objs
  {
    SetObject(s, x, Userdata(Nil, Nil))
  }

  lemma EmptyFieldIs(s: State, x: Ref)
    requires x in s.heap.objs && s.heap.objs[x].Userdata?
    ensures var t := StoreField(s, x, Metatable, Nil);
            && t == SetObject(s, x, Userdata(Nil, s.heap.objs[x].uservalue))
            && StoreField(t, x, UserValue, Nil) == Hollow(s, x)
  {
    var t := SetObject(s, x, Userdata(Nil, s.heap.objs[x].uservalue));
    assert t.heap.objs[x := Userdata(Nil, Nil)] == s.heap.objs[x := Userdata(Nil, Nil)];
  }

  lemma EmptyPath(s: State, x: Ref, p: seq<Ref>, u: Value)
    requires FastPath(s, p, x) && x in s.heap.objs && s.heap.objs[x].Userdata?
    ensures FastPath(SetObject(s, x, Userdata(Nil, u)), p, x)
  {
    var t := SetObject(s, x, Userdata(Nil, u));
    forall i | 0 <= i < |p| - 1 ensures Refers(t.heap, p[i], p[i + 1]) {
      assert Refers(s.heap, p[i], p[i + 1]) && t.heap.objs[p[i]] == s.heap.objs[p[i]];
    }
    hide Refers;
  }

  lemma EmptiedIs(s: State, x: Ref)
    requires x in s.heap.objs
    ensures Hollow(s, x) == SetObject(s, x, Userdata(Nil, Nil))
  {
  }

  lemma NilAllowed(s: State, x: Ref)
    requires Accessible(s, x) && x in s.heap.objs && s.heap.objs[x].Userdata?
    ensures Allowed(s, PutField(x, Metatable, Nil)) && Allowed(s, PutField(x, UserValue, Nil))
  {
    hide Accessible;
  }

  lemma EmptyFine(s: State, M: set<Ref>, x: Ref, p: seq<Ref>)
    requires Fine(s, M) && FastPath(s, p, x) && x in s.heap.objs && s.heap.objs[x].Userdata?
    ensures Fine(Hollow(s, x), M) && FastPath(Hollow(s, x), p, x)
  {
    hide Fine, FastPath, StoreField, Accessible, Hollow, Allowed;
    var u := s.heap.objs[x].uservalue;
    var t := StoreField(s, x, Metatable, Nil);
    EmptyFieldIs(s, x);
    EmptyPath(s, x, p, u);
    EmptyPath(s, x, p, Nil);
    PathReaches(s, p, x);
    PathReaches(t, p, x);
    NilAllowed(s, x);
    NilAllowed(t, x);
    assert Hollow(s, x) == SetObject(s, x, Userdata(Nil, Nil)) by { EmptiedIs(s, x); }
    FieldFine(s, x, Metatable, Nil, M);
    FieldFine(t, x, UserValue, Nil, M);
  }

  /** When x is empty nobody holds c. */
  lemma EmptyHolder(s: State, x: Ref, c: Ref)
    requires OnlyHolder(s, x, c) && x in s.heap.objs && x != c
    ensures NobodyHolds(Hollow(s, x), c)
  {
    var t := Hollow(s, x);
    forall o | Refers(t.heap, o, c) ensures o == c {
      assert o != x ==> Refers(s.heap, o, c);
    }
    hide Refers;
  }

  lemma PauseWithout(s: State, M: set<Ref>, c: Ref)
    requires Fine(s, M) && s.phase.Pause? && NobodyHolds(s, c)
    ensures Fine(s, M - {c})
  {
    hide Good, ClosedUnderRefs, NobodyHolds, Surrounds;
    SurroundsWithout(s, M, c);
    PauseAnySet(s, M - {c}, M);
  }

  lemma GuiseIs(s: State, x: Ref, meta: Value, c: Ref)
    requires x in s.heap.objs && s.heap.objs[x] == Userdata(meta, Obj(c)) && x in s.color && !s.color[x].Gray?
    ensures Guise(Hollow(s, x), Fields(x, meta, Obj(c))) == Blacken(s, x) && Leaf(Hollow(s, x), x)
  {
    assert s.heap.objs[x := Userdata(Nil, Nil)][x := Userdata(meta, Obj(c))] == s.heap.objs;
  }

  /** A pause in which x, saved in an upvalue, is black. */
  lemma PausedBlack(s: State, M: set<Ref>, x: Ref, c: Ref, meta: Value, cell: Cell, p: seq<Ref>, max: nat) returns (n: nat)
    requires Fine(s, M) && s.phase.Pause? && max > 0 && x != c && FastPath(s, p, x) && OnlyHolder(s, x, c)
    requires x in s.heap.objs && s.heap.objs[x] == Userdata(meta, Obj(c)) && InCell(s, cell, x)
    ensures var t := Idle(Blacken(s, x), max, n); Accessible(t, c) && c !in t.heap.objs
  {
    var g := Hollow(s, x);
    var d := Fields(x, meta, Obj(c));
    PauseColors(s, M, x, p);
    GuiseIs(s, x, meta, c);
    EmptyFine(s, M, x, p);
    EmptyHolder(s, x, c);
    assert InCell(g, cell, x) && g.phase.Pause? && Holds(d, true, c);
    hide Fine, FastPath, OnlyHolder, NobodyHolds, Idle, Guise, Leaf, InCell, Blacken, Accessible, Hollow, Holds;
    PauseWithout(g, M, c);
    n := BlackFrees(g, M - {c}, d, c, cell, p, max);
  }

  lemma PauseColors(s: State, M: set<Ref>, x: Ref, p: seq<Ref>)
    requires Fine(s, M) && s.phase.Pause? && FastPath(s, p, x) && x in s.heap.objs && s.heap.objs[x].Userdata?
    ensures x in s.color && !s.color[x].Gray?
  {
    NoCursorNothing(s);
    hide Refers, LiveClosed, IsRoot, DeadAreOrdinary;
    assert Current(s, x) || x in s.fixedgc;
    assert x in s.fixedgc ==> IsString(s.heap, x);
  }

  lemma CarriesParts(s: State, x: Ref, c: Ref, meta: Value, cell: Cell, p: seq<Ref>, q: Ref)
    requires Carries(s, x, c, meta, cell, p, q)
    ensures x != c && x !in p && x in s.heap.objs && s.heap.objs[x] == Userdata(meta, Obj(c))
    ensures OnlyHolder(s, x, c) && EmptyUpvalue(s, cell, p, q) && cell in s.heap.cells && s.heap.cells[cell] == Nil
  {
  }

  lemma FinalizeKeeps(s: State)
    requires s.tobefnz != []
    ensures var t := ToFinalize(s);
            && RootValues(t) == RootValues(s) && t.mainthread == s.mainthread && t.fixedgc == s.fixedgc && t.finobj == s.finobj
            && t.tobefnz == s.tobefnz[1..] && t.heap == s.heap && t.running == s.running && t.phase == s.phase
  {
  }

  lemma CellHolds(s: State, t: State, cell: Cell, x: Ref)
    requires t.heap == WithCell(s, cell, Obj(x)).heap
    ensures InCell(t, cell, x) && t.heap.objs == s.heap.objs
  {
  }

  /** The second finalizer is called with x black, and saves it. */
  lemma SavingFrees(s: State, M: set<Ref>, x: Ref, c: Ref, meta: Value, cell: Cell, p: seq<Ref>, q: Ref, max: nat) returns (m: nat)
    requires Fine(s, M) && s.phase.CallFin? && s.tobefnz == [x] && Carries(s, x, c, meta, cell, p, q) && max > 0
    ensures ReachesFreed(Idle(CalledSaving(Blacken(s, x), cell), max, m))
  {
    hide Fine, FastPath, OnlyHolder, Carries, Idle, Blacken, CalledSaving, InCell, Accessible, ToFinalize, EmptyUpvalue,
      StoreCell, Refers;
    var t := CalledSaving(s, cell);
    var u := t.(phase := Pause);
    FineThread(s, M);
    CarriesParts(s, x, c, meta, cell, p, q);
    SavingIs(s, cell);
    BlackSaving(s, x, cell);
    SavingFine(s, M, cell);
    var w := ToFinalize(s);
    FinalizeKeeps(s);
    CarriesSame(s, w, x, c, meta, cell, p, q);
    CarriesParts(w, x, c, meta, cell, p, q);
    SavedPath(w, t, cell, x, p, q);
    SavedHolder(w, t, cell, x, c);
    SamePath(t, u, p + [x], x);
    SameHolder(t, u, x, c);
    ToPause(t, M, max);
    assert InCell(u, cell, x) by { CellHolds(w, u, cell, x); }
    var k := PausedBlack(u, M, x, c, meta, cell, p + [x], max);
    m := k + 1;
    BlackToPause(t, x, max, k);
  }

  lemma SameHolder(s: State, t: State, x: Ref, c: Ref)
    requires OnlyHolder(s, x, c) && t == s.(phase := t.phase)
    ensures OnlyHolder(t, x, c)
  {
    hide Refers;
  }

  lemma ToPause(s: State, M: set<Ref>, max: nat)
    requires Fine(s, M) && s.phase.CallFin? && s.tobefnz == []
    ensures Fine(s.(phase := Pause), M)
  {
    assert SingleStep(s, max, true) == s.(phase := Pause);
    hide Fine, SingleStep;
    StepFine(s, max, true, M);
  }

  lemma BlackToPause(s: State, x: Ref, max: nat, k: nat)
    requires s.phase.CallFin? && s.tobefnz == []
    ensures Idle(Blacken(s, x), max, k + 1) == Idle(Blacken(s.(phase := Pause), x), max, k)
  {
    assert SingleStep(Blacken(s, x), max, true) == Blacken(s.(phase := Pause), x);
  }

  /** The object whose turn comes second has not been swept, and the sweep stands behind the first. */
  lemma BadPopFrees(s: State, M: set<Ref>, x: Ref, c: Ref, meta: Value, cell: Cell, p: seq<Ref>, q: Ref, max: nat)
    returns (n: nat, m: nat)
    requires Fine(s, M) && BadPop(s) && |s.tobefnz| == 2 && s.tobefnz[1] == x && IsColor(s.color, x, Black) && max > 0
    requires Carries(s, x, c, meta, cell, p, q)
    ensures ReachesFreed(TwoCalls(s, cell, max, n, m))
    ensures IsThread(Called(s), s.running) && IsThread(Idle(Called(s), max, n), Idle(Called(s), max, n).running)
  {
    hide Fine, BadPop, Carries, Called, Idle, Blacken, CalledSaving, ToFinalize, LastPhases;
    var o := s.tobefnz[0];
    var w := MakeWhite(s, x);
    SweptInstead(s, M, x);
    var a := Called(w);
    FineThread(s, M);
    FineThread(w, M);
    CalledIs(s);
    CalledIs(w);
    BlackFinalize(w, x);
    FinalizeKeeps(w);
    assert s.tobefnz[1..] == [x] && a.tobefnz == [x];
    CalledFine(w, M);
    CarriesSame(s, a, x, c, meta, cell, p, q);
    InTheLastPhases(w, x, o, M);
    assert Called(s) == Blacken(a, x);
    var b;
    n, b := BlackRun(a, M, x, c, meta, cell, p, q, max);
    m := SavingFrees(b, M, x, c, meta, cell, p, q, max);
    BlackCalls(b, x);
    FineThread(b, M);
    FineThread(a, M);
  }

  lemma BlackCalls(b: State, x: Ref)
    ensures Blacken(b, x).phase == b.phase && Blacken(b, x).tobefnz == b.tobefnz
    ensures Blacken(b, x).running == b.running && Blacken(b, x).heap == b.heap
  {
  }

  /** Had x been swept, the call would be harmless. */
  lemma SweptInstead(s: State, M: set<Ref>, x: Ref)
    requires Fine(s, M) && BadPop(s) && |s.tobefnz| == 2 && s.tobefnz[1] == x && IsColor(s.color, x, Black)
    ensures var w := MakeWhite(s, x);
            && Fine(w, M) && !BadPop(w) && s == Blacken(w, x) && x != s.tobefnz[0] && w.sweepgc == After(w.tobefnz[0])
            && w.heap == s.heap && w.phase.SweepToBeFnz? && w.tobefnz == s.tobefnz
  {
    var w := MakeWhite(s, x);
    hide Fine, LiveClosed, DeadAreOrdinary, RestIsWhite, Good, Live;
    FinePhase(s, M);
    HeadLive(s, M);
    assert s.tobefnz[1..] == [x] && x in s.tobefnz;
    WaitingThere(s, x, M);
    NotFixed(s, x, M);
    WhitenGood(s, x, M);
    assert s.color[x := White(s.white)][x := Black] == s.color;
    SameFine(s, w, M);
  }

  lemma NotFixed(s: State, x: Ref, M: set<Ref>)
    requires Good(s, M) && IsColor(s.color, x, Black)
    ensures x !in s.fixedgc
  {
    assert Frame(s);
  }

  lemma SameFine(s: State, t: State, M: set<Ref>)
    requires Fine(s, M) && Good(t, M) && t.heap == s.heap
    ensures Fine(t, M)
  {
  }

  lemma InTheLastPhases(w: State, x: Ref, o: Ref, M: set<Ref>)
    requires Fine(w, M) && w.phase.SweepToBeFnz? && |w.tobefnz| == 2 && w.tobefnz[0] == o && w.tobefnz[1] == x && o != x
    requires w.sweepgc == After(o)
    ensures LastPhases(ToFinalize(w), x)
  {
    var t := ToFinalize(w);
    assert t.allgc == [o] + w.allgc;
    assert Listed(w);
    ListedOnce(w);
    assert x in w.tobefnz;
    assert o in t.allgc;
  }

  /** The call breaks safety exactly if the sweep stands behind the first object: if it does, the second finalizer saves
      its object, and the next cycle frees what only that object holds. */
  lemma BadPopExact(s: State, M: set<Ref>, x: Ref, c: Ref, meta: Value, cell: Cell, p: seq<Ref>, q: Ref, max: nat)
    requires Fine(s, M) && |s.tobefnz| == 2 && s.tobefnz[1] == x && IsColor(s.color, x, Black) && max > 0
    requires Carries(s, x, c, meta, cell, p, q)
    ensures (exists n, m :: ReachesFreed(TwoCalls(s, cell, max, n, m))) <==> BadPop(s)
  {
    hide Fine, BadPop, Carries, TwoCalls, ReachesFreed;
    if BadPop(s) {
      var n, m := BadPopFrees(s, M, x, c, meta, cell, p, q, max);
    } else {
      forall n, m ensures !ReachesFreed(TwoCalls(s, cell, max, n, m)) {
        CallsFine(s, M, cell, max, n, m);
        FineReaches(TwoCalls(s, cell, max, n, m), M);
      }
    }
  }
}
