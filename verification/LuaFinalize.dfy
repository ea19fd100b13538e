/** luaC_checkfinalizer, and taking an object off 'tobefnz' to call its finalizer (lgc.c:790-838, 902-921). */
module LuaFinalize {
  import opened LuaObjects
  import opened LuaMark
  import opened LuaTraverse
  import opened LuaKeys
  import opened LuaAtomicStep
  import opened LuaSweep
  import opened LuaEvents
  import opened LuaInvariant
  import opened LuaSweepGood
  import opened LuaCollect
  import opened LuaMutator
  import opened LuaLists

  // ---------- Moving one object from list to list ----------

  lemma {:induction false} IndexBefore(q: seq<Ref>, k: nat, x: Ref)
    requires x in q && k < |q| && q[k] != x
    ensures var p := q[..k] + q[k + 1..];
            x in p && p[IndexOf(p, x) + 1..] == if IndexOf(q, x) < k then q[IndexOf(q, x) + 1..k] + q[k + 1..]
                                                else q[IndexOf(q, x) + 1..]
  {
    var i := IndexOf(q, x);
    hide IndexOf;
    if i < k { IndexInFront(q, k, x, i); } else { IndexAfter(q, k, x, i); }
  }

  lemma IndexInFront(q: seq<Ref>, k: nat, x: Ref, i: nat)
    requires i < k < |q| && q[i] == x && x !in q[..i]
    ensures var p := q[..k] + q[k + 1..]; x in p && IndexOf(p, x) == i && p[i + 1..] == q[i + 1..k] + q[k + 1..]
  {
    var p := q[..k] + q[k + 1..];
    hide IndexOf;
    assert p[i] == x && p[..i] == q[..i];
    FirstIndex(p, x, i);
  }

  lemma IndexAfter(q: seq<Ref>, k: nat, x: Ref, i: nat)
    requires k < i < |q| && q[i] == x && x !in q[..i]
    ensures var p := q[..k] + q[k + 1..]; x in p && IndexOf(p, x) == i - 1 && p[i..] == q[i + 1..]
  {
    var p := q[..k] + q[k + 1..];
    hide IndexOf;
    assert p[i - 1] == x;
    assert forall y :: y in p[..i - 1] ==> y in q[..i];
    FirstIndex(p, x, i - 1);
  }

  lemma {:induction false} FirstIndex(q: seq<Ref>, x: Ref, i: nat)
    requires i < |q| && q[i] == x && x !in q[..i]
    ensures x in q && IndexOf(q, x) == i
  {
    if i > 0 {
      assert q[..i][0] == q[0];
      assert forall y :: y in q[1..][..i - 1] ==> y in q[..i];
      FirstIndex(q[1..], x, i - 1);
    }
  }

  function Behind(q: seq<Ref>, x: Ref): seq<Ref>
    requires x in q
  {
    q[IndexOf(q, x) + 1..]
  }

  lemma BehindRemoved(q: seq<Ref>, o: Ref, x: Ref)
    requires x in q && o in q && x != o
    ensures x in Without(q, o)
    ensures var i, k := IndexOf(q, x), IndexOf(q, o);
            Behind(Without(q, o), x) == if i < k then q[i + 1..k] + q[k + 1..] else Behind(q, x)
  {
    hide IndexOf, Behind, Without;
    var k := IndexOf(q, o);
    IndexBefore(q, k, x);
    WithoutIs(q, o);
    BehindIs(q, x);
    BehindIs(Without(q, o), x);
  }

  lemma WithoutIs(q: seq<Ref>, o: Ref)
    requires o in q
    ensures Without(q, o) == q[..IndexOf(q, o)] + q[IndexOf(q, o) + 1..]
  {
    hide IndexOf;
  }

  lemma BehindIs(q: seq<Ref>, x: Ref)
    requires x in q
    ensures Behind(q, x) == q[IndexOf(q, x) + 1..]
  {
    hide IndexOf;
  }

  /** Taking o out of a list, a cursor behind another element still has the rest to visit. */
  lemma RemovedTodo(q: seq<Ref>, o: Ref, x: Ref)
    requires x in q && x != o
    ensures x in Without(q, o)
    ensures forall y :: y in Behind(q, x) && y != o ==> y in Behind(Without(q, o), x)
  {
    if o in q {
      BehindRemoved(q, o, x);
      if IndexOf(q, x) < IndexOf(q, o) {
        BehindSplits(q, o, x);
      }
    }
    hide IndexOf, Without, Behind;
  }

  lemma BehindSplits(q: seq<Ref>, o: Ref, x: Ref)
    requires x in q && o in q && IndexOf(q, x) < IndexOf(q, o)
    ensures var i, k := IndexOf(q, x), IndexOf(q, o);
            forall y :: y in Behind(q, x) && y != o ==> y in q[i + 1..k] + q[k + 1..]
  {
    var i, k := IndexOf(q, x), IndexOf(q, o);
    assert q[k] == o;
    hide IndexOf;
    assert Behind(q, x) == q[i + 1..k] + ([o] + q[k + 1..]);
    OneLess(Behind(q, x), q[i + 1..k], q[k + 1..], o);
  }

  lemma OneLess(q: seq<Ref>, a: seq<Ref>, b: seq<Ref>, o: Ref)
    requires q == a + ([o] + b)
    ensures forall y :: y in q && y != o ==> y in a + b
  {
  }

  lemma WithoutMembers(q: seq<Ref>, o: Ref)
    requires NoDup(q)
    ensures forall y :: y in Without(q, o) <==> y in q && y != o
    ensures o in q ==> multiset(Without(q, o)) + multiset{o} == multiset(q)
  {
    hide IndexOf, NoDup;
    if o in q {
      var k := IndexOf(q, o);
      AroundOne(q, k);
      NotBehind(q, k);
      TakenOut(q, q[..k], q[k + 1..], o);
    }
  }

  lemma NotBehind(q: seq<Ref>, k: nat)
    requires NoDup(q) && k < |q|
    ensures q[k] !in q[k + 1..]
  {
  }

  lemma AroundOne(q: seq<Ref>, k: nat)
    requires k < |q|
    ensures q == q[..k] + ([q[k]] + q[k + 1..])
  {
  }

  lemma TakenOut(q: seq<Ref>, a: seq<Ref>, b: seq<Ref>, o: Ref)
    requires q == a + ([o] + b) && o !in a && o !in b
    ensures forall y :: y in a + b <==> y in q && y != o
    ensures multiset(a + b) + multiset{o} == multiset(q)
  {
  }

  // ---------- luaC_checkfinalizer ----------

  function ToFinObj(s: State, o: Ref): State {
    s.(allgc := Without(s.allgc, o), finobj := [o] + s.finobj, finalizable := s.finalizable + {o})
  }

  lemma ToFinObjListed(s: State, o: Ref)
    requires Listed(s) && o in s.allgc
    ensures Listed(ToFinObj(s, o))
  {
    var t := ToFinObj(s, o);
    ListedOnce(s);
    WithoutMembers(s.allgc, o);
    assert multiset(t.finobj) == multiset{o} + multiset(s.finobj);
    assert AllObjects(t) == AllObjects(s);
    hide NoDup, AllObjects;
  }

  lemma TodoBehind(s: State, x: Ref)
    ensures Todo(s, After(x)) ==
            if x in s.allgc then Behind(s.allgc, x)
            else if x in s.finobj then Behind(s.finobj, x)
            else if x in s.tobefnz then Behind(s.tobefnz, x)
            else []
    ensures PlaceOf(s, After(x)).At? ==>
              PlaceOf(s, After(x)).list == (if x in s.allgc then AllGc else if x in s.finobj then FinObj else ToBeFnz)
    ensures PlaceOf(s, After(x)).At? <==> x in s.allgc || x in s.finobj || x in s.tobefnz
  {
    hide IndexOf;
  }

  lemma ToFinObjTodo(s: State, o: Ref, p: Cursor)
    requires Listed(s) && o in s.allgc && p != After(o)
    ensures forall x :: x in Todo(s, p) && x != o ==> x in Todo(ToFinObj(s, o), p)
    ensures forall l :: InList(s, p, l) ==> InList(ToFinObj(s, o), p, l)
  {
    var t := ToFinObj(s, o);
    ListedOnce(s);
    WithoutMembers(s.allgc, o);
    hide Listed, NoDup, Without, IndexOf;
    match p
    case NoCursor =>
    case Head(l) =>
      assert ListOf(s, l)[0..] == ListOf(s, l) && ListOf(t, l)[0..] == ListOf(t, l);
    case After(x) =>
      TodoBehind(s, x);
      TodoBehind(t, x);
      hide Todo, PlaceOf, Behind;
      if x in s.allgc {
        RemovedTodo(s.allgc, o, x);
      } else if x in s.finobj {
        BehindPrepends(s.finobj, o, x);
      }
  }

  lemma BehindPrepends(q: seq<Ref>, o: Ref, x: Ref)
    requires x in q && x != o
    ensures Behind([o] + q, x) == Behind(q, x)
  {
    IndexBehind(q, o, x);
    hide IndexOf;
  }

  /** The lists and the colours after o has moved, seen by the sweep. */
  lemma ToFinObjSweeping(s: State, o: Ref, M: set<Ref>)
    requires Listed(s) && o in s.allgc && s.sweepgc != After(o) && Live(s, o) && Current(s, o)
    requires DeadAreOrdinary(s) && CursorInPlace(s) && RestIsWhite(s) && DeadInTodo(s) && OutsideDead(s, M)
    ensures var t := ToFinObj(s, o);
            DeadAreOrdinary(t) && CursorInPlace(t) && RestIsWhite(t) && DeadInTodo(t) && OutsideDead(t, M)
  {
    var t := ToFinObj(s, o);
    ToFinObjTodo(s, o, s.sweepgc);
    assert forall r :: IsDead(t, r) == IsDead(s, r) && Current(t, r) == Current(s, r);
    hide Todo, InList, IsDead, Current, Without, Listed;
  }

  lemma ToFinObjFrame(s: State, o: Ref, M: set<Ref>)
    requires Frame(s) && Surrounds(s, M) && o in s.allgc && o in M
    ensures Frame(ToFinObj(s, o)) && Surrounds(ToFinObj(s, o), M)
    ensures LiveClosed(ToFinObj(s, o)) == LiveClosed(s)
    ensures forall r :: IsRoot(ToFinObj(s, o), r) == IsRoot(s, r) && Live(ToFinObj(s, o), r) == Live(s, r)
  {
    ToFinObjListed(s, o);
    ToFinObjRoots(s, o);
    ToFinObjSame(s, o);
    hide ToFinObj, Listed, IsRoot, Live, KeysOld, Refers, Closed, IsThread, IsString, IsColor;
    ToFinObjLive(s, o);
  }

  lemma ToFinObjSame(s: State, o: Ref)
    ensures var t := ToFinObj(s, o);
            && t.heap == s.heap && t.color == s.color && t.fixedgc == s.fixedgc && t.nextref == s.nextref
            && t.mainthread == s.mainthread && t.running == s.running && t.finobj == [o] + s.finobj
            && IsThread(t, t.mainthread) == IsThread(s, s.mainthread) && IsThread(t, t.running) == IsThread(s, s.running)
  {
    hide Without;
  }

  lemma ToFinObjLive(s: State, o: Ref)
    requires ToFinObj(s, o).heap == s.heap
    requires forall r :: IsRoot(ToFinObj(s, o), r) == IsRoot(s, r) && Live(ToFinObj(s, o), r) == Live(s, r)
    ensures LiveClosed(ToFinObj(s, o)) == LiveClosed(s)
  {
    hide ToFinObj, IsRoot, Live, Refers;
  }

  lemma ToFinObjRoots(s: State, o: Ref)
    ensures forall r :: IsRoot(ToFinObj(s, o), r) == IsRoot(s, r) && Live(ToFinObj(s, o), r) == Live(s, r)
  {
    hide Without;
    assert RootValues(ToFinObj(s, o)) == RootValues(s);
  }

  lemma ToFinObjMarks(s: State, o: Ref, c: Context)
    requires Inv(s, {}, c) && Marks(s)
    ensures Inv(ToFinObj(s, o), {}, c) && Marks(ToFinObj(s, o))
  {
    var t := ToFinObj(s, o);
    assert RootValues(t) == RootValues(s);
    assert forall r :: IsDead(t, r) == IsDead(s, r);
    hide RefsMarked, Without, RootValues, IsDead;
    assert forall p :: Waits(s, p, c) ==> Waits(t, p, c);
    hide Waits;
    assert WeakLists(t, c);
    hide WeakLists;
    assert Queues(t, c);
  }

  /** The first step: in a sweep phase the object is swept, and the cursor steps off it. */
  function Unhooked(s: State, o: Ref): State {
    if !IsSweepPhase(s) then s
    else
      var w := MakeWhite(s, o);
      if w.sweepgc == After(o) then var (t, p) := SweepToLive(w, w.sweepgc); t.(sweepgc := p) else w
  }

  lemma WhitenGood(s: State, o: Ref, M: set<Ref>)
    requires Good(s, M) && !KeepInvariant(s) && Live(s, o) && o !in s.fixedgc
    ensures Good(MakeWhite(s, o), M)
  {
    var t := MakeWhite(s, o);
    SweepParts(s, M);
    WhiteSame(s, o, M);
    WhiteFrame(s, o, M);
    assert forall l :: InList(t, t.sweepgc, l) == InList(s, s.sweepgc, l);
    hide Good, Frame, Surrounds, Todo, InList, IsRoot, Live, IsDead, Current, LiveClosed, DeadAreOrdinary, Later, Listed;
    SweepWhole(t, M);
  }

  lemma UnhookedGood(s: State, o: Ref, M: set<Ref>)
    requires Good(s, M) && !KeepInvariant(s) && Live(s, o) && o in s.allgc
    ensures var t := Unhooked(s, o);
            && Good(t, M) && (IsSweepPhase(s) ==> t.sweepgc != After(o) && Current(t, o)) && t.phase == s.phase
            && o in t.allgc && Live(t, o)
  {
    if IsSweepPhase(s) {
      var w := MakeWhite(s, o);
      SweepParts(s, M);
      ListedOnce(s);
      assert o !in s.fixedgc && Live(w, o) && Current(w, o) && o in w.allgc;
      hide Listed, NoDup, Good, Frame, Surrounds, LiveClosed, DeadAreOrdinary, CursorInPlace, RestIsWhite, DeadInTodo,
        OutsideDead, SweepToLive;
      WhitenGood(s, o, M);
      if w.sweepgc == After(o) {
        StepsOff(w, o, M);
      }
    } else {
      RestingCursor(s, M);
    }
  }

  lemma RestingCursor(s: State, M: set<Ref>)
    requires Good(s, M) && !KeepInvariant(s) && !InSweepLists(s)
    ensures s.sweepgc == NoCursor
  {
  }

  lemma StretchKeeps(s: State, p: Cursor, done: seq<Ref>, t: State, r: Cursor, l: ListName, o: Ref)
    requires Listed(s) && InList(s, p, l) && Stretch(s, p, done, t, r, l) && Current(s, o) && Live(s, o) && o in s.allgc
    ensures Current(t, o) && Live(t, o) && o in t.allgc && t.phase == s.phase
  {
    StretchObject(s, p, done, t, r, l, o);
    StretchMembers(s, p, done, t, r, l);
    StretchPlain(s, p, done, t, r, l);
  }

  /** The cursor moves on to the next live object, or the list is finished. */
  lemma StepsOff(s: State, o: Ref, M: set<Ref>)
    requires Good(s, M) && !KeepInvariant(s) && s.sweepgc == After(o) && Current(s, o) && Live(s, o) && o in s.allgc
    ensures var (t, p) := SweepToLive(s, s.sweepgc);
            var u := t.(sweepgc := p);
            && Good(u, M) && u.sweepgc != After(o) && Current(u, o) && u.phase == s.phase && o in u.allgc && Live(u, o)
  {
    SweepParts(s, M);
    AfterPhase(s, M);
    var l := SweptList(s, M);
    SweptInList(s, l);
    hide Listed, Good, Frame, Surrounds, LiveClosed, DeadAreOrdinary, CursorInPlace, RestIsWhite, DeadInTodo,
      OutsideDead, SweepToLive, InList, Stretch, ListSwept;
    var done := SweepToLiveKeeps(s, s.sweepgc, l);
    var (t, p) := SweepToLive(s, s.sweepgc);
    assert s.(sweepgc := s.sweepgc) == s;
    StretchGood(s, s.sweepgc, done, t, p, l, M);
    StretchKeeps(s, s.sweepgc, done, t, p, l, o);
    assert Current(t.(sweepgc := p), o);
    assert Live(t.(sweepgc := p), o);
  }

  lemma AfterPhase(s: State, M: set<Ref>)
    requires Good(s, M) && !KeepInvariant(s) && s.sweepgc != NoCursor
    ensures InSweepLists(s)
  {
  }

  /** An object gets a finalizer: it moves to 'finobj', in whatever phase, and the sweep goes on where it was. */
  lemma CheckFinalizerGood(s: State, o: Ref, M: set<Ref>)
    requires Good(s, M) && Live(s, o) && o in M && (o in s.finalizable || o in s.allgc)
    ensures Good(CheckFinalizer(s, o), M)
  {
    if o !in s.finalizable {
      var t := Unhooked(s, o);
      assert CheckFinalizer(s, o) == ToFinObj(t, o);
      if KeepInvariant(s) {
        MarkingParts(s, M);
        hide Good, Frame, Surrounds, Inv, Marks, KeysKnown, ToFinObj;
        assert t == s;
        ToFinObjFrame(s, o, M);
        ToFinObjMarks(s, o, MARKING.(within := M));
        ToFinObjPlain(s, o);
        MarkingWhole(ToFinObj(s, o), M);
      } else {
        UnhookedGood(s, o, M);
        SweepParts(t, M);
        SweptCurrent(t, o, M);
        hide Good, Frame, Surrounds, LiveClosed, DeadAreOrdinary, CursorInPlace, RestIsWhite, DeadInTodo, OutsideDead,
          IsRoot, Live, Unhooked, CheckFinalizer, Listed;
        ToFinObjFrame(t, o, M);
        ToFinObjSweeping(t, o, M);
        SweepWhole(ToFinObj(t, o), M);
      }
    }
  }

  lemma ToFinObjPlain(s: State, o: Ref)
    ensures var t := ToFinObj(s, o);
            && t.phase == s.phase && t.weak == s.weak && t.ephemeron == s.ephemeron && t.gray == s.gray
            && t.heap == s.heap && t.color == s.color
  {
  }

  lemma SweptCurrent(s: State, o: Ref, M: set<Ref>)
    requires Good(s, M) && !KeepInvariant(s) && o in s.allgc && (IsSweepPhase(s) ==> Current(s, o) && s.sweepgc != After(o))
    ensures Current(s, o) && s.sweepgc != After(o) && o in s.heap.objs
  {
    ListedOnce(s);
    hide Listed, NoDup, Surrounds, LiveClosed, InList;
    if !IsSweepPhase(s) {
      NoCursorNothing(s);
    }
  }

  // ---------- udata2finalize and GCTM ----------

  function Moved(s: State): State
    requires s.tobefnz != []
  {
    s.(tobefnz := s.tobefnz[1..], allgc := [s.tobefnz[0]] + s.allgc, finalizable := s.finalizable - {s.tobefnz[0]})
  }

  /** The cursor points behind the object that is to be called, and something behind it has not been swept. Once the
      object is back on 'allgc' the sweep goes on there, and the rest of 'tobefnz' is never swept. */
  predicate BadPop(s: State) {
    && s.tobefnz != [] && s.phase.SweepToBeFnz? && s.sweepgc == After(s.tobefnz[0])
    && exists r :: r in s.tobefnz[1..] && !Current(s, r)
  }

  lemma MovedListed(s: State)
    requires Listed(s) && s.tobefnz != []
    ensures Listed(Moved(s)) && s.tobefnz[0] in s.heap.objs && s.tobefnz[0] !in s.tobefnz[1..]
    ensures s.tobefnz[0] !in s.allgc && s.tobefnz[0] !in s.finobj && s.tobefnz[0] !in s.fixedgc
  {
    var o := s.tobefnz[0];
    var t := Moved(s);
    ListedOnce(s);
    assert s.tobefnz == [o] + t.tobefnz;
    assert multiset(s.tobefnz) == multiset{o} + multiset(t.tobefnz);
    assert multiset(t.allgc) == multiset{o} + multiset(s.allgc);
    assert AllObjects(t) == AllObjects(s);
    assert forall r :: r in s.tobefnz <==> r == o || r in t.tobefnz;
    HeadOnce(s.tobefnz);
    hide NoDup, AllObjects;
  }

  lemma HeadOnce(q: seq<Ref>)
    requires NoDup(q) && q != []
    ensures q[0] !in q[1..]
  {
  }

  lemma MovedFrame(s: State, M: set<Ref>)
    requires Frame(s) && Surrounds(s, M) && s.tobefnz != []
    ensures Frame(Moved(s)) && Surrounds(Moved(s), M) && LiveClosed(Moved(s)) == LiveClosed(s)
    ensures forall r :: IsRoot(Moved(s), r) ==> IsRoot(s, r)
    ensures forall r :: Live(Moved(s), r) == Live(s, r)
  {
    MovedListed(s);
    MovedRoots(s);
    MovedSame(s);
    hide Moved, Listed, IsRoot, Live, KeysOld, Refers, Closed, IsThread, IsString, IsColor;
    MovedLive(s);
  }

  lemma MovedRoots(s: State)
    requires s.tobefnz != []
    ensures forall r :: (IsRoot(Moved(s), r) ==> IsRoot(s, r)) && Live(Moved(s), r) == Live(s, r)
  {
    assert RootValues(Moved(s)) == RootValues(s);
    hide RootValues;
  }

  lemma MovedSame(s: State)
    requires s.tobefnz != []
    ensures var t := Moved(s);
            && t.heap == s.heap && t.color == s.color && t.fixedgc == s.fixedgc && t.nextref == s.nextref
            && t.mainthread == s.mainthread && t.running == s.running && t.finobj == s.finobj
            && IsThread(t, t.mainthread) == IsThread(s, s.mainthread) && IsThread(t, t.running) == IsThread(s, s.running)
  {
  }

  lemma MovedLive(s: State)
    requires s.tobefnz != [] && Moved(s).heap == s.heap && forall r :: Live(Moved(s), r) == Live(s, r)
    ensures LiveClosed(Moved(s)) == LiveClosed(s)
  {
    hide Moved, Live, Refers;
  }

  lemma MovedMarks(s: State, c: Context)
    requires Inv(s, {}, c) && Marks(s) && s.tobefnz != []
    ensures Inv(Moved(s), {}, c) && Marks(Moved(s))
  {
    var t := Moved(s);
    assert RootValues(t) == RootValues(s);
    assert forall r :: IsDead(t, r) == IsDead(s, r);
    hide RefsMarked, RootValues, IsDead;
    assert forall p :: Waits(s, p, c) ==> Waits(t, p, c);
    hide Waits;
    assert WeakLists(t, c);
    hide WeakLists;
    assert Queues(t, c);
  }

  lemma MovedHead(s: State, l: ListName)
    requires s.tobefnz != []
    ensures forall x :: x in Todo(s, Head(l)) && x != s.tobefnz[0] ==> x in Todo(Moved(s), Head(l))
  {
    var t := Moved(s);
    var o := s.tobefnz[0];
    assert s.tobefnz == [o] + t.tobefnz;
    assert Todo(s, Head(l)) == ListOf(s, l) && Todo(t, Head(l)) == ListOf(t, l);
    hide Todo;
  }

  lemma MovedBehind(s: State, x: Ref)
    requires Listed(s) && s.tobefnz != [] && x != s.tobefnz[0]
    ensures Todo(Moved(s), After(x)) == Todo(s, After(x))
    ensures forall l :: InList(s, After(x), l) ==> InList(Moved(s), After(x), l)
  {
    var o := s.tobefnz[0];
    var t := Moved(s);
    MovedListed(s);
    assert s.tobefnz == [o] + t.tobefnz;
    TodoBehind(s, x);
    TodoBehind(t, x);
    hide Listed, Todo, PlaceOf, Behind;
    if x in s.allgc {
      BehindPrepends(s.allgc, o, x);
    } else if x in t.tobefnz {
      BehindPrepends(t.tobefnz, o, x);
    }
  }

  lemma MovedTodo(s: State, p: Cursor)
    requires Listed(s) && s.tobefnz != [] && p != After(s.tobefnz[0])
    ensures forall x :: x in Todo(s, p) && x != s.tobefnz[0] ==> x in Todo(Moved(s), p)
    ensures forall l :: InList(s, p, l) ==> InList(Moved(s), p, l)
  {
    match p
    case NoCursor =>
    case Head(l) =>
      MovedHead(s, l);
      hide Todo;
    case After(x) =>
      MovedBehind(s, x);
      hide Todo, InList;
  }

  /** The cursor has followed the object to 'allgc'. */
  lemma FollowedTodo(s: State)
    requires Listed(s) && s.tobefnz != []
    ensures var t := Moved(s); var p := After(s.tobefnz[0]);
            && Todo(t, p) == s.allgc && InList(t, p, AllGc) && InList(s, p, ToBeFnz)
            && !InList(s, p, AllGc) && !InList(s, p, FinObj)
  {
    var o := s.tobefnz[0];
    var t := Moved(s);
    MovedListed(s);
    TodoBehind(s, o);
    TodoBehind(t, o);
    assert o in s.tobefnz;
    assert t.allgc == [o] + s.allgc;
    assert Behind(t.allgc, o) == s.allgc;
    hide Listed, Todo, Behind, PlaceOf;
  }

  lemma MovedSweeping(s: State, M: set<Ref>)
    requires Listed(s) && s.tobefnz != [] && Current(s, s.tobefnz[0])
    requires DeadAreOrdinary(s) && CursorInPlace(s) && RestIsWhite(s) && DeadInTodo(s) && OutsideDead(s, M)
    requires !BadPop(s) && !KeepInvariant(s)
    ensures var t := Moved(s);
            DeadAreOrdinary(t) && CursorInPlace(t) && RestIsWhite(t) && DeadInTodo(t) && OutsideDead(t, M)
  {
    var t := Moved(s);
    var o := s.tobefnz[0];
    assert forall r :: IsDead(t, r) == IsDead(s, r) && Current(t, r) == Current(s, r);
    assert forall r :: r in s.tobefnz <==> r == o || r in t.tobefnz by { assert s.tobefnz == [o] + t.tobefnz; }
    if s.sweepgc != After(o) {
      MovedTodo(s, s.sweepgc);
      hide Todo, InList, IsDead, Current, Listed;
    } else {
      FollowedTodo(s);
      hide Todo, InList, IsDead, Current, Listed;
      assert s.phase.SweepToBeFnz?;
      assert forall r :: r in t.tobefnz ==> Current(s, r);
    }
  }

  lemma BadObject(s: State, M: set<Ref>) returns (r: Ref)
    requires Good(s, M) && BadPop(s)
    ensures Listed(s) && r in s.tobefnz[1..] && !Current(s, r) && r in s.heap.objs && r != s.tobefnz[0]
    ensures r !in s.allgc && r !in s.fixedgc && r != s.mainthread
  {
    r :| r in s.tobefnz[1..] && !Current(s, r);
    assert r in s.tobefnz;
    ListedOnce(s);
    MovedListed(s);
    hide Listed, NoDup;
  }

  lemma MovedBreaks(s: State, M: set<Ref>)
    requires Good(s, M) && BadPop(s)
    ensures !RestIsWhite(ToFinalize(s))
  {
    var o := s.tobefnz[0];
    var u := ToFinalize(s);
    var r := BadObject(s, M);
    FollowedTodo(s);
    assert u == MakeWhite(Moved(s), o);
    assert Todo(u, u.sweepgc) == Todo(Moved(s), After(o)) == s.allgc;
    hide Good, Listed, Todo, InList;
    assert !Current(u, r) && r in u.heap.objs;
  }

  lemma HeadLive(s: State, M: set<Ref>)
    requires Good(s, M) && s.tobefnz != []
    ensures var o := s.tobefnz[0];
            IsRoot(s, o) && Live(s, o) && o !in s.fixedgc && o in s.heap.objs && o !in s.tobefnz[1..]
  {
    var o := s.tobefnz[0];
    assert o in s.tobefnz;
    assert Listed(s);
    MovedListed(s);
    Domains(s);
    hide Frame, Surrounds, Listed, LiveClosed, RestIsWhite, CursorInPlace, DeadInTodo, OutsideDead, DeadAreOrdinary, Inv,
      KeysKnown;
    assert KeepInvariant(s) ==> !IsDead(s, o);
  }

  lemma ToFinalizeMarking(s: State, M: set<Ref>)
    requires Good(s, M) && s.tobefnz != [] && KeepInvariant(s)
    ensures Good(ToFinalize(s), M) && Live(ToFinalize(s), s.tobefnz[0])
  {
    hide Good, Frame, Surrounds, Inv, Marks, KeysKnown, Live, Listed;
    MarkingParts(s, M);
    HeadLive(s, M);
    MovedFrame(s, M);
    MovedMarks(s, MARKING.(within := M));
    MarkingWhole(Moved(s), M);
  }

  lemma BadPopSame(s: State, w: State)
    requires s.tobefnz != [] && s.tobefnz[0] !in s.tobefnz[1..] && w == MakeWhite(s, s.tobefnz[0])
    ensures BadPop(w) == BadPop(s)
  {
    assert forall r :: r != s.tobefnz[0] ==> Current(w, r) == Current(s, r);
    hide Current;
  }

  /** The object is white, in a sweep phase because the step made it so. */
  lemma ToFinalizeWhite(s: State, M: set<Ref>) returns (w: State)
    requires Good(s, M) && s.tobefnz != [] && !KeepInvariant(s)
    ensures Good(w, M) && Current(w, s.tobefnz[0]) && Live(w, s.tobefnz[0]) && w.tobefnz == s.tobefnz && w.phase == s.phase
    ensures ToFinalize(s) == Moved(w) && BadPop(w) == BadPop(s)
  {
    hide Good, IsRoot, BadPop;
    var o := s.tobefnz[0];
    w := if IsSweepPhase(s) then MakeWhite(s, o) else s;
    HeadLive(s, M);
    if IsSweepPhase(s) {
      WhitenGood(s, o, M);
      BadPopSame(s, w);
    } else {
      RestingWhite(s, o, M);
    }
  }

  /** udata2finalize keeps the invariant if the sweep cursor does not point into 'tobefnz' behind the object. */
  lemma ToFinalizeGood(s: State, M: set<Ref>)
    requires Good(s, M) && s.tobefnz != [] && !BadPop(s)
    ensures Good(ToFinalize(s), M) && IsRoot(s, s.tobefnz[0]) && Live(ToFinalize(s), s.tobefnz[0])
  {
    assert s.tobefnz[0] in s.tobefnz && IsRoot(s, s.tobefnz[0]);
    hide Good, Frame, Surrounds, LiveClosed, DeadAreOrdinary, CursorInPlace, RestIsWhite, DeadInTodo, OutsideDead,
      IsRoot, Live, Listed, BadPop, ToFinalize, IsDead, Moved, Current;
    if KeepInvariant(s) {
      ToFinalizeMarking(s, M);
    } else {
      var w := ToFinalizeWhite(s, M);
      SweepParts(w, M);
      MovedFrame(w, M);
      MovedSweeping(w, M);
      MovedPhase(w);
      SweepWhole(Moved(w), M);
    }
  }

  lemma MovedPhase(s: State)
    requires s.tobefnz != []
    ensures Moved(s).phase == s.phase
  {
  }

  lemma RestingWhite(s: State, o: Ref, M: set<Ref>)
    requires Good(s, M) && !KeepInvariant(s) && !IsSweepPhase(s) && o in s.heap.objs && o !in s.fixedgc
    ensures Current(s, o)
  {
    NoCursorNothing(s);
    hide Todo, Frame, Surrounds, LiveClosed;
  }

  function Pushed(s: State, o: Ref): State
    requires s.running in s.heap.objs && s.heap.objs[s.running].Thread?
  {
    SetObject(s, s.running, Thread([Obj(o)] + s.heap.objs[s.running].stack))
  }

  lemma PushRefs(s: State, o: Ref)
    requires s.running in s.heap.objs && s.heap.objs[s.running].Thread?
    ensures forall p, r :: Refers(Pushed(s, o).heap, p, r) ==> Refers(s.heap, p, r) || r == o
    ensures forall r :: IsRoot(Pushed(s, o), r) == IsRoot(s, r)
  {
    forall p, r | Refers(Pushed(s, o).heap, p, r) ensures Refers(s.heap, p, r) || r == o {
      assert p in s.heap.objs;
    }
  }

  lemma PushKeys(s: State, o: Ref)
    requires s.running in s.heap.objs && s.heap.objs[s.running].Thread? && KeysOld(s.heap, s.nextref)
    ensures KeysOld(Pushed(s, o).heap, s.nextref) && PlainStore(s, Pushed(s, o)) && Writes(s, Pushed(s, o))
  {
    var k := Pushed(s, o).heap;
    assert forall p :: p in k.objs && k.objs[p].Table? ==> p in s.heap.objs && k.objs[p] == s.heap.objs[p];
  }

  lemma PushHeld(s: State, o: Ref, M: set<Ref>)
    requires Good(s, M) && Live(s, o) && o in M && s.running in s.heap.objs && s.heap.objs[s.running].Thread?
    ensures HeldStore(s, Pushed(s, o), M) && PlainStore(s, Pushed(s, o))
  {
    FrameKeys(s, M);
    PushRefs(s, o);
    PushKeys(s, o);
    hide Good, KeysOld, IsRoot, Refers, Live, Writes, PlainStore;
  }

  lemma PushGood(s: State, o: Ref, M: set<Ref>)
    requires Good(s, M) && ClosedUnderRefs(s.heap, M) && Live(s, o) && o in M
    ensures Good(Push(s, o), M) && ClosedUnderRefs(Push(s, o).heap, M)
  {
    hide ToFinalize, BadPop, IsRoot, Live, ClosedUnderRefs, HeldStore, PlainStore;
    if s.running in s.heap.objs && s.heap.objs[s.running].Thread? {
      PushHeld(s, o, M);
      hide Good;
      assert Push(s, o) == Pushed(s, o);
      PlainGood(s, Push(s, o), M);
    }
  }

  /** Calling a finalizer, with its object on the running stack. */
  lemma CallFinalizerGood(s: State, M: set<Ref>)
    requires Good(s, M) && ClosedUnderRefs(s.heap, M) && s.tobefnz != [] && !BadPop(s)
    ensures Good(CallFinalizer(s), M) && ClosedUnderRefs(CallFinalizer(s).heap, M)
  {
    var o := s.tobefnz[0];
    ToFinalizeGood(s, M);
    assert o in M && ToFinalize(s).heap == s.heap;
    hide ToFinalize, BadPop, IsRoot, Live, ClosedUnderRefs, Good, Push;
    PushGood(ToFinalize(s), o, M);
  }

  /** In the bad case the invariant is broken, whatever M. */
  lemma BadPopBreaks(s: State, M: set<Ref>, N: set<Ref>)
    requires Good(s, M) && BadPop(s)
    ensures !Good(CallFinalizer(s), N)
  {
    var t := ToFinalize(s);
    var u := CallFinalizer(s);
    MovedBreaks(s, M);
    assert u == t.(heap := u.heap) && u.heap.objs.Keys == t.heap.objs.Keys && u.phase.SweepToBeFnz?;
    hide RestIsWhite, ToFinalize, CallFinalizer, BadPop;
    RestPushed(t, u);
    RestOfGood(u, N);
  }

  lemma RestOfGood(s: State, M: set<Ref>)
    requires s.phase.SweepToBeFnz? && !RestIsWhite(s)
    ensures !Good(s, M)
  {
    hide RestIsWhite;
  }

  lemma RestPushed(t: State, u: State)
    requires u == t.(heap := u.heap) && u.heap.objs.Keys == t.heap.objs.Keys
    ensures RestIsWhite(u) ==> RestIsWhite(t)
  {
    assert Todo(t, t.sweepgc) == Todo(u, u.sweepgc) && Later(t) == Later(u);
    hide Todo, Later;
    assert forall r :: Current(t, r) == Current(u, r);
    hide Current;
  }
}
