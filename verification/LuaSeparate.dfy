/** Which objects with finalizers are to be finalized: what separatetobefnz moves, and how the list 'tobefnz' changes
    (lgc.c:790-895). */
module LuaSeparate {
  import opened LuaObjects
  import opened LuaMark
  import opened LuaTraverse
  import opened LuaPropagate
  import opened LuaAtomic
  import opened LuaAtomicStep
  import opened LuaSweep
  import opened LuaEvents
  import opened LuaInvariant
  import opened LuaSweepGood
  import opened LuaCollect
  import opened LuaRun
  import opened LuaFixpoint

  /** Somewhere in q, a stands in front of b. */
  ghost predicate Before(q: seq<Ref>, a: Ref, b: Ref) {
    exists i, j :: 0 <= i < j < |q| && q[i] == a && q[j] == b
  }

  /** Every pair of q stands in this order in p. */
  ghost predicate InOrderOf(q: seq<Ref>, p: seq<Ref>) {
    forall a, b :: Before(q, a, b) ==> Before(p, a, b)
  }

  lemma BeforeFirst(q: seq<Ref>, a: Ref, b: Ref)
    requires q != []
    ensures Before(q, a, b) <==> (q[0] == a && b in q[1..]) || Before(q[1..], a, b)
  {
    if q[0] == a && b in q[1..] {
      var j :| 0 <= j < |q| - 1 && q[1..][j] == b;
      assert q[0] == a && q[j + 1] == b;
    }
    if Before(q[1..], a, b) {
      var i, j :| 0 <= i < j < |q| - 1 && q[1..][i] == a && q[1..][j] == b;
      assert q[i + 1] == a && q[j + 1] == b;
    }
    if Before(q, a, b) {
      var i, j :| 0 <= i < j < |q| && q[i] == a && q[j] == b;
      assert q[1..][j - 1] == b;
      if i > 0 {
        assert q[1..][i - 1] == a;
      }
    }
  }

  lemma {:induction false} KeepOrder(s: State, q: seq<Ref>, white: bool)
    ensures InOrderOf(Keep(s, q, white), q)
  {
    if q == [] {
    } else {
      KeepOrder(s, q[1..], white);
      var k := Keep(s, q, white);
      forall a, b | Before(k, a, b) ensures Before(q, a, b) {
        BeforeFirst(q, a, b);
        BeforeFirst(k, a, b);
        KeepSubset(s, q[1..], white);
        if IsWhite(s, q[0]) == white {
          assert k == [q[0]] + Keep(s, q[1..], white);
          assert k[1..] == Keep(s, q[1..], white);
        } else {
          assert k == Keep(s, q[1..], white);
        }
      }
    }
  }

  lemma {:induction false} KeepSame(s: State, t: State, q: seq<Ref>, white: bool)
    requires forall r :: r in q ==> IsWhite(s, r) == IsWhite(t, r)
    ensures Keep(s, q, white) == Keep(t, q, white)
  {
    if q != [] {
      assert forall r :: r in q[1..] ==> r in q;
      KeepSame(s, t, q[1..], white);
    }
  }

  // ---------- The atomic step ----------

  /** A string has no metatable of its own, and so no finalizer. */
  ghost predicate NoStringWaits(s: State) {
    forall r :: r in s.finobj ==> !IsString(s.heap, r)
  }

  /** The lists are divided by the marks that were there when all strongly accessible objects were marked: clearing
      values marks strings only, and what is resurrected has been moved already. */
  lemma ClearDivides(s: State, c: Context)
    requires Inv(s, {}, c) && c.final && s.phase.InsideAtomic? && c == Pending(c, []) && NoStringWaits(s)
    requires forall r :: r in s.finobj || r in s.tobefnz ==> r in c.within && r in s.heap.objs
    ensures var t := AtomicClear(s);
            t.finobj == Keep(s, s.finobj, false) && t.tobefnz == s.tobefnz + Keep(s, s.finobj, true)
  {
    hide Inv, Rises, AllClean, AllDone, OnlyStrings, ClearBoth, Resurrect, Keep, IsWhite, Marked;
    var s1 := ClearBoth(s, s.weak, s.allweak, false);
    ClearBothKeeps(s, s.weak, s.allweak, false, c);
    RisesKeys(s, s1);
    SameWhites(s, s1, c);
    KeepSame(s, s1, s.finobj, true);
    KeepSame(s, s1, s.finobj, false);
    SecondMarking(s1, c);
    var s2 := Resurrect(SeparateToBeFnz(s1));
    ResurrectLists(s1, c);
    ClearBothKeeps(s2, s2.ephemeron, s2.allweak, true, c);
    var s3 := ClearBoth(s2, s2.ephemeron, s2.allweak, true);
    var qw, qa := NewPart(s3.weak, s1.weak), NewPart(s3.allweak, s1.allweak);
    NewPartCovers(s3.weak, s1.weak);
    NewPartCovers(s3.allweak, s1.allweak);
    hide IsSuffix, NewPart;
    ClearBothKeeps(s3, qw, qa, false, c);
  }

  lemma SameWhites(s: State, t: State, c: Context)
    requires Inv(s, {}, c) && Inv(t, {}, c) && OnlyStrings(s.heap, s.color, t.color) && NoStringWaits(s)
    requires s.heap.objs.Keys == t.heap.objs.Keys
    ensures forall r :: r in s.finobj ==> IsWhite(s, r) == IsWhite(t, r)
  {
    HeapDomains(s, {}, c);
    HeapDomains(t, {}, c);
    hide Inv;
  }

  lemma ResurrectLists(s: State, c: Context)
    requires Inv(s, {}, c) && c.final && s.phase.InsideAtomic? && c == Pending(c, [])
    requires forall r :: r in s.finobj || r in s.tobefnz ==> r in c.within && r in s.heap.objs
    ensures var t := Resurrect(SeparateToBeFnz(s));
            t.finobj == Keep(s, s.finobj, false) && t.tobefnz == s.tobefnz + Keep(s, s.finobj, true)
  {
    hide Inv, Resurrect, Keep;
    SeparateKeeps(s, c);
    var s1 := SeparateToBeFnz(s);
    RisesKeys(s, s1);
    ResurrectKeeps(s1, c);
    TraversesLists(s1, Resurrect(s1));
  }

  // ---------- Sweeping leaves the lists ----------

  /** Nothing is dead on 'finobj' or 'tobefnz', so a sweep takes nothing off them. */
  ghost predicate SameQueues(s: State, t: State) {
    t.finobj == s.finobj && t.tobefnz == s.tobefnz && t.phase == s.phase
  }

  lemma SweepOneQueues(s: State, p: Cursor)
    requires DeadAreOrdinary(s) && Todo(s, p) != []
    ensures SameQueues(s, SweepOne(s, p).0) && DeadAreOrdinary(SweepOne(s, p).0)
  {
    var At(l, i) := PlaceOf(s, p);
    assert ListOf(s, l)[i] in ListOf(s, l);
    hide PlaceOf;
  }

  lemma {:induction false} SweepListQueues(s: State, p: Cursor, count: nat)
    requires DeadAreOrdinary(s)
    ensures SameQueues(s, SweepList(s, p, count).0) && DeadAreOrdinary(SweepList(s, p, count).0)
    decreases count
  {
    hide Todo, SweepOne, DeadAreOrdinary;
    if Todo(s, p) != [] && count > 0 {
      SweepOneQueues(s, p);
      SweepListQueues(SweepOne(s, p).0, SweepOne(s, p).1, count - 1);
    }
  }

  lemma {:induction false} SweepToLiveQueues(s: State, p: Cursor)
    requires DeadAreOrdinary(s)
    ensures SameQueues(s, SweepToLive(s, p).0)
    decreases Count(s)
  {
    hide Todo, SweepOne, DeadAreOrdinary, SweepList, Count;
    SweepListQueues(s, p, 1);
    var (t, r) := SweepList(s, p, 1);
    if r == p && Count(t) < Count(s) {
      SweepToLiveQueues(t, p);
    }
  }

  lemma EnterSweepQueues(s: State)
    requires DeadAreOrdinary(s)
    ensures EnterSweep(s).finobj == s.finobj && EnterSweep(s).tobefnz == s.tobefnz && EnterSweep(s).phase.SweepAllGc?
  {
    var u := s.(phase := SweepAllGc);
    assert DeadAreOrdinary(u);
    hide DeadAreOrdinary;
    SweepToLiveQueues(u, Head(AllGc));
    hide SweepToLive;
  }

  lemma AtomicOrdinary(s: State, M: set<Ref>)
    requires Good(s, M) && s.phase.Atomic?
    ensures DeadAreOrdinary(AtomicStep(PropagateAll(s)))
  {
    hide Good, Frame, Surrounds, AllMarked, PropagateAll, AtomicMark, AtomicClear, Rises, LiveClosed, RestIsWhite, DeadInTodo,
      OutsideDead, CursorInPlace;
    var t := AtomicClear(AtomicMark(PropagateAll(s)));
    AtomicClears(s, M);
    FlipGood(t, M);
    SweepParts(Flipped(t), M);
    var u := AtomicStep(PropagateAll(s));
    assert Flipped(t) == u.(phase := SweepAllGc, sweepgc := Head(AllGc));
    assert forall r :: IsDead(u, r) == IsDead(Flipped(t), r);
  }

  /** The atomic step divides the objects with finalizers by what could be marked from the roots: those that could not
      be go to the end of 'tobefnz', and all others stay where they are. */
  lemma AtomicDivides(s: State, M: set<Ref>)
    requires Good(s, M) && s.phase.Atomic? && NoStringWaits(s)
    ensures var t := EnterSweep(AtomicStep(PropagateAll(s)));
            && t.finobj == Keep(Converged(s), s.finobj, false)
            && t.tobefnz == s.tobefnz + Keep(Converged(s), s.finobj, true)
  {
    var c := FinalContext(s, M);
    var u := AtomicMark(PropagateAll(s));
    assert Converged(s) == u;
    AtomicOrdinary(s, M);
    hide Converged, Good, Inv, Rises, PropagateAll, AtomicMark, AllDone, RootValues, DeadAreOrdinary, EnterSweep,
      Keep, IsString, Closed, SlotsSettled, Pending, FinalContext, AtomicClear, Frame, Surrounds, Marks, NoDup, SameLists;
    AtomicMarks(s, M);
    FinalizersIn(s, M);
    RisesKeys(s, u);
    RisesKinds(s, u);
    FinalStart(s, M) by { MarkingParts(s, M); }
    ClearDivides(u, c);
    EnterSweepQueues(AtomicStep(PropagateAll(s)));
  }

  lemma RisesKinds(s: State, t: State)
    requires Rises(s, t)
    ensures forall r :: IsString(t.heap, r) == IsString(s.heap, r)
  {
    ThinRefers(s.heap, t.heap);
  }

  lemma WhiteIsUnmarked(s: State, M: set<Ref>)
    requires Good(s, M) && s.phase.Atomic?
    ensures forall r :: r in s.finobj ==> (IsWhite(Converged(s), r) <==> r !in MarkedSet(Converged(s)))
  {
    var u := Converged(s);
    hide Good, Inv, Rises, PropagateAll, AtomicMark, AllDone, RootValues, SlotsSettled;
    AtomicMarks(s, M);
    FinalizersIn(s, M);
    RisesKeys(s, u);
    HeapDomains(u, {}, FinalContext(s, M));
  }

  /** The objects on 'finobj' that are outside K have gone to the end of 'tobefnz', each once and in the order they had;
      the others have stayed. */
  ghost predicate Divides(s: State, t: State, K: set<Ref>) {
    && s.tobefnz <= t.tobefnz && NoDup(t.finobj) && NoDup(t.tobefnz)
    && (forall r :: r in t.tobefnz[|s.tobefnz|..] <==> r in s.finobj && r !in K)
    && (forall r :: r in t.finobj <==> r in s.finobj && r in K)
    && InOrderOf(t.finobj, s.finobj) && InOrderOf(t.tobefnz[|s.tobefnz|..], s.finobj)
  }

  lemma KeepDivides(u: State, s: State, t: State, K: set<Ref>)
    requires forall r :: r in s.finobj ==> (IsWhite(u, r) <==> r !in K)
    requires t.finobj == Keep(u, s.finobj, false) && t.tobefnz == s.tobefnz + Keep(u, s.finobj, true)
    requires NoDup(t.finobj) && NoDup(t.tobefnz)
    ensures Divides(s, t, K)
  {
    hide Keep, IsWhite, NoDup, InOrderOf;
    KeepSubset(u, s.finobj, false);
    KeepSubset(u, s.finobj, true);
    KeepOrder(u, s.finobj, false);
    KeepOrder(u, s.finobj, true);
    assert t.tobefnz[|s.tobefnz|..] == Keep(u, s.finobj, true);
  }

  /** separatetobefnz: an object with a finalizer that was not marked when all that is strongly accessible had been is put
      behind the objects that wait for their finalizers already. No other object is, and the order is kept. */
  lemma AtomicSeparates(s: State, max: nat, emergency: bool, M: set<Ref>)
    requires Good(s, M) && s.phase.Atomic? && NoStringWaits(s)
    ensures Divides(s, SingleStep(s, max, emergency), MarkedSet(Converged(s)))
  {
    var t := SingleStep(s, max, emergency);
    StepIs(s, max, emergency);
    AtomicDivides(s, M);
    WhiteIsUnmarked(s, M);
    AtomicGood(s, M);
    GoodOnce(t, M);
    hide *;
    KeepDivides(Converged(s), s, t, MarkedSet(Converged(s)));
  }

  lemma GoodOnce(s: State, M: set<Ref>)
    requires Good(s, M)
    ensures NoDup(s.finobj) && NoDup(s.tobefnz) && forall r :: r in s.finobj ==> r !in s.tobefnz
    ensures forall r :: r in s.finalizable <==> r in s.finobj || r in s.tobefnz
    ensures forall r :: r in s.finobj || r in s.tobefnz ==> r in s.heap.objs
  {
    assert Listed(s);
    ListedOnce(s);
  }
}
