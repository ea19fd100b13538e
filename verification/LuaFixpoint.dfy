/** What the atomic phase marks: the least set closed under the references the collector follows (lgc.c:394-430, 603-623). */
module LuaFixpoint {
  import opened LuaObjects
  import opened LuaMark
  import opened LuaTraverse
  import opened LuaPropagate
  import opened LuaKeys
  import opened LuaAtomic
  import opened LuaAtomicStep
  import opened LuaInvariant
  import opened LuaCollect

  ghost function MarkedSet(s: State): set<Ref> {
    set r | r in s.color && Marked(s.color, r)
  }

  /** K contains what o holds strongly, and the value of each ephemeron entry of o whose key K keeps. */
  ghost predicate HoldsIn(h: Heap, o: Ref, K: set<Ref>)
    requires o in h.objs
  {
    match h.objs[o]
    case Table(Strong, m, a, ns) => forall r :: Refers(h, o, r) ==> r in K
    case Table(WeakValue, m, _, ns) => ValueIn(m, K) && forall n :: n in ns && !n.val.Nil? ==> ValueIn(n.key, K)
    case Table(Ephemeron, m, a, ns) =>
      && ValueIn(m, K) && (forall v :: v in a ==> ValueIn(v, K))
      && (forall n :: n in ns && !n.val.Nil? && Keeps(h, n.key, K) ==> ValueIn(n.val, K))
    case Table(AllWeak, m, _, _) => ValueIn(m, K)
    case _ => forall r :: Refers(h, o, r) ==> r in K
  }

  lemma RefsHold(s: State, o: Ref)
    requires o in s.heap.objs && RefsMarked(s.heap, s.color, o)
    ensures HoldsIn(s.heap, o, MarkedSet(s))
  {
    var K := MarkedSet(s);
    assert forall r :: Refers(s.heap, o, r) ==> r in K;
    if s.heap.objs[o].Table? {
      var p := s.heap.objs[o];
      assert p.metatable.Obj? ==> Refers(s.heap, o, p.metatable.ref);
      forall v | v in p.slots && v.Obj? ensures v.ref in K {
        assert Refers(s.heap, o, v.ref);
      }
      forall n: Node | n in p.hash && !n.val.Nil? ensures ValueIn(n.key, K) && ValueIn(n.val, K) {
        assert n.key.Obj? ==> Refers(s.heap, o, n.key.ref);
        assert n.val.Obj? ==> Refers(s.heap, o, n.val.ref);
      }
    }
  }

  lemma EphemeronHolds(s: State, o: Ref)
    requires EphemeronTable(s.heap, s.color, o) && EntriesDone(s.heap, s.color, s.heap.objs[o].hash)
    ensures HoldsIn(s.heap, o, MarkedSet(s))
  {
    var K := MarkedSet(s);
    forall n: Node | n in s.heap.objs[o].hash && !n.val.Nil? && Keeps(s.heap, n.key, K) ensures ValueIn(n.val, K) {
      assert KeyStays(s.heap, s.color, n.key);
    }
  }

  lemma ListedHolds(s: State, o: Ref, c: Context)
    requires Inv(s, {}, c) && c.final && AllDone(s) && o in s.heap.objs && IsColor(s.color, o, Gray)
    requires o in s.allweak || o in s.weak || o in s.ephemeron
    requires o in c.stale ==> s.heap.objs[o].Table? && s.heap.objs[o].mode.AllWeak?
    ensures HoldsIn(s.heap, o, MarkedSet(s))
  {
    assert WeakLists(s, c);
    hide Inv, Refers;
    if o in s.ephemeron {
      assert EphemeronTable(s.heap, s.color, o);
      EphemeronHolds(s, o);
    } else if o in s.weak {
      assert WeakValueTable(s.heap, s.color, o);
    } else {
      assert GrayTable(s.heap, s.color, o);
      assert o !in c.stale ==> AllWeakTable(s.heap, s.color, o);
    }
  }

  /** When convergence ends the marked set is closed. Tables that were all-weak when they were listed, before the
      atomic phase, and are no more, are not traversed again; they are the only exception. */
  lemma MarksHold(s: State, o: Ref, c: Context)
    requires Inv(s, {}, c) && c.final && c.pending == {} && s.phase.InsideAtomic? && s.gray == [] && AllDone(s)
    requires o in s.heap.objs && Marked(s.color, o)
    requires o in c.stale ==> s.heap.objs[o].Table? && s.heap.objs[o].mode.AllWeak?
    ensures HoldsIn(s.heap, o, MarkedSet(s))
  {
    if IsColor(s.color, o, Black) {
      assert RefsMarked(s.heap, s.color, o);
      hide Inv;
      RefsHold(s, o);
    } else {
      assert Waits(s, o, c);
      if o in s.allweak || o in s.weak || o in s.ephemeron {
        hide Inv;
        ListedHolds(s, o, c);
      } else {
        assert IsString(s.heap, o) || RefsMarked(s.heap, s.color, o);
        hide Inv;
        if !IsString(s.heap, o) { RefsHold(s, o); }
      }
    }
  }

  /** The state after all strongly accessible objects have been marked (the comment in atomic, lgc.c:1006). */
  function Converged(s: State): State {
    AtomicMark(PropagateAll(s))
  }

  lemma InvAgain(s: State, M: set<Ref>, N: set<Ref>)
    requires Inv(s, {}, MARKING.(within := M)) && Closed(s.heap, N) && Within(s.color, N)
    ensures Inv(s, {}, MARKING.(within := N))
  {
    var c, d := MARKING.(within := M), MARKING.(within := N);
    hide RefsMarked, Closed, Within;
    assert forall o :: Waits(s, o, c) ==> Waits(s, o, d);
    hide Waits;
    assert WeakLists(s, d);
    hide WeakLists;
    assert Queues(s, d);
  }

  lemma MarksAllocate(s: State)
    requires Marks(s)
    ensures forall v :: v in RootValues(s) ==> Allocated(s.heap, v)
  {
    hide RootValues, IsDead;
  }

  lemma PropagatedIn(s: State, c: Context)
    requires Inv(s, {}, c) && c.final && s.phase.Atomic? && Marks(s)
    requires forall v :: v in RootValues(s) ==> ValueIn(v, c.within)
    ensures var t := PropagateAll(s); Inv(t, {}, c) && RootsAllocated(t, c.within) && t.phase.Atomic?
  {
    hide Inv, Traverses, Marks, PropagateAll, RootValues;
    PropagateAllKeeps(s, c);
    var t := PropagateAll(s);
    TraversesMarking(s, t);
    TraversesFrame(s, t);
    TraversesRoots(s, t);
    MarksAllocate(t);
  }

  lemma MarkedWithin(s: State, c: Context)
    requires Inv(s, {}, c)
    ensures MarkedSet(s) <= c.within
  {
    InvWithin(s, c);
    hide Inv;
  }

  /** Upper bound: every set that is closed and contains the roots, and what was marked before, contains all marks. */
  lemma MarksAreLeast(s: State, M: set<Ref>, N: set<Ref>)
    requires Good(s, M) && s.phase.Atomic?
    requires Closed(s.heap, N) && (forall r :: Marked(s.color, r) ==> r in N) && forall v :: v in RootValues(s) ==> ValueIn(v, N)
    ensures MarkedSet(Converged(s)) <= N
  {
    var c := FinalContext(s, N);
    hide Good, Inv, Frame, Surrounds, Traverses, Marks, PropagateAll, AtomicMark, AllDone, RootValues, SlotsSettled,
      KeysKnown, Closed, MarkedSet, RootsAllocated;
    MarkingParts(s, M);
    assert Within(s.color, N);
    InvAgain(s, M, N);
    FinalStart(s, N);
    PropagatedIn(s, c);
    AtomicMarkKeeps(PropagateAll(s), c);
    MarkedWithin(Converged(s), c);
  }

  lemma RisesModes(s: State, t: State)
    requires Rises(s, t)
    ensures forall o :: o in s.heap.objs && s.heap.objs[o].Table? ==>
              o in t.heap.objs && t.heap.objs[o].Table? && t.heap.objs[o].mode == s.heap.objs[o].mode
  {
    forall o | o in s.heap.objs && s.heap.objs[o].Table?
      ensures o in t.heap.objs && t.heap.objs[o].Table? && t.heap.objs[o].mode == s.heap.objs[o].mode
    {
      assert o in t.heap.objs;
    }
  }

  /** Lower bound: the marks contain the roots and are closed, ephemeron chains of any length included. */
  lemma MarksAreClosed(s: State, M: set<Ref>, o: Ref)
    requires Good(s, M) && s.phase.Atomic?
    requires o in MarkedSet(Converged(s))
    requires o in s.allweak ==> o in s.heap.objs && s.heap.objs[o].Table? && s.heap.objs[o].mode.AllWeak?
    ensures o in Converged(s).heap.objs && HoldsIn(Converged(s).heap, o, MarkedSet(Converged(s)))
  {
    var c := FinalContext(s, M);
    var t := Converged(s);
    hide Good, Inv, Rises, AllDone, RootValues, SlotsSettled, HoldsIn, PropagateAll, AtomicMark;
    AtomicMarks(s, M);
    RisesModes(s, t);
    HeapDomains(t, {}, c);
    MarksHold(t, o, c);
  }

  /** The roots, and what was marked before, are among the marks. */
  lemma MarksStart(s: State, M: set<Ref>)
    requires Good(s, M) && s.phase.Atomic?
    ensures forall v :: v in RootValues(s) ==> ValueIn(v, MarkedSet(Converged(s)))
    ensures forall r :: Marked(s.color, r) ==> r in MarkedSet(Converged(s))
  {
    var t := Converged(s);
    hide Good, Inv, Rises, AllDone, RootValues, PropagateAll, AtomicMark;
    AtomicMarks(s, M);
    RisesKeys(s, t);
    forall v | v in RootValues(s) ensures ValueIn(v, MarkedSet(t)) {
      assert ValueSettled(t.color, v);
    }
  }
}
