/** The atomic step: ephemeron convergence, clearing weak tables, separating finalizable objects (lgc.c:608-674, 880-1029). */
module LuaAtomic {
  import opened LuaObjects
  import opened LuaMark
  import opened LuaTraverse
  import opened LuaPropagate

  // ---------- convergeephemerons ----------

  /** One round over a list of ephemeron tables; the flag tells whether a value was marked. */
  function ConvergePass(s: State, next: seq<Ref>): (r: (State, bool))
    ensures Whites(r.0) <= Whites(s)
    ensures r.1 ==> Whites(r.0) < Whites(s)
    decreases |next|
  {
    if next == [] then (s, false)
    else if next[0] !in s.heap.objs || !s.heap.objs[next[0]].Table? then ConvergePass(s, next[1..])
    else
      var (s1, marked) := TraverseEphemeron(s, next[0]);
      var (t, changed) := ConvergePass(if marked then PropagateAll(s1) else s1, next[1..]);
      (t, marked || changed)
  }

  /** convergeephemerons: rounds until one marks nothing. */
  function Converge(s: State): (t: State)
    ensures Whites(t) <= Whites(s)
    decreases Whites(s)
  {
    var s1 := s.(ephemeron := []);
    assert Whites(s1) == Whites(s);
    var (t, changed) := ConvergePass(s1, s.ephemeron);
    if changed then Converge(t) else t
  }

  /** In every listed ephemeron table an entry whose key stays has its value marked. */
  ghost predicate AllDone(s: State) {
    forall o :: o in s.ephemeron && o in s.heap.objs && s.heap.objs[o].Table? ==>
      EntriesDone(s.heap, s.color, s.heap.objs[o].hash)
  }

  lemma DoneStays(s: State, t: State)
    requires Traverses(s, t) && OnlyStrings(s.heap, s.color, t.color)
    ensures forall o :: o in s.heap.objs && s.heap.objs[o].Table? && EntriesDone(s.heap, s.color, s.heap.objs[o].hash) ==>
              o in t.heap.objs && t.heap.objs[o].Table? && EntriesDone(t.heap, t.color, t.heap.objs[o].hash)
  {
    SameShapeThins(s.heap, t.heap);
    ThinRefers(s.heap, t.heap);
    forall o | o in s.heap.objs && s.heap.objs[o].Table? && EntriesDone(s.heap, s.color, s.heap.objs[o].hash)
      ensures o in t.heap.objs && t.heap.objs[o].Table? && EntriesDone(t.heap, t.color, t.heap.objs[o].hash)
    {
      assert o in t.heap.objs;
      forall n | n in t.heap.objs[o].hash && !n.val.Nil? && KeyStays(t.heap, t.color, n.key)
        ensures ValueSettled(t.color, n.val)
      {
        assert n in s.heap.objs[o].hash;
        assert KeyStays(s.heap, s.color, n.key);
      }
    }
  }

  function Pending(c: Context, q: seq<Ref>): Context {
    c.(pending := set r | r in q)
  }

  lemma TakePending(s: State, next: seq<Ref>, c: Context)
    requires next != [] && NoDup(next) && Inv(s, {}, Pending(c, next)) && s.phase.InsideAtomic?
    ensures Inv(s, {next[0]}, Pending(c, next[1..])) && Unlisted(s, next[0], Pending(c, next[1..]))
    ensures IsColor(s.color, next[0], Gray) && next[0] in s.heap.objs && next[0] in c.within
  {
    assert next == [next[0]] + next[1..];
    var c1 := Pending(c, next[1..]);
    assert next[0] in next && next[0] !in next[1..] && next[0] in Pending(c, next).pending;
    assert Marked(s.color, next[0]);
    TakeWaits(s, next, c);
    hide EveryGrayWaits, NoBlackToWhite;
    assert WeakLists(s, c1) == WeakLists(s, Pending(c, next));
    hide WeakLists;
  }

  lemma TakeWaits(s: State, next: seq<Ref>, c: Context)
    requires next != [] && EveryGrayWaits(s, {}, Pending(c, next)) && s.phase.InsideAtomic?
    ensures EveryGrayWaits(s, {next[0]}, Pending(c, next[1..]))
  {
    assert next == [next[0]] + next[1..];
    hide RefsMarked;
    forall p | p in s.heap.objs && p !in {next[0]} && IsColor(s.color, p, Gray) ensures Waits(s, p, Pending(c, next[1..])) {
      assert Waits(s, p, Pending(c, next));
    }
  }

  lemma EphemeronTablesStay(s: State, t: State, q: seq<Ref>)
    requires Traverses(s, t)
    requires forall o :: o in q ==> EphemeronTable(s.heap, s.color, o) && IsColor(t.color, o, Gray)
    ensures forall o :: o in q ==> EphemeronTable(t.heap, t.color, o)
  {
    SameShapeThins(s.heap, t.heap);
    ThinTables(s.heap, t.heap, s.color);
    forall o | o in q ensures EphemeronTable(t.heap, t.color, o) {
      assert EphemeronTable(t.heap, s.color, o);
    }
  }

  lemma PendingGray(s: State, q: seq<Ref>, c: Context)
    requires Inv(s, {}, Pending(c, q))
    ensures forall o :: o in q ==> IsColor(s.color, o, Gray)
  {
  }

  lemma OnlyStringsThrough(s: State, t: State, u: State)
    requires Traverses(s, t) && Traverses(t, u)
    requires OnlyStrings(s.heap, s.color, t.color) && OnlyStrings(t.heap, t.color, u.color)
    ensures OnlyStrings(s.heap, s.color, u.color)
  {
    SameShapeThins(s.heap, t.heap);
    ThinRefers(s.heap, t.heap);
  }

  /** The state after the first table of a round has been visited and its marks propagated. */
  function VisitTable(s: State, o: Ref): (State, bool)
    requires o in s.heap.objs && s.heap.objs[o].Table?
  {
    var (s1, marked) := TraverseEphemeron(s, o);
    (if marked then PropagateAll(s1) else s1, marked)
  }

  lemma VisitTableKeeps(s: State, next: seq<Ref>, c: Context)
    requires next != [] && NoDup(next) && Inv(s, {}, Pending(c, next)) && s.phase.InsideAtomic? && c.final && s.gray == []
    requires EphemeronTable(s.heap, s.color, next[0])
    ensures var (t, marked) := VisitTable(s, next[0]);
            && Inv(t, {}, Pending(c, next[1..])) && Traverses(s, t) && t.gray == []
            && (!marked ==> OnlyStrings(s.heap, s.color, t.color) && (AllDone(s) ==> AllDone(t)))
  {
    var o := next[0];
    var c1 := Pending(c, next[1..]);
    TakePending(s, next, c);
    hide Inv, Traverses, Whites, Work, EphemeronTable, EntriesDone, AllDone, OnlyStrings, Unlisted;
    TableIsEphemeron(s, o);
    EphemeronKeeps(s, o, c1);
    var (s1, marked) := TraverseEphemeron(s, o);
    TraversesFrame(s, s1);
    if marked {
      PropagateAllKeeps(s1, c1);
      TraversesTransitive(s, s1, PropagateAll(s1));
    } else if AllDone(s) {
      RoundDone(s, s1, o);
    }
  }

  lemma {:induction false} ConvergePassKeeps(s: State, next: seq<Ref>, c: Context)
    requires Inv(s, {}, Pending(c, next)) && NoDup(next) && s.phase.InsideAtomic? && c.final && s.gray == []
    requires forall o :: o in next ==> EphemeronTable(s.heap, s.color, o)
    ensures var (t, changed) := ConvergePass(s, next);
            && Inv(t, {}, Pending(c, [])) && Traverses(s, t) && t.gray == []
            && (!changed ==> OnlyStrings(s.heap, s.color, t.color) && (AllDone(s) ==> AllDone(t)))
    decreases |next|
  {
    hide Inv, Traverses, Whites, Work, EphemeronTable, AllDone;
    if next == [] {
      TraversesReflexive(s);
    } else {
      hide OnlyStrings, TraverseEphemeron, PropagateAll;
      assert EphemeronTable(s.heap, s.color, next[0]);
      TableIsEphemeron(s, next[0]);
      VisitTableKeeps(s, next, c);
      var (s2, marked) := VisitTable(s, next[0]);
      TraversesFrame(s, s2);
      PendingGray(s2, next[1..], c);
      assert forall p :: p in next[1..] ==> p in next;
      EphemeronTablesStay(s, s2, next[1..]);
      ConvergePassKeeps(s2, next[1..], c);
      var (t, changed) := ConvergePass(s2, next[1..]);
      TraversesTransitive(s, s2, t);
      if !marked && !changed {
        OnlyStringsThrough(s, s2, t);
      }
    }
  }

  lemma TableIsEphemeron(s: State, o: Ref)
    requires EphemeronTable(s.heap, s.color, o)
    ensures o in s.heap.objs && s.heap.objs[o].Table? && s.heap.objs[o].mode.Ephemeron?
    ensures ValueSettled(s.color, s.heap.objs[o].metatable)
  {
  }

  lemma RoundDone(s: State, t: State, o: Ref)
    requires Traverses(s, t) && OnlyStrings(s.heap, s.color, t.color) && AllDone(s)
    requires o in t.heap.objs && t.heap.objs[o].Table? && EntriesDone(t.heap, t.color, t.heap.objs[o].hash)
    requires forall r :: r in t.ephemeron ==> r == o || r in s.ephemeron
    ensures AllDone(t)
  {
    DoneStays(s, t);
    forall r | r in t.ephemeron && r in t.heap.objs && t.heap.objs[r].Table?
      ensures EntriesDone(t.heap, t.color, t.heap.objs[r].hash)
    {
      if r != o {
        assert r in s.heap.objs;
      }
    }
  }

  lemma StartQueues(s: State, c: Context)
    requires Queues(s, Pending(c, [])) && WeakLists(s, c) && c.final && s.phase.InsideAtomic?
    ensures Queues(s.(ephemeron := []), Pending(c, s.ephemeron)) && NoDup(s.ephemeron)
    ensures forall o :: o in s.ephemeron ==> EphemeronTable(s.heap, s.color, o) && IsColor(s.color, o, Gray)
  {
    assert forall o :: o in s.ephemeron ==> EphemeronTable(s.heap, s.color, o) && IsColor(s.color, o, Gray);
    assert forall o :: o in s.weak ==> WeakValueTable(s.heap, s.color, o);
  }

  lemma StartWaits(s: State, c: Context)
    requires EveryGrayWaits(s, {}, Pending(c, []))
    ensures EveryGrayWaits(s.(ephemeron := []), {}, Pending(c, s.ephemeron))
  {
    hide RefsMarked;
    var s1 := s.(ephemeron := []);
    forall p | p in s1.heap.objs && IsColor(s1.color, p, Gray) ensures Waits(s1, p, Pending(c, s.ephemeron)) {
      assert Waits(s, p, Pending(c, []));
    }
  }

  lemma StartWeakLists(s: State, c: Context)
    requires WeakLists(s, c)
    ensures WeakLists(s, Pending(c, [])) && WeakLists(s.(ephemeron := []), Pending(c, s.ephemeron))
  {
  }

  lemma StartRound(s: State, c: Context)
    requires Inv(s, {}, Pending(c, [])) && s.phase.InsideAtomic? && c.final
    ensures var s1 := s.(ephemeron := []);
            && Inv(s1, {}, Pending(c, s.ephemeron)) && NoDup(s.ephemeron) && Traverses(s, s1) && AllDone(s1)
            && forall o :: o in s.ephemeron ==> EphemeronTable(s1.heap, s1.color, o)
  {
    assert WeakLists(s, c);
    StartQueues(s, c);
    StartWaits(s, c);
    StartWeakLists(s, c);
    hide Queues, WeakLists, EveryGrayWaits, NoBlackToWhite, HeapClosed, Closed, EphemeronTable;
  }

  /** Convergence ends with every ephemeron entry whose key stays marked through, whatever chains the entries form. */
  lemma {:induction false} ConvergeKeeps(s: State, c: Context)
    requires Inv(s, {}, Pending(c, [])) && s.phase.InsideAtomic? && c.final && s.gray == []
    ensures var t := Converge(s);
            Inv(t, {}, Pending(c, [])) && Traverses(s, t) && t.gray == [] && AllDone(t)
    decreases Whites(s)
  {
    var s1 := s.(ephemeron := []);
    assert Whites(s1) == Whites(s);
    StartRound(s, c);
    hide Inv, Traverses, AllDone, EphemeronTable;
    ConvergePassKeeps(s1, s.ephemeron, c);
    var (t, changed) := ConvergePass(s1, s.ephemeron);
    TraversesTransitive(s, s1, t);
    if changed {
      TraversesFrame(s, t);
      ConvergeKeeps(t, c);
      TraversesTransitive(s, t, Converge(t));
    }
  }
}
