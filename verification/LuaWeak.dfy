/** What the atomic step takes out of weak tables, and what it leaves (lgc.c:639-674, 1005-1024; section 2.5.2 of the
    Lua 5.3 manual). */
module LuaWeak {
  import opened LuaObjects
  import opened LuaMark
  import opened LuaTraverse
  import opened LuaPropagate
  import opened LuaAtomic
  import opened LuaClear
  import opened LuaAtomicStep
  import opened LuaSweep
  import opened LuaEvents
  import opened LuaInvariant
  import opened LuaSweepGood
  import opened LuaCollect
  import opened LuaRun
  import opened LuaFixpoint
  import opened LuaFinalize
  import opened LuaEffects
  /** The array part: a value that V keeps stays, and any other one stays or becomes nil. */
  ghost predicate SparesSlots(h: Heap, vs: seq<Value>, ws: seq<Value>, V: set<Ref>) {
    && |ws| == |vs|
    && forall i :: 0 <= i < |vs| ==> ws[i] == vs[i] || (ws[i] == Nil && !Keeps(h, vs[i], V))
  }

  /** The hash part: an entry stays if K keeps its key and V its value, and no entry is new. */
  ghost predicate SparesEntries(h: Heap, ns: seq<Node>, ms: seq<Node>, V: set<Ref>, K: set<Ref>) {
    && (forall n: Node :: n in ns && !n.val.Nil? && Keeps(h, n.key, K) && Keeps(h, n.val, V) ==> n in ms)
    && (forall n: Node :: n in ms && !n.val.Nil? ==> n in ns)
  }

  /** The object is as it was, but for entries of a table that lost their key or their value. */
  ghost predicate SparesObject(h: Heap, p: Payload, q: Payload, V: set<Ref>, K: set<Ref>) {
    || q == p
    || (&& p.Table? && q.Table? && q == p.(slots := q.slots, hash := q.hash)
        && SparesSlots(h, p.slots, q.slots, V) && SparesEntries(h, p.hash, q.hash, V, K))
  }

  ghost predicate Spares(h: Heap, k: Heap, V: set<Ref>, K: set<Ref>) {
    && k.cells == h.cells && k.objs.Keys == h.objs.Keys
    && (forall r :: IsString(k, r) == IsString(h, r))
    && forall o :: o in h.objs && o in k.objs ==> SparesObject(h, h.objs[o], k.objs[o], V, K)
  }

  lemma ObjectTransitive(h: Heap, k: Heap, o: Payload, p: Payload, q: Payload, V: set<Ref>, K: set<Ref>)
    requires forall r :: IsString(k, r) == IsString(h, r)
    requires SparesObject(h, o, p, V, K) && SparesObject(k, p, q, V, K)
    ensures SparesObject(h, o, q, V, K)
  {
    assert forall v, M :: Keeps(k, v, M) == Keeps(h, v, M);
    hide Keeps, IsString;
  }

  lemma SparesTransitive(h: Heap, k: Heap, l: Heap, V: set<Ref>, K: set<Ref>)
    requires Spares(h, k, V, K) && Spares(k, l, V, K)
    ensures Spares(h, l, V, K)
  {
    hide SparesObject, IsString;
    forall o | o in h.objs && o in l.objs ensures SparesObject(h, h.objs[o], l.objs[o], V, K) {
      assert o in k.objs;
      ObjectTransitive(h, k, h.objs[o], k.objs[o], l.objs[o], V, K);
    }
  }

  lemma ShapeSpares(h: Heap, k: Heap, V: set<Ref>, K: set<Ref>)
    requires SameShape(h, k)
    ensures Spares(h, k, V, K)
  {
    SameShapeThins(h, k);
    ThinRefers(h, k);
    hide Keeps, IsString;
  }

  lemma TraversesSpares(s: State, t: State, V: set<Ref>, K: set<Ref>)
    requires Traverses(s, t)
    ensures Spares(s.heap, t.heap, V, K)
  {
    hide SameShape;
    ShapeSpares(s.heap, t.heap, V, K);
  }

  // ---------- clearkeys and clearvalues ----------

  /** The marks at which a pass looks keep what it is to keep. */
  ghost predicate MarkedAll(color: map<Ref, Color>, M: set<Ref>) {
    forall r :: r in M ==> Marked(color, r)
  }

  lemma EntriesSpare(h: Heap, color: map<Ref, Color>, ns: seq<Node>, ms: seq<Node>, onKeys: bool, V: set<Ref>, K: set<Ref>)
    requires EntriesCleared(h, color, ns, ms, onKeys) && MarkedAll(color, if onKeys then K else V)
    ensures SparesEntries(h, ns, ms, V, K)
  {
    forall n: Node | n in ns && !n.val.Nil? && Keeps(h, n.key, K) && Keeps(h, n.val, V) ensures n in ms {
      var i :| 0 <= i < |ns| && ns[i] == n;
      assert KeyStays(h, color, Cleared(n, onKeys));
      assert ms[i] == n;
    }
    hide KeyStays, ValueSettled, Keeps;
    forall n: Node | n in ms && !n.val.Nil? ensures n in ns {
      var i :| 0 <= i < |ms| && ms[i] == n;
      assert ms[i] == ns[i];
    }
  }

  lemma SlotsSpare(h: Heap, color: map<Ref, Color>, vs: seq<Value>, ws: seq<Value>, V: set<Ref>)
    requires SlotsCleared(h, color, vs, ws) && MarkedAll(color, V)
    ensures SparesSlots(h, vs, ws, V)
  {
  }

  lemma TableSpares(s: State, o: Ref, onKeys: bool, c: Context, V: set<Ref>, K: set<Ref>)
    requires Inv(s, {}, c) && o in c.within && o in s.heap.objs && s.heap.objs[o].Table?
    requires MarkedAll(s.color, if onKeys then K else V)
    ensures Spares(s.heap, ClearTable(s, o, onKeys).heap, V, K)
  {
    ClearPasses(s, o, onKeys, c);
    var p := s.heap.objs[o];
    var (s1, vs) := if onKeys then (s, p.slots) else ClearSlots(s, p.slots);
    var (s2, ns) := ClearEntries(s1, p.hash, onKeys);
    GrowFrame(s, s2);
    MarksStay(s, s2, if onKeys then K else V);
    assert ClearTable(s, o, onKeys).heap == s.heap.(objs := s.heap.objs[o := p.(slots := vs, hash := ns)]) by {
      hide Inv, Grow, OnlyStrings, ClearSlots, ClearEntries, SlotsCleared, EntriesCleared;
    }
    hide *;
    EntriesSpare(s.heap, s2.color, p.hash, ns, onKeys, V, K);
    if onKeys {
      SlotsSelf(s.heap, vs, V);
    } else {
      SlotsSpare(s.heap, s2.color, p.slots, vs, V);
    }
    OneSpares(s.heap, o, vs, ns, V, K);
  }

  lemma MarksStay(s: State, t: State, M: set<Ref>)
    requires Grow(s, t) && MarkedAll(s.color, M)
    ensures MarkedAll(t.color, M)
  {
    GrowFrame(s, t);
  }

  lemma SlotsSelf(h: Heap, vs: seq<Value>, V: set<Ref>)
    ensures SparesSlots(h, vs, vs, V)
  {
  }

  lemma OneSpares(h: Heap, o: Ref, vs: seq<Value>, ns: seq<Node>, V: set<Ref>, K: set<Ref>)
    requires o in h.objs && h.objs[o].Table?
    requires SparesSlots(h, h.objs[o].slots, vs, V) && SparesEntries(h, h.objs[o].hash, ns, V, K)
    ensures Spares(h, h.(objs := h.objs[o := h.objs[o].(slots := vs, hash := ns)]), V, K)
  {
    hide SparesSlots, SparesEntries;
  }

  lemma {:induction false} ClearSpares(s: State, q: seq<Ref>, onKeys: bool, c: Context, V: set<Ref>, K: set<Ref>)
    requires Inv(s, {}, c) && MarkedAll(s.color, if onKeys then K else V)
    requires forall o :: o in q ==> o in c.within && o in s.heap.objs && s.heap.objs[o].Table?
    ensures Spares(s.heap, Clear(s, q, onKeys).heap, V, K)
    decreases |q|
  {
    hide Inv, Spares, Clears, ClearTable;
    if q == [] {
      ThinSelf(s.heap, V, K);
    } else {
      assert q == [q[0]] + q[1..];
      TableSpares(s, q[0], onKeys, c, V, K);
      ClearTableKeeps(s, q[0], onKeys, c);
      var s1 := ClearTable(s, q[0], onKeys);
      ClearsFrame(s, s1);
      assert forall o :: o in q[1..] ==> o in q;
      ClearSpares(s1, q[1..], onKeys, c, V, K);
      SparesTransitive(s.heap, s1.heap, Clear(s1, q[1..], onKeys).heap, V, K);
    }
  }

  lemma ThinSelf(h: Heap, V: set<Ref>, K: set<Ref>)
    ensures Spares(h, h, V, K)
  {
  }

  // ---------- The atomic step ----------

  lemma BothSpare(s: State, q: seq<Ref>, p: seq<Ref>, onKeys: bool, c: Context, V: set<Ref>, K: set<Ref>)
    requires Inv(s, {}, c) && c.final && MarkedAll(s.color, if onKeys then K else V)
    requires forall o :: o in q || o in p ==> o in s.weak || o in s.allweak || o in s.ephemeron
    ensures Spares(s.heap, ClearBoth(s, q, p, onKeys).heap, V, K)
  {
    hide *;
    ListedTables(s, c);
    ClearSpares(s, q, onKeys, c, V, K);
    ClearListKeeps(s, q, onKeys, c);
    var s1 := Clear(s, q, onKeys);
    MarksRose(s, s1, if onKeys then K else V);
    ListedTables(s1, c);
    ClearSpares(s1, p, onKeys, c, V, K);
    SparesTransitive(s.heap, s1.heap, Clear(s1, p, onKeys).heap, V, K);
    BothIs(s, q, p, onKeys);
  }

  lemma BothIs(s: State, q: seq<Ref>, p: seq<Ref>, onKeys: bool)
    ensures ClearBoth(s, q, p, onKeys) == Clear(Clear(s, q, onKeys), p, onKeys)
  {
    hide Clear;
  }

  lemma MarksRose(s: State, t: State, M: set<Ref>)
    requires Rises(s, t) && MarkedAll(s.color, M)
    ensures MarkedAll(t.color, M)
  {
    RisesKeys(s, t);
  }

  lemma MarkedAreMarked(s: State)
    ensures MarkedAll(s.color, MarkedSet(s))
  {
  }

  lemma SecondSpares(s: State, c: Context, V: set<Ref>, K: set<Ref>)
    requires Inv(s, {}, c) && c.final && s.phase.InsideAtomic? && c == Pending(c, [])
    requires forall r :: r in s.finobj || r in s.tobefnz ==> r in c.within && r in s.heap.objs
    ensures Spares(s.heap, Resurrect(SeparateToBeFnz(s)).heap, V, K)
  {
    hide *;
    SeparateKeeps(s, c);
    var s1 := SeparateToBeFnz(s);
    SeparateHeap(s);
    RisesKeys(s, s1);
    ResurrectKeeps(s1, c);
    TraversesSpares(s1, Resurrect(s1), V, K);
  }

  lemma SeparateHeap(s: State)
    ensures SeparateToBeFnz(s).heap == s.heap && SeparateToBeFnz(s).phase == s.phase
  {
  }

  /** Fewer objects keep fewer entries. */
  lemma SparesFewer(h: Heap, k: Heap, V: set<Ref>, K: set<Ref>, L: set<Ref>)
    requires Spares(h, k, V, K) && forall r :: r in L && !IsString(h, r) ==> r in K
    ensures Spares(h, k, V, L)
  {
    assert forall v :: Keeps(h, v, L) ==> Keeps(h, v, K);
    hide Keeps, IsString, SparesSlots;
    forall o | o in h.objs && o in k.objs ensures SparesObject(h, h.objs[o], k.objs[o], V, L) {
      assert SparesObject(h, h.objs[o], k.objs[o], V, K);
    }
  }

  lemma StringsOnly(s: State, t: State, h: Heap)
    requires OnlyStrings(s.heap, s.color, t.color) && s.color.Keys == t.color.Keys
    requires forall r :: IsString(s.heap, r) == IsString(h, r)
    ensures forall r :: r in MarkedSet(t) && !IsString(h, r) ==> r in MarkedSet(s)
  {
    hide IsString;
  }

  lemma SameStrings(h: Heap, k: Heap, V: set<Ref>, K: set<Ref>)
    requires Spares(h, k, V, K)
    ensures forall r :: IsString(k, r) == IsString(h, r)
  {
    hide SparesObject, IsString;
  }

  /** An entry stays if its value had been marked before objects were resurrected, and its key is marked at the end. */
  lemma AtomicClearSpares(s: State, c: Context)
    requires Inv(s, {}, c) && c.final && s.phase.InsideAtomic? && c == Pending(c, [])
    requires forall r :: r in s.finobj || r in s.tobefnz ==> r in c.within && r in s.heap.objs
    ensures Spares(s.heap, AtomicClear(s).heap, MarkedSet(s), MarkedSet(AtomicClear(s)))
  {
    var s1 := ClearBoth(s, s.weak, s.allweak, false);
    var s2 := Resurrect(SeparateToBeFnz(s1));
    var s3 := ClearBoth(s2, s2.ephemeron, s2.allweak, true);
    var qw, qa := NewPart(s3.weak, s1.weak), NewPart(s3.allweak, s1.allweak);
    var t := ClearBoth(s3, qw, qa, false);
    assert AtomicClear(s) == t;
    hide *;
    var V, K := MarkedSet(s), MarkedSet(s2);
    MarkedAreMarked(s);
    MarkedAreMarked(s2);
    ClearBothKeeps(s, s.weak, s.allweak, false, c);
    BothSpare(s, s.weak, s.allweak, false, c, V, K);
    SameListsAre(s, s1);
    RisesKeys(s, s1);
    MarksRose(s, s1, V);
    SecondMarking(s1, c);
    SecondSpares(s1, c, V, K);
    MarksRose(s1, s2, V);
    ClearBothKeeps(s2, s2.ephemeron, s2.allweak, true, c);
    BothSpare(s2, s2.ephemeron, s2.allweak, true, c, V, K);
    SameListsAre(s2, s3);
    MarksRose(s2, s3, V);
    NewPartCovers(s3.weak, s1.weak);
    NewPartCovers(s3.allweak, s1.allweak);
    ClearBothKeeps(s3, qw, qa, false, c);
    BothSpare(s3, qw, qa, false, c, V, K);
    SparesTransitive(s.heap, s1.heap, s2.heap, V, K);
    SparesTransitive(s.heap, s2.heap, s3.heap, V, K);
    SparesTransitive(s.heap, s3.heap, t.heap, V, K);
    StringsRise(s2, s3, t);
    RisesTransitive(s2, s3, t);
    RisesColors(s2, t);
    SameStrings(s.heap, s2.heap, V, K) by { SparesTransitive(s.heap, s1.heap, s2.heap, V, K); }
    StringsOnly(s2, t, s.heap);
    SparesFewer(s.heap, t.heap, V, K, MarkedSet(t));
  }

  lemma SameListsAre(s: State, t: State)
    requires SameLists(s, t)
    ensures t.finobj == s.finobj && t.tobefnz == s.tobefnz && t.phase == s.phase
    ensures t.weak == s.weak && t.allweak == s.allweak && t.ephemeron == s.ephemeron
  {
  }

  lemma RisesColors(s: State, t: State)
    requires Rises(s, t)
    ensures t.color.Keys == s.color.Keys
  {
  }

  lemma ConvergedSpares(s: State, V: set<Ref>, K: set<Ref>, M: set<Ref>)
    requires Good(s, M) && s.phase.Atomic?
    ensures Spares(s.heap, Converged(s).heap, V, K)
  {
    var c := FinalContext(s, M);
    assert KeepInvariant(s) && Ready(s, c) && c.final && c.within == M;
    hide *;
    var s1 := PropagateAll(s);
    MarkingParts(s, M);
    FinalStart(s, M);
    PropagateAllKeeps(s, c);
    TraversesSpares(s, s1, V, K);
    TraversesMarking(s, s1);
    TraversesFrame(s, s1);
    TraversesRoots(s, s1);
    TraversesLists(s, s1);
    RootsAreAllocated(s, s1, M);
    AtomicMarkKeeps(s1, c);
    var s2 := s1.(phase := InsideAtomic);
    ConvergedIs(s);
    TraversesSpares(s2, Converged(s), V, K);
    SparesTransitive(s.heap, s1.heap, Converged(s).heap, V, K);
  }

  lemma ConvergedIs(s: State)
    ensures Converged(s) == AtomicMark(PropagateAll(s))
  {
    hide AtomicMark, PropagateAll;
  }

  lemma EnterSweepSweeps(s: State, M: set<Ref>)
    requires Good(s.(phase := SweepAllGc, sweepgc := Head(AllGc)), M)
    ensures Sweeps(s.(phase := SweepAllGc), EnterSweep(s).(sweepgc := s.sweepgc))
  {
    var u := s.(phase := SweepAllGc);
    var p := Head(AllGc);
    assert u.(sweepgc := p) == s.(phase := SweepAllGc, sweepgc := p);
    SweepParts(u.(sweepgc := p), M);
    CursorFree(u, p, M);
    HeadInList(u);
    hide Good, Frame, Surrounds, LiveClosed, DeadAreOrdinary, RestIsWhite, DeadInTodo, OutsideDead, Listed, SweepToLive,
      Stretch, InList, CursorInPlace, Sweeps;
    var done := SweepToLiveKeeps(u, p, AllGc);
    var (t, r) := SweepToLive(u, p);
    StretchPlain(u, p, done, t, r, AllGc);
    CursorSweeps(u, t, r);
    assert EnterSweep(s).(sweepgc := s.sweepgc) == t.(sweepgc := r).(sweepgc := u.sweepgc);
  }

  lemma CursorSweeps(s: State, t: State, r: Cursor)
    requires Sweeps(s, t)
    ensures Sweeps(s, t.(sweepgc := r).(sweepgc := s.sweepgc))
  {
    assert t.(sweepgc := r).(sweepgc := s.sweepgc) == t;
  }

  /** What is left of the heap when sweeping starts: what is live had been marked. */
  ghost predicate LeftOf(t: State, u: State) {
    && u.heap.cells == t.heap.cells
    && (forall o :: o in u.heap.objs ==> o in t.heap.objs && u.heap.objs[o] == t.heap.objs[o])
    && (forall r :: r in LiveSet(u) ==> r in MarkedSet(t))
  }

  lemma SweepsLeave(t: State, w: State, u: State)
    requires w == t.(white := !t.white, phase := SweepAllGc) && Sweeps(w, u.(sweepgc := w.sweepgc))
    requires t.color.Keys == t.heap.objs.Keys && forall x :: !IsDead(t, x)
    ensures LeftOf(t, u)
  {
    forall r | r in LiveSet(u) ensures r in MarkedSet(t) {
      assert Live(u.(sweepgc := w.sweepgc), r);
      assert Live(w, r);
      assert !IsDead(t, r);
    }
  }

  lemma AtomicLeaves(s: State, max: nat, emergency: bool, M: set<Ref>)
    requires Good(s, M) && s.phase.Atomic?
    ensures LeftOf(AtomicClear(Converged(s)), SingleStep(s, max, emergency))
  {
    var t := AtomicClear(Converged(s));
    var w := AtomicStep(PropagateAll(s));
    AtomicClears(s, M);
    assert t == AtomicClear(AtomicMark(PropagateAll(s)));
    assert Flipped(t) == w.(phase := SweepAllGc, sweepgc := Head(AllGc));
    assert w.(phase := SweepAllGc) == t.(white := !t.white, phase := SweepAllGc);
    assert t.color.Keys == t.heap.objs.Keys && forall x :: !IsDead(t, x);
    hide *;
    FlipGood(t, M);
    EnterSweepSweeps(w, M);
    StepIs(s, max, emergency);
    SweepsLeave(t, w.(phase := SweepAllGc), EnterSweep(w));
  }

  /** What survives the step is as it was, but for entries of tables. */
  ghost predicate SparesAll(s: State, t: State, V: set<Ref>, K: set<Ref>) {
    && t.heap.cells == s.heap.cells
    && forall o :: o in t.heap.objs ==> o in s.heap.objs && SparesObject(s.heap, s.heap.objs[o], t.heap.objs[o], V, K)
  }

  lemma LeftSpares(s: State, t: State, u: State, V: set<Ref>, L: set<Ref>)
    requires Spares(s.heap, t.heap, V, L) && LeftOf(t, u)
    ensures SparesAll(s, u, V, L)
  {
    hide SparesObject, LiveSet, MarkedSet, IsString;
  }

  /** An entry of a table is still there after the atomic step if its value had been marked before any object was
      resurrected, and its key is live afterwards; strings, and what is no object, count as such. All else the step leaves
      as it was. */
  lemma AtomicSpares(s: State, max: nat, emergency: bool, M: set<Ref>)
    requires Good(s, M) && s.phase.Atomic?
    ensures var t := SingleStep(s, max, emergency); SparesAll(s, t, MarkedSet(Converged(s)), LiveSet(t))
  {
    hide *;
    var u := Converged(s);
    var t := AtomicClear(u);
    var V, K, L := MarkedSet(u), MarkedSet(t), LiveSet(SingleStep(s, max, emergency));
    ConvergedFinal(s, M);
    AtomicClearSpares(u, FinalContext(s, M));
    ConvergedSpares(s, V, K, M);
    SparesTransitive(s.heap, u.heap, t.heap, V, K);
    AtomicLeaves(s, max, emergency, M);
    LeftIn(t, SingleStep(s, max, emergency), K, L);
    SparesFewer(s.heap, t.heap, V, K, L);
    LeftSpares(s, t, SingleStep(s, max, emergency), V, L);
  }

  lemma LeftIn(t: State, u: State, K: set<Ref>, L: set<Ref>)
    requires LeftOf(t, u) && K == MarkedSet(t) && L == LiveSet(u)
    ensures forall r :: r in L ==> r in K
  {
    hide LiveSet, MarkedSet;
  }

  lemma ConvergedFinal(s: State, M: set<Ref>)
    requires Good(s, M) && s.phase.Atomic?
    ensures var u := Converged(s); var c := FinalContext(s, M);
            && Inv(u, {}, c) && c.final && u.phase.InsideAtomic? && c == Pending(c, [])
            && (forall r :: r in u.finobj || r in u.tobefnz ==> r in c.within && r in u.heap.objs)
  {
    assert KeepInvariant(s);
    hide *;
    ConvergedIs(s);
    AtomicMarks(s, M);
    FinalizersIn(s, M);
    RisesKeys(s, Converged(s));
    MarkingParts(s, M);
    FinalStart(s, M);
    FinalIs(s, M);
  }

  lemma FinalIs(s: State, M: set<Ref>)
    ensures FinalContext(s, M).final && FinalContext(s, M).within == M
  {
  }

  // ---------- Weak values ----------

  /** No value of the table is an object that K does not keep. */
  ghost predicate HoldsOnly(h: Heap, p: Payload, K: set<Ref>)
    requires p.Table?
  {
    (forall v :: v in p.slots ==> Keeps(h, v, K)) && (forall n: Node :: n in p.hash && !n.val.Nil? ==> Keeps(h, n.val, K))
  }

  predicate HasWeakValues(h: Heap, o: Ref) {
    o in h.objs && h.objs[o].Table? && (h.objs[o].mode.WeakValue? || h.objs[o].mode.AllWeak?)
  }

  lemma CleanHoldsOnly(s: State, t: State, o: Ref)
    requires Clean(t, o, false) && OnlyStrings(s.heap, s.color, t.color) && s.color.Keys == t.color.Keys
    ensures HoldsOnly(s.heap, t.heap.objs[o], MarkedSet(s))
  {
    forall v | ValueSettled(t.color, v) ensures Keeps(s.heap, v, MarkedSet(s)) {
      assert v.Obj? && !IsString(s.heap, v.ref) ==> t.color[v.ref] == s.color[v.ref];
    }
    hide Keeps, ValueSettled, OnlyStrings, MarkedSet;
  }

  lemma RefsHoldOnly(s: State, o: Ref)
    requires o in s.heap.objs && s.heap.objs[o].Table? && RefsMarked(s.heap, s.color, o)
    ensures HoldsOnly(s.heap, s.heap.objs[o], MarkedSet(s))
  {
    var p := s.heap.objs[o];
    forall v: Value | v in p.slots && v.Obj? ensures v.ref in MarkedSet(s) {
      assert Refers(s.heap, o, v.ref);
    }
    forall n: Node | n in p.hash && !n.val.Nil? && n.val.Obj? ensures n.val.ref in MarkedSet(s) {
      assert Refers(s.heap, o, n.val.ref);
    }
  }

  lemma ThinHoldsOnly(s: Heap, h: Heap, k: Heap, o: Ref, K: set<Ref>)
    requires Thins(h, k) && o in h.objs && h.objs[o].Table? && HoldsOnly(s, h.objs[o], K)
    ensures o in k.objs && k.objs[o].Table? && k.objs[o].mode == h.objs[o].mode && HoldsOnly(s, k.objs[o], K)
  {
    assert o in k.objs;
  }

  /** A marked table with weak values is on a list of tables to be cleared, or all it refers to is marked. */
  lemma WeakWaits(s: State, c: Context, o: Ref)
    requires Inv(s, {}, c) && c.final && c == Pending(c, []) && s.phase.InsideAtomic? && s.gray == []
    requires Marked(s.color, o) && HasWeakValues(s.heap, o)
    ensures o in s.weak || o in s.allweak || RefsMarked(s.heap, s.color, o)
  {
    if IsColor(s.color, o, Gray) {
      assert Waits(s, o, c);
      assert o in s.ephemeron ==> EphemeronTable(s.heap, s.color, o);
    }
  }

  lemma FirstClears(s: State, c: Context, o: Ref)
    requires Inv(s, {}, c) && c.final && c == Pending(c, []) && s.phase.InsideAtomic? && s.gray == []
    requires Marked(s.color, o) && HasWeakValues(s.heap, o)
    ensures var t := ClearBoth(s, s.weak, s.allweak, false);
            o in t.heap.objs && t.heap.objs[o].Table? && HoldsOnly(s.heap, t.heap.objs[o], MarkedSet(s))
  {
    WeakWaits(s, c, o);
    assert o in s.heap.objs && s.heap.objs[o].Table?;
    hide *;
    var t := ClearBoth(s, s.weak, s.allweak, false);
    ClearBothKeeps(s, s.weak, s.allweak, false, c);
    RisesThins(s, t);
    if o in s.weak || o in s.allweak {
      CleanOf(t, s.weak, o);
      CleanOf(t, s.allweak, o);
      CleanHoldsOnly(s, t, o);
    } else {
      RefsHoldOnly(s, o);
      ThinHoldsOnly(s.heap, s.heap, t.heap, o, MarkedSet(s));
    }
  }

  lemma RisesThins(s: State, t: State)
    requires Rises(s, t)
    ensures Thins(s.heap, t.heap) && t.color.Keys == s.color.Keys
  {
    hide Thins;
  }

  lemma CleanOf(s: State, q: seq<Ref>, o: Ref)
    requires AllClean(s, q, false)
    ensures o in q ==> Clean(s, o, false) && o in s.heap.objs && s.heap.objs[o].Table?
  {
  }

  /** The rest of the atomic phase puts nothing into a table. */
  lemma RestThins(s: State, c: Context)
    requires Inv(s, {}, c) && c.final && s.phase.InsideAtomic? && c == Pending(c, [])
    requires forall r :: r in s.finobj || r in s.tobefnz ==> r in c.within && r in s.heap.objs
    ensures Thins(ClearBoth(s, s.weak, s.allweak, false).heap, AtomicClear(s).heap)
    ensures Thins(s.heap, AtomicClear(s).heap)
  {
    var s1 := ClearBoth(s, s.weak, s.allweak, false);
    var s2 := Resurrect(SeparateToBeFnz(s1));
    var s3 := ClearBoth(s2, s2.ephemeron, s2.allweak, true);
    var qw, qa := NewPart(s3.weak, s1.weak), NewPart(s3.allweak, s1.allweak);
    var t := ClearBoth(s3, qw, qa, false);
    assert AtomicClear(s) == t;
    hide *;
    ClearBothKeeps(s, s.weak, s.allweak, false, c);
    SameListsAre(s, s1);
    RisesKeys(s, s1);
    SecondMarking(s1, c);
    ClearBothKeeps(s2, s2.ephemeron, s2.allweak, true, c);
    SameListsAre(s2, s3);
    NewPartCovers(s3.weak, s1.weak);
    NewPartCovers(s3.allweak, s1.allweak);
    ClearBothKeeps(s3, qw, qa, false, c);
    RisesTransitive(s1, s2, s3);
    RisesTransitive(s1, s3, t);
    RisesTransitive(s, s1, t);
    RisesThins(s1, t);
    RisesThins(s, t);
  }

  lemma ThinWeak(h: Heap, k: Heap, o: Ref)
    requires Thins(h, k) && o in k.objs
    ensures o in h.objs && h.objs[o].Table? == k.objs[o].Table? && HasWeakValues(h, o) == HasWeakValues(k, o)
  {
  }

  lemma ConvergedGray(s: State, M: set<Ref>)
    requires Good(s, M) && s.phase.Atomic?
    ensures Converged(s).gray == []
  {
    hide *;
    ConvergedIs(s);
    AtomicMarks(s, M);
  }

  lemma MarkedIs(s: State, o: Ref)
    requires o in MarkedSet(s)
    ensures Marked(s.color, o)
  {
  }

  lemma LeftHoldsOnly(s: Heap, t: State, u: State, o: Ref, K: set<Ref>)
    requires LeftOf(t, u) && HasWeakValues(u.heap, o)
    ensures o in t.heap.objs && t.heap.objs[o] == u.heap.objs[o] && HasWeakValues(t.heap, o)
  {
    hide LiveSet, MarkedSet;
  }

  lemma ConvergedStrings(s: State, M: set<Ref>)
    requires Good(s, M) && s.phase.Atomic?
    ensures forall r :: IsString(Converged(s).heap, r) == IsString(s.heap, r)
  {
    hide *;
    ConvergedSpares(s, {}, {}, M);
    SameStrings(s.heap, Converged(s).heap, {}, {});
  }

  lemma HoldsSame(h: Heap, k: Heap, p: Payload, K: set<Ref>)
    requires p.Table? && HoldsOnly(h, p, K) && forall r :: IsString(h, r) == IsString(k, r)
    ensures HoldsOnly(k, p, K)
  {
    hide IsString;
  }

  /** After the atomic step a table in use with weak values holds no value that was out of use: what was resurrected to be
      finalized has been removed from it before its finalizer is called. */
  lemma WeakValuesGo(s: State, max: nat, emergency: bool, M: set<Ref>, o: Ref)
    requires Good(s, M) && s.phase.Atomic? && o in MarkedSet(Converged(s))
    requires HasWeakValues(SingleStep(s, max, emergency).heap, o)
    ensures var t := SingleStep(s, max, emergency);
            t.heap.objs[o].Table? && HoldsOnly(s.heap, t.heap.objs[o], MarkedSet(Converged(s)))
  {
    assert SingleStep(s, max, emergency).heap.objs[o].Table?;
    hide *;
    var u := Converged(s);
    var t := AtomicClear(u);
    var c := FinalContext(s, M);
    AtomicLeaves(s, max, emergency, M);
    LeftHoldsOnly(s.heap, t, SingleStep(s, max, emergency), o, MarkedSet(u));
    ConvergedFinal(s, M);
    ConvergedGray(s, M);
    RestThins(u, c);
    ThinWeak(u.heap, t.heap, o);
    MarkedIs(u, o);
    FirstClears(u, c, o);
    ThinHoldsOnly(u.heap, ClearBoth(u, u.weak, u.allweak, false).heap, t.heap, o, MarkedSet(u));
    ConvergedStrings(s, M);
    HoldsSame(u.heap, s.heap, t.heap.objs[o], MarkedSet(u));
  }

  // ---------- The other steps ----------

  lemma SparesBoth(s: State, t: State, V: set<Ref>, K: set<Ref>)
    requires Spares(s.heap, t.heap, V, K)
    ensures SparesAll(s, t, V, K)
  {
    hide SparesObject, IsString;
  }

  lemma SameSpares(s: State, t: State, V: set<Ref>, K: set<Ref>)
    requires t.heap == s.heap
    ensures SparesAll(s, t, V, K)
  {
  }

  lemma SweptSpares(s: State, t: State, V: set<Ref>, K: set<Ref>)
    requires Sweeps(s, t)
    ensures SparesAll(s, t, V, K)
  {
  }

  lemma PropagateSpares(s: State, M: set<Ref>, V: set<Ref>, K: set<Ref>)
    requires Good(s, M) && s.phase.Propagate?
    ensures SparesAll(s, SingleStep(s, 0, false), V, K)
  {
    MarkingParts(s, M);
    StepIs(s, 0, false);
    assert KeepInvariant(s) && s.gray != [] && Ready(s, MARKING.(within := M));
    hide *;
    PropagateMarkKeeps(s, MARKING.(within := M));
    TraversesSpares(s, PropagateMark(s), V, K);
    SparesBoth(s, PropagateMark(s), V, K);
    SparesSame(s, PropagateMark(s), SingleStep(s, 0, false), V, K);
  }

  lemma SparesSame(s: State, t: State, u: State, V: set<Ref>, K: set<Ref>)
    requires SparesAll(s, t, V, K) && u.heap == t.heap
    ensures SparesAll(s, u, V, K)
  {
    hide SparesObject;
  }

  lemma SweepStepIs(s: State, max: nat)
    requires InSweepLists(s) && s.sweepgc != NoCursor
    ensures var t, u := SweepList(s, s.sweepgc, max).0, SingleStep(s, max, false);
            u == t.(phase := u.phase, sweepgc := u.sweepgc)
  {
    hide SweepList;
  }

  lemma SweepSpares(s: State, max: nat, M: set<Ref>, V: set<Ref>, K: set<Ref>)
    requires Good(s, M) && InSweepLists(s)
    ensures SparesAll(s, SingleStep(s, max, false), V, K)
  {
    if s.sweepgc == NoCursor {
      assert SingleStep(s, max, false).heap == s.heap;
      hide *;
      SameSpares(s, SingleStep(s, max, false), V, K);
    } else {
      SweepParts(s, M);
      var l := SweptList(s, M);
      SweptInList(s, l);
      var t := SweepList(s, s.sweepgc, max).0;
      hide *;
      SweepStepIs(s, max);
      var done := SweepListKeeps(s, s.sweepgc, l, max);
      StretchPlain(s, s.sweepgc, done, t, SweepList(s, s.sweepgc, max).1, l);
      SweptSpares(s, t, V, K);
      SparesSame(s, t, SingleStep(s, max, false), V, K);
    }
  }

  /** No other step takes anything out of a table, or changes anything else but by calling a finalizer. */
  lemma StepSpares(s: State, max: nat, emergency: bool, M: set<Ref>, V: set<Ref>, K: set<Ref>)
    requires Good(s, M) && !s.phase.Atomic? && (s.phase.CallFin? ==> s.tobefnz == [] || emergency)
    ensures SparesAll(s, SingleStep(s, max, emergency), V, K)
  {
    StepIs(s, max, emergency);
    assert !s.phase.InsideAtomic?;
    hide Good, SingleStep, Restart, PropagateMark, CallFinalizer, SparesAll;
    var t := SingleStep(s, max, emergency);
    match s.phase
    case Propagate => PropagateSpares(s, M, V, K);
    case Pause => SameSpares(s, t, V, K);
    case SweepEnd => SameSpares(s, t, V, K);
    case CallFin => SameSpares(s, t, V, K);
    case _ => SweepSpares(s, max, M, V, K);
  }

  // ---------- The other events ----------

  lemma AbandonSpares(s: State, M: set<Ref>, V: set<Ref>, K: set<Ref>)
    requires Fine(s, M)
    ensures SparesAll(s, AbandonMarking(s), V, K) && SameRoots(s, AbandonMarking(s))
  {
    if KeepInvariant(s) {
      var N := M + s.heap.objs.Keys;
      assert AbandonMarking(s) == EnterSweep(s);
      WidenGood(s, M);
      assert Good(s, N);
      hide *;
      AbandonFlips(s, N);
      EnterSweepSweeps(s, N);
      EnteredSpares(s, V, K);
    } else {
      hide Good, ClosedUnderRefs;
      SameSpares(s, s, V, K);
    }
  }

  lemma EnteredSpares(s: State, V: set<Ref>, K: set<Ref>)
    requires Sweeps(s.(phase := SweepAllGc), EnterSweep(s).(sweepgc := s.sweepgc))
    ensures SparesAll(s, EnterSweep(s), V, K) && SameRoots(s, EnterSweep(s))
  {
    hide EnterSweep;
    var w, t := s.(phase := SweepAllGc), EnterSweep(s).(sweepgc := s.sweepgc);
    SweptSpares(w, t, V, K);
    hide SparesObject;
  }

  /** The program's roots, and what the collector keeps for ever. */
  ghost predicate SameRoots(s: State, t: State) {
    && t.mainthread == s.mainthread && t.running == s.running && t.registry == s.registry && t.basicmt == s.basicmt
    && t.fixedgc == s.fixedgc && t.nextref == s.nextref
  }

  lemma UnhookedSpares(s: State, o: Ref, M: set<Ref>, V: set<Ref>, K: set<Ref>)
    requires Good(s, M) && Live(s, o) && o in s.allgc
    ensures SparesAll(s, Unhooked(s, o), V, K) && SameRoots(s, Unhooked(s, o))
  {
    var w := MakeWhite(s, o);
    var sweeps := IsSweepPhase(s) && w.sweepgc == LuaObjects.After(o);
    assert !sweeps ==> Unhooked(s, o).heap == s.heap && SameRoots(s, Unhooked(s, o)) by { hide SweepToLive, Good; }
    assert IsSweepPhase(s) ==> !KeepInvariant(s);
    hide Good, SweepToLive, SparesAll;
    if sweeps {
      SweepParts(s, M);
      ListedOnce(s);
      hide Frame, Surrounds, Listed, NoDup, LiveClosed, DeadAreOrdinary, CursorInPlace, RestIsWhite, DeadInTodo, OutsideDead,
        Live;
      WhitenGood(s, o, M);
      ToLiveSweeps(w, M);
      HookedSpares(s, o, w, V, K);
    } else {
      SameSpares(s, Unhooked(s, o), V, K);
    }
  }

  lemma ToLiveSweeps(s: State, M: set<Ref>)
    requires Good(s, M) && !KeepInvariant(s) && s.sweepgc != NoCursor
    ensures Sweeps(s, SweepToLive(s, s.sweepgc).0)
  {
    SweepParts(s, M);
    AfterPhase(s, M);
    var l := SweptList(s, M);
    SweptInList(s, l);
    hide *;
    var done := SweepToLiveKeeps(s, s.sweepgc, l);
    StretchPlain(s, s.sweepgc, done, SweepToLive(s, s.sweepgc).0, SweepToLive(s, s.sweepgc).1, l);
  }

  lemma HookedSpares(s: State, o: Ref, w: State, V: set<Ref>, K: set<Ref>)
    requires w == MakeWhite(s, o) && IsSweepPhase(s) && w.sweepgc == LuaObjects.After(o)
    requires Sweeps(w, SweepToLive(w, w.sweepgc).0)
    ensures SparesAll(s, Unhooked(s, o), V, K) && SameRoots(s, Unhooked(s, o))
  {
    hide SweepToLive;
    SweptSpares(w, SweepToLive(w, w.sweepgc).0, V, K);
    hide SparesObject;
  }

  lemma GiveIs(s: State, o: Ref)
    ensures CheckFinalizer(s, o) == if o in s.finalizable then s else ToFinObj(Unhooked(s, o), o)
  {
    hide SweepToLive, Without;
  }

  lemma GiveReaches(s: State, o: Ref)
    requires Allowed(s, GiveFinalizer(o))
    ensures Accessible(s, o) && o in s.heap.objs && (s.heap.objs[o].Table? || s.heap.objs[o].Userdata?)
  {
    hide Accessible;
  }

  lemma FineParts(s: State, M: set<Ref>)
    requires Fine(s, M)
    ensures Good(s, M) && ClosedUnderRefs(s.heap, M)
  {
    hide Good, ClosedUnderRefs;
  }

  /** luaC_checkfinalizer leaves everything as it was but the lists, and the objects a sweep frees on the way. */
  lemma GiveSpares(s: State, o: Ref, M: set<Ref>, V: set<Ref>, K: set<Ref>)
    requires Fine(s, M) && Allowed(s, GiveFinalizer(o))
    ensures SparesAll(s, CheckFinalizer(s, o), V, K) && SameRoots(s, CheckFinalizer(s, o))
  {
    hide *;
    GiveIs(s, o);
    GiveReaches(s, o);
    FineParts(s, M);
    AccessibleHeld(s, M, o);
    FrameOf(s, M);
    WhereListed(s, o);
    if o in s.finalizable {
      SameSpares(s, s, V, K);
      RootsSelf(s);
    } else {
      UnhookedSpares(s, o, M, V, K);
      ToFinObjSame(Unhooked(s, o), o);
      ToFinObjRest(s, Unhooked(s, o), o);
      SparesSame(s, Unhooked(s, o), ToFinObj(Unhooked(s, o), o), V, K);
    }
  }

  lemma RootsSelf(s: State)
    ensures SameRoots(s, s)
  {
  }

  lemma ToFinObjRest(s: State, t: State, o: Ref)
    requires SameRoots(s, t)
    ensures SameRoots(s, ToFinObj(t, o))
  {
    hide Without;
  }

  // ---------- The roots ----------

  lemma TraversesSame(s: State, t: State)
    requires Traverses(s, t)
    ensures SameRoots(s, t)
  {
  }

  lemma PropagateRoots(s: State, M: set<Ref>)
    requires Good(s, M) && s.phase.Propagate?
    ensures SameRoots(s, SingleStep(s, 0, false))
  {
    MarkingParts(s, M);
    assert s.gray != [] && Ready(s, MARKING.(within := M));
    assert var t := PropagateMark(s); SingleStep(s, 0, false) == (if t.gray == [] then t.(phase := Atomic) else t) by {
      hide PropagateMark, Good;
    }
    hide Good, Inv, Frame, Surrounds, Marks, Traverses, PropagateMark, SingleStep;
    PropagateMarkKeeps(s, MARKING.(within := M));
    TraversesSame(s, PropagateMark(s));
  }

  lemma AtomicKeepsRoots(s: State, max: nat, emergency: bool, M: set<Ref>)
    requires Good(s, M) && s.phase.Atomic?
    ensures SameRoots(s, SingleStep(s, max, emergency))
  {
    var t := AtomicClear(AtomicMark(PropagateAll(s)));
    var w := AtomicStep(PropagateAll(s));
    AtomicClears(s, M);
    assert Flipped(t) == w.(phase := SweepAllGc, sweepgc := Head(AllGc));
    assert w == t.(white := !t.white);
    hide *;
    FlipGood(t, M);
    EnterSweepSweeps(w, M);
    StepIs(s, max, emergency);
    RisesSame(s, t);
    EnteredSpares(w, {}, {});
    RootsThrough(s, t, w, EnterSweep(w));
  }

  lemma RisesSame(s: State, t: State)
    requires Rises(s, t)
    ensures SameRoots(s, t)
  {
    hide Thins;
  }

  lemma RootsThrough(s: State, t: State, w: State, u: State)
    requires SameRoots(s, t) && w == t.(white := !t.white) && SameRoots(w, u)
    ensures SameRoots(s, u)
  {
  }

  lemma SweepRoots(s: State, max: nat, M: set<Ref>)
    requires Good(s, M) && InSweepLists(s)
    ensures SameRoots(s, SingleStep(s, max, false))
  {
    if s.sweepgc == NoCursor {
      hide Good;
    } else {
      SweepParts(s, M);
      var l := SweptList(s, M);
      SweptInList(s, l);
      var t := SweepList(s, s.sweepgc, max).0;
      hide *;
      SweepStepIs(s, max);
      var done := SweepListKeeps(s, s.sweepgc, l, max);
      StretchPlain(s, s.sweepgc, done, t, SweepList(s, s.sweepgc, max).1, l);
      SweptSame(s, t, SingleStep(s, max, false));
    }
  }

  lemma SweptSame(s: State, t: State, u: State)
    requires Sweeps(s, t) && u == t.(phase := u.phase, sweepgc := u.sweepgc)
    ensures SameRoots(s, u)
  {
  }

  lemma RestartRoots(s: State)
    ensures SameRoots(s, Restart(s))
  {
  }

  /** No step of the collector, a finalizer call included, changes what the program starts from. */
  lemma StepRoots(s: State, max: nat, emergency: bool, M: set<Ref>)
    requires Fine(s, M)
    ensures SameRoots(s, SingleStep(s, max, emergency))
  {
    StepIs(s, max, emergency);
    assert !s.phase.InsideAtomic? && Good(s, M);
    hide Fine, Good, SingleStep, Restart, PropagateMark, AtomicStep, PropagateAll, EnterSweep, CallFinalizer;
    match s.phase
    case Pause => RestartRoots(s);
    case Propagate => PropagateRoots(s, M);
    case Atomic => AtomicKeepsRoots(s, max, emergency, M);
    case SweepEnd =>
    case CallFin => if s.tobefnz != [] && !emergency { CallDoes(s, M); }
    case _ => SweepRoots(s, max, M);
  }
}
