/** atomic: from the last marks to the flip of the current white (lgc.c:880-895, 985-1029). */
module LuaAtomicStep {
  import opened LuaObjects
  import opened LuaMark
  import opened LuaTraverse
  import opened LuaPropagate
  import opened LuaAtomic
  import opened LuaClear

  /** The roots that the mutator writes without a barrier: the running thread, the registry, the basic metatables. */
  function RootValues(s: State): seq<Value> {
    [Obj(s.running), s.registry] + s.basicmt
  }

  function ObjValues(q: seq<Ref>): seq<Value> {
    seq(|q|, i requires 0 <= i < |q| => Obj(q[i]))
  }

  /** atomic up to the point where all strongly accessible objects are marked. The saved 'grayagain' list is
      traversed only after the roots have been propagated. */
  function AtomicMark(s: State): (t: State) {
    var s1 := PropagateAll(MarkValues(s.(phase := InsideAtomic), RootValues(s)));
    var s2 := PropagateAll(s1.(gray := s.grayagain));
    Converge(s2)
  }

  function Keep(s: State, q: seq<Ref>, white: bool): seq<Ref> {
    if q == [] then []
    else (if IsWhite(s, q[0]) == white then [q[0]] else []) + Keep(s, q[1..], white)
  }

  /** separatetobefnz(g, 0): unreachable objects with finalizers move to the end of 'tobefnz'. */
  function SeparateToBeFnz(s: State): State {
    s.(finobj := Keep(s, s.finobj, false), tobefnz := s.tobefnz + Keep(s, s.finobj, true))
  }

  /** markbeingfnz, propagateall and the second convergence. */
  function Resurrect(s: State): State {
    Converge(PropagateAll(MarkValues(s, ObjValues(s.tobefnz))))
  }

  /** The elements in front of the list that was there before. */
  function NewPart(q: seq<Ref>, before: seq<Ref>): seq<Ref> {
    if |before| <= |q| then q[..|q| - |before|] else q
  }

  function ClearBoth(s: State, q: seq<Ref>, p: seq<Ref>, onKeys: bool): State {
    Clear(Clear(s, q, onKeys), p, onKeys)
  }

  /** atomic after marking: clear values, resurrect what has a finalizer, clear what is dead. */
  function AtomicClear(s: State): State {
    var s1 := ClearBoth(s, s.weak, s.allweak, false);
    var s2 := Resurrect(SeparateToBeFnz(s1));
    var s3 := ClearBoth(s2, s2.ephemeron, s2.allweak, true);
    ClearBoth(s3, NewPart(s3.weak, s1.weak), NewPart(s3.allweak, s1.allweak), false)
  }

  /** atomic, which ends by flipping the current white. */
  function AtomicStep(s: State): State {
    var t := AtomicClear(AtomicMark(s));
    t.(white := !t.white)
  }

  // ---------- Marking inside the atomic phase ----------

  ghost predicate RootsAllocated(s: State, M: set<Ref>) {
    forall v :: v in RootValues(s) ==> ValueIn(v, M) && Allocated(s.heap, v)
  }

  /** The context of the step that ends marking, for a state before it. */
  ghost function FinalContext(s: State, M: set<Ref>): Context {
    Context(true, {}, (set r | r in s.allweak), M)
  }

  /** What a step of the atomic phase may do. */
  ghost predicate Rises(s: State, t: State) {
    && t == s.(heap := t.heap, color := t.color, gray := t.gray, grayagain := t.grayagain, weak := t.weak,
               allweak := t.allweak, ephemeron := t.ephemeron, finobj := t.finobj, tobefnz := t.tobefnz, phase := t.phase)
    && Thins(s.heap, t.heap) && MarksRise(s.color, t.color) && FixedStay(s, t)
  }

  lemma RisesTransitive(s: State, t: State, u: State)
    requires Rises(s, t) && Rises(t, u)
    ensures Rises(s, u)
  {
    ThinsTransitive(s.heap, t.heap, u.heap);
    ThinRefers(s.heap, t.heap);
    hide Thins;
  }

  lemma TraversesRises(s: State, t: State)
    requires Traverses(s, t)
    ensures Rises(s, t) && t.finobj == s.finobj && t.tobefnz == s.tobefnz && t.phase == s.phase
    ensures IsSuffix(s.weak, t.weak) && IsSuffix(s.allweak, t.allweak)
  {
    SameShapeThins(s.heap, t.heap);
  }

  lemma ClearsRises(s: State, t: State)
    requires Clears(s, t)
    ensures Rises(s, t) && t.finobj == s.finobj && t.tobefnz == s.tobefnz && t.phase == s.phase && t.gray == s.gray
    ensures t.weak == s.weak && t.allweak == s.allweak && t.ephemeron == s.ephemeron
    ensures OnlyStrings(s.heap, s.color, t.color)
  {
    hide Thins;
  }

  lemma EnterAtomicKeeps(s: State, c: Context)
    requires Inv(s, {}, c) && c.final && c == Pending(c, []) && s.phase.Atomic?
    ensures Inv(s.(phase := InsideAtomic), {}, Pending(c, s.grayagain))
  {
    var c1 := Pending(c, s.grayagain);
    var t := s.(phase := InsideAtomic);
    hide Follows, Refers;
    assert EveryGrayWaits(t, {}, c1) by {
      hide RefsMarked;
      forall p | p in t.heap.objs && IsColor(t.color, p, Gray) ensures Waits(t, p, c1) {
        assert Waits(s, p, c);
      }
    }
    hide EveryGrayWaits, NoBlackToWhite;
    assert WeakLists(t, c1);
    hide WeakLists;
  }

  lemma RevisitKeeps(s: State, q: seq<Ref>, c: Context)
    requires Inv(s, {}, Pending(c, q)) && s.gray == [] && s.phase.InsideAtomic? && NoDup(q) && c.final
    ensures Inv(s.(gray := q), {}, Pending(c, [])) && Traverses(s, s.(gray := q))
  {
    var t := s.(gray := q);
    hide Follows, Refers;
    assert EveryGrayWaits(t, {}, Pending(c, [])) by {
      hide RefsMarked;
      forall p | p in t.heap.objs && IsColor(t.color, p, Gray) ensures Waits(t, p, Pending(c, [])) {
        assert Waits(s, p, Pending(c, q));
      }
    }
    hide EveryGrayWaits, NoBlackToWhite;
    assert WeakLists(t, Pending(c, []));
    hide WeakLists;
    assert forall r :: r in q ==> r in Pending(c, q).pending;
  }

  lemma GrayAgainNoDup(s: State, c: Context)
    requires Inv(s, {}, c) && s.phase.Atomic?
    ensures NoDup(s.grayagain)
  {
  }

  lemma SettledStay(s: State, t: State, vs: seq<Value>)
    requires Traverses(s, t) && SlotsSettled(s.color, vs)
    ensures SlotsSettled(t.color, vs)
  {
  }

  lemma AtomicRoots(s: State, c: Context)
    requires Inv(s, {}, c) && c.final && c == Pending(c, []) && s.phase.Atomic? && RootsAllocated(s, c.within)
    ensures var s0 := s.(phase := InsideAtomic);
            var t := PropagateAll(MarkValues(s0, RootValues(s)));
            && Inv(t, {}, Pending(c, s.grayagain)) && t.gray == [] && Traverses(s0, t)
            && t.phase.InsideAtomic? && SlotsSettled(t.color, RootValues(s))
  {
    var c1 := Pending(c, s.grayagain);
    var s0 := s.(phase := InsideAtomic);
    EnterAtomicKeeps(s, c);
    hide Inv, Traverses, Work, Whites, Rises, RootValues, MarkValues, SlotsSettled, PropagateAll;
    MarkValuesKeeps(s0, RootValues(s), {}, c1);
    var s1 := MarkValues(s0, RootValues(s));
    GrowTraverses(s0, s1);
    GrowFrame(s0, s1);
    PropagateAllKeeps(s1, c1);
    TraversesTransitive(s0, s1, PropagateAll(s1));
    TraversesFrame(s0, PropagateAll(s1));
    SettledStay(s1, PropagateAll(s1), RootValues(s));
  }

  /** After AtomicMark the gray list is empty, the roots are marked and every ephemeron table has converged. */
  lemma AtomicMarkKeeps(s: State, c: Context)
    requires Inv(s, {}, c) && c.final && c == Pending(c, []) && s.phase.Atomic? && RootsAllocated(s, c.within)
    ensures var t := AtomicMark(s);
            && Inv(t, {}, c) && t.gray == [] && AllDone(t) && t.phase.InsideAtomic?
            && Traverses(s.(phase := InsideAtomic), t)
            && SlotsSettled(t.color, RootValues(s))
  {
    var s0 := s.(phase := InsideAtomic);
    GrayAgainNoDup(s, c);
    AtomicRoots(s, c);
    hide Inv, Traverses, AllDone, Work, Whites, NoDup, SlotsSettled, RootValues, PropagateAll, MarkValues, Converge;
    var s1 := PropagateAll(MarkValues(s0, RootValues(s)));
    var s2 := s1.(gray := s.grayagain);
    RevisitKeeps(s1, s.grayagain, c);
    PropagateAllKeeps(s2, c);
    var s3 := PropagateAll(s2);
    TraversesTransitive(s1, s2, s3);
    TraversesFrame(s1, s3);
    ConvergeKeeps(s3, c);
    TraversesTransitive(s1, s3, Converge(s3));
    TraversesTransitive(s0, s1, Converge(s3));
    TraversesFrame(s1, Converge(s3));
    SettledStay(s1, Converge(s3), RootValues(s));
  }

  // ---------- Clearing and resurrecting ----------

  lemma ListedTables(s: State, c: Context)
    requires Inv(s, {}, c) && c.final
    ensures forall o :: o in s.weak || o in s.allweak || o in s.ephemeron ==>
              o in c.within && o in s.heap.objs && s.heap.objs[o].Table?
  {
    hide Follows, Refers;
    forall o | o in s.weak || o in s.allweak || o in s.ephemeron
      ensures o in c.within && o in s.heap.objs && s.heap.objs[o].Table?
    {
      assert o in s.weak ==> WeakValueTable(s.heap, s.color, o);
      assert o in s.ephemeron ==> EphemeronTable(s.heap, s.color, o);
      assert Marked(s.color, o);
    }
  }

  ghost predicate AllClean(s: State, q: seq<Ref>, onKeys: bool) {
    forall o :: o in q ==> Clean(s, o, onKeys)
  }

  lemma AllCleanStays(s: State, t: State, q: seq<Ref>, onKeys: bool)
    requires AllClean(s, q, onKeys) && Rises(s, t)
    ensures AllClean(t, q, onKeys)
  {
    hide Clean, Thins;
    forall o | o in q ensures Clean(t, o, onKeys) {
      CleanStays(s, t, o, onKeys);
    }
  }

  /** clearkeys or clearvalues over one of the lists of weak tables. */
  lemma ClearListKeeps(s: State, q: seq<Ref>, onKeys: bool, c: Context)
    requires Inv(s, {}, c) && c.final
    requires forall o :: o in q ==> o in s.weak || o in s.allweak || o in s.ephemeron
    ensures var t := Clear(s, q, onKeys);
            && Inv(t, {}, c) && Rises(s, t) && AllClean(t, q, onKeys) && OnlyStrings(s.heap, s.color, t.color)
            && t.finobj == s.finobj && t.tobefnz == s.tobefnz && t.phase == s.phase && t.gray == s.gray
            && t.weak == s.weak && t.allweak == s.allweak && t.ephemeron == s.ephemeron
  {
    ListedTables(s, c);
    ClearKeeps(s, q, onKeys, c);
    hide Inv, Clears, Rises, Clean, OnlyStrings;
    ClearsRises(s, Clear(s, q, onKeys));
  }

  lemma {:induction false} KeepSubset(s: State, q: seq<Ref>, white: bool)
    ensures forall r :: r in Keep(s, q, white) <==> r in q && IsWhite(s, r) == white
    ensures multiset(Keep(s, q, true)) + multiset(Keep(s, q, false)) == multiset(q)
  {
    if q != [] {
      KeepSubset(s, q[1..], white);
      assert q == [q[0]] + q[1..];
    }
  }

  /** No object has been lost from the lists of finalizable objects. */
  ghost predicate SameFinalizers(s: State, t: State) {
    multiset(t.finobj) + multiset(t.tobefnz) == multiset(s.finobj) + multiset(s.tobefnz)
  }

  lemma SeparateMoves(s: State)
    ensures SameFinalizers(s, SeparateToBeFnz(s))
  {
    KeepSubset(s, s.finobj, true);
    assert multiset(SeparateToBeFnz(s).tobefnz) == multiset(s.tobefnz) + multiset(Keep(s, s.finobj, true));
  }

  lemma SeparateKeeps(s: State, c: Context)
    requires Inv(s, {}, c)
    ensures Inv(SeparateToBeFnz(s), {}, c) && Rises(s, SeparateToBeFnz(s))
    ensures forall r :: r in SeparateToBeFnz(s).tobefnz ==> r in s.tobefnz || r in s.finobj
    ensures forall r :: r in SeparateToBeFnz(s).finobj ==> r in s.finobj && !IsWhite(s, r)
  {
    KeepSubset(s, s.finobj, false);
    KeepSubset(s, s.finobj, true);
    hide Follows, Refers, RefsMarked;
    var t := SeparateToBeFnz(s);
    assert forall o :: Waits(s, o, c) ==> Waits(t, o, c);
    hide Waits;
    assert WeakLists(t, c);
  }

  lemma ResurrectKeeps(s: State, c: Context)
    requires Inv(s, {}, c) && c.final && s.phase.InsideAtomic? && c == Pending(c, [])
    requires forall r :: r in s.tobefnz ==> r in c.within && r in s.heap.objs
    ensures var t := Resurrect(s);
            && Inv(t, {}, c) && Traverses(s, t) && t.gray == [] && AllDone(t)
            && forall r :: r in s.tobefnz ==> Marked(t.color, r)
  {
    var vs := ObjValues(s.tobefnz);
    assert forall v :: v in vs ==> ValueIn(v, c.within) && Allocated(s.heap, v);
    assert forall r :: r in s.tobefnz ==> Obj(r) in vs by {
      forall r | r in s.tobefnz ensures Obj(r) in vs {
        var i :| 0 <= i < |s.tobefnz| && s.tobefnz[i] == r;
        assert vs[i] == Obj(r);
      }
    }
    hide Inv, Traverses, AllDone, Work, Whites, PropagateAll, MarkValues, Converge, ObjValues;
    MarkValuesKeeps(s, vs, {}, c);
    var s1 := MarkValues(s, vs);
    GrowTraverses(s, s1);
    GrowFrame(s, s1);
    PropagateAllKeeps(s1, c);
    var s2 := PropagateAll(s1);
    TraversesTransitive(s, s1, s2);
    TraversesFrame(s1, s2);
    ConvergeKeeps(s2, c);
    TraversesTransitive(s, s2, Converge(s2));
    TraversesFrame(s2, Converge(s2));
  }

  /** An ephemeron table that has converged refers to marked objects only, once its dead keys are gone. */
  lemma EphemeronSettles(s: State, t: State, o: Ref)
    requires Rises(s, t) && OnlyStrings(s.heap, s.color, t.color) && EphemeronTable(s.heap, s.color, o)
    requires EntriesDone(s.heap, s.color, s.heap.objs[o].hash) && Clean(t, o, true)
    requires s.color.Keys == s.heap.objs.Keys && forall r :: Refers(s.heap, o, r) ==> r in s.heap.objs
    ensures RefsMarked(t.heap, t.color, o)
  {
    assert o in t.heap.objs;
    ThinRefers(s.heap, t.heap);
    var p, q := s.heap.objs[o], t.heap.objs[o];
    forall n: Node | n in q.hash && !n.val.Nil? ensures ValueSettled(t.color, n.key) && ValueSettled(t.color, n.val) {
      assert n in p.hash;
      assert n.key.Obj? ==> Refers(s.heap, o, n.key.ref);
      assert KeyStays(s.heap, s.color, n.key);
    }
    assert forall v: Value :: v in q.slots && v.Obj? ==> v in p.slots;
  }

  lemma WeakSettles(s: State, o: Ref)
    requires GrayTable(s.heap, s.color, o) && Clean(s, o, true) && Clean(s, o, false)
    ensures RefsMarked(s.heap, s.color, o)
  {
    TableRefsMarked(s.heap, s.color, o);
  }

  /** Everything marked refers only to marked objects, weak references included. */
  ghost predicate MarksClosed(s: State) {
    forall o :: o in s.heap.objs && Marked(s.color, o) ==> RefsMarked(s.heap, s.color, o)
  }

  lemma MarksClose(s: State, c: Context)
    requires Inv(s, {}, c) && s.phase.InsideAtomic? && c.final && c.pending == {} && s.gray == []
    requires AllClean(s, s.weak, false) && AllClean(s, s.allweak, false) && AllClean(s, s.allweak, true)
    requires forall o :: o in s.ephemeron ==> RefsMarked(s.heap, s.color, o)
    ensures MarksClosed(s)
  {
    forall o | o in s.heap.objs && Marked(s.color, o) ensures RefsMarked(s.heap, s.color, o) {
      if IsColor(s.color, o, Gray) {
        assert Waits(s, o, c);
        if IsString(s.heap, o) {
        } else if o in s.allweak {
          WeakSettles(s, o);
        } else if o in s.weak {
          assert WeakValueTable(s.heap, s.color, o);
          WeakSettles(s, o);
        }
      }
    }
  }

  ghost predicate SameLists(s: State, t: State) {
    && t.finobj == s.finobj && t.tobefnz == s.tobefnz && t.phase == s.phase && t.gray == s.gray
    && t.weak == s.weak && t.allweak == s.allweak && t.ephemeron == s.ephemeron
  }

  lemma ClearBothKeeps(s: State, q: seq<Ref>, p: seq<Ref>, onKeys: bool, c: Context)
    requires Inv(s, {}, c) && c.final
    requires forall o :: o in q || o in p ==> o in s.weak || o in s.allweak || o in s.ephemeron
    ensures var t := ClearBoth(s, q, p, onKeys);
            && Inv(t, {}, c) && Rises(s, t) && AllClean(t, q, onKeys) && AllClean(t, p, onKeys)
            && OnlyStrings(s.heap, s.color, t.color) && SameLists(s, t)
  {
    hide Inv, Rises, AllClean, OnlyStrings, Clear;
    ClearListKeeps(s, q, onKeys, c);
    var s1 := Clear(s, q, onKeys);
    ClearListKeeps(s1, p, onKeys, c);
    var t := Clear(s1, p, onKeys);
    RisesTransitive(s, s1, t);
    AllCleanStays(s1, t, q, onKeys);
    StringsRise(s, s1, t);
  }

  lemma StringsRise(s: State, t: State, u: State)
    requires Rises(s, t) && Rises(t, u) && OnlyStrings(s.heap, s.color, t.color) && OnlyStrings(t.heap, t.color, u.color)
    ensures OnlyStrings(s.heap, s.color, u.color)
  {
    ThinRefers(s.heap, t.heap);
    hide Thins;
  }

  /** separatetobefnz, markbeingfnz and the second round of marking. */
  lemma SecondMarking(s: State, c: Context)
    requires Inv(s, {}, c) && c.final && s.phase.InsideAtomic? && c == Pending(c, [])
    requires forall r :: r in s.finobj || r in s.tobefnz ==> r in c.within && r in s.heap.objs
    ensures var t := Resurrect(SeparateToBeFnz(s));
            && Inv(t, {}, c) && Rises(s, t) && t.gray == [] && AllDone(t) && t.phase.InsideAtomic?
            && IsSuffix(s.weak, t.weak) && IsSuffix(s.allweak, t.allweak)
            && (forall r :: r in t.finobj || r in t.tobefnz ==> Marked(t.color, r)) && SameFinalizers(s, t)
  {
    hide Inv, AllDone, Resurrect;
    SeparateKeeps(s, c);
    SeparateMoves(s);
    var s1 := SeparateToBeFnz(s);
    var t := Resurrect(s1);
    assert s1.color.Keys == s1.heap.objs.Keys by { HeapDomains(s1, {}, c); }
    ResurrectKeeps(s1, c);
    TraversesRises(s1, t);
    TraversesFrame(s1, t);
    TraversesLists(s1, t);
    RisesTransitive(s, s1, t);
  }

  lemma TraversesLists(s: State, t: State)
    requires Traverses(s, t)
    ensures t.finobj == s.finobj && t.tobefnz == s.tobefnz
  {
  }

  lemma NewPartCovers(q: seq<Ref>, before: seq<Ref>)
    requires IsSuffix(before, q)
    ensures forall o :: o in q ==> o in NewPart(q, before) || o in before
    ensures forall o :: o in NewPart(q, before) ==> o in q
  {
    assert q == NewPart(q, before) + q[|q| - |before|..];
  }

  lemma EphemeronsSettle(s: State, t: State, c: Context)
    requires Inv(s, {}, c) && c.final && AllDone(s) && Rises(s, t) && OnlyStrings(s.heap, s.color, t.color)
    requires AllClean(t, s.ephemeron, true)
    ensures forall o :: o in s.ephemeron ==> RefsMarked(t.heap, t.color, o)
  {
    hide Thins, Follows;
    forall o | o in s.ephemeron ensures RefsMarked(t.heap, t.color, o) {
      assert EphemeronTable(s.heap, s.color, o);
      assert Clean(t, o, true);
      EphemeronSettles(s, t, o);
    }
  }

  lemma RefsMarkedRises(s: State, t: State, o: Ref)
    requires Rises(s, t) && RefsMarked(s.heap, s.color, o)
    ensures RefsMarked(t.heap, t.color, o)
  {
    ThinRefers(s.heap, t.heap);
    hide Thins;
  }

  lemma AllCleanParts(s: State, q: seq<Ref>, p: seq<Ref>, r: seq<Ref>, onKeys: bool)
    requires AllClean(s, q, onKeys) && AllClean(s, p, onKeys) && forall o :: o in r ==> o in q || o in p
    ensures AllClean(s, r, onKeys)
  {
  }

  /** At the end of the atomic phase nothing marked refers to anything unmarked, weakly or strongly. */
  lemma AtomicClearKeeps(s: State, c: Context)
    requires Inv(s, {}, c) && c.final && s.phase.InsideAtomic? && c == Pending(c, [])
    requires forall r :: r in s.finobj || r in s.tobefnz ==> r in c.within && r in s.heap.objs
    ensures var t := AtomicClear(s);
            && Inv(t, {}, c) && Rises(s, t) && MarksClosed(t)
            && (forall r :: r in t.finobj || r in t.tobefnz ==> Marked(t.color, r)) && SameFinalizers(s, t)
  {
    hide Inv, Rises, AllClean, AllDone, OnlyStrings, ClearBoth, Resurrect, RefsMarked, MarksClosed;
    var s1 := ClearBoth(s, s.weak, s.allweak, false);
    ClearBothKeeps(s, s.weak, s.allweak, false, c);
    RisesKeys(s, s1);
    SecondMarking(s1, c);
    var s2 := Resurrect(SeparateToBeFnz(s1));
    ClearBothKeeps(s2, s2.ephemeron, s2.allweak, true, c);
    var s3 := ClearBoth(s2, s2.ephemeron, s2.allweak, true);
    var qw, qa := NewPart(s3.weak, s1.weak), NewPart(s3.allweak, s1.allweak);
    NewPartCovers(s3.weak, s1.weak);
    NewPartCovers(s3.allweak, s1.allweak);
    hide IsSuffix, NewPart;
    ClearBothKeeps(s3, qw, qa, false, c);
    var t := ClearBoth(s3, qw, qa, false);
    RisesTransitive(s, s1, s2);
    RisesTransitive(s, s2, s3);
    RisesTransitive(s, s3, t);
    RisesTransitive(s1, s2, s3);
    RisesTransitive(s1, s3, t);
    RisesKeys(s2, s3);
    RisesKeys(s3, t);
    EphemeronsSettle(s2, s3, c);
    forall o | o in t.ephemeron ensures RefsMarked(t.heap, t.color, o) {
      RefsMarkedRises(s3, t, o);
    }
    AllCleanStays(s1, t, s1.weak, false);
    AllCleanStays(s1, t, s1.allweak, false);
    AllCleanStays(s3, t, s2.allweak, true);
    AllCleanParts(t, qw, s1.weak, t.weak, false);
    AllCleanParts(t, qa, s1.allweak, t.allweak, false);
    MarksClose(t, c);
  }

  lemma RisesKeys(s: State, t: State)
    requires Rises(s, t)
    ensures t.heap.objs.Keys == s.heap.objs.Keys && forall r :: Marked(s.color, r) ==> Marked(t.color, r)
  {
  }
}
