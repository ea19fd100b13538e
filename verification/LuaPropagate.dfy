/** What propagatemark keeps, and emptying the gray list (lgc.c:451-605). */
module LuaPropagate {
  import opened LuaObjects
  import opened LuaMark
  import opened LuaTraverse

  /** The heaps differ at most in the keys of empty entries. */
  ghost predicate SameShape(h: Heap, k: Heap) {
    && h.cells == k.cells && h.objs.Keys == k.objs.Keys
    && forall o :: o in h.objs && o in k.objs ==>
         || k.objs[o] == h.objs[o]
         || (h.objs[o].Table? && k.objs[o].Table? && k.objs[o] == h.objs[o].(hash := k.objs[o].hash)
             && SameEntries(h.objs[o].hash, k.objs[o].hash))
  }

  /** No mark is taken back. */
  ghost predicate MarksRise(a: map<Ref, Color>, b: map<Ref, Color>) {
    && a.Keys == b.Keys
    && (forall r :: Marked(a, r) ==> Marked(b, r))
    && (forall r :: r in a && b[r].White? ==> a[r] == b[r])
  }

  /** What traversals may do to the state. */
  ghost predicate Traverses(s: State, t: State) {
    && t == s.(heap := t.heap, color := t.color, gray := t.gray, grayagain := t.grayagain,
               weak := t.weak, allweak := t.allweak, ephemeron := t.ephemeron)
    && SameShape(s.heap, t.heap) && MarksRise(s.color, t.color)
    && IsSuffix(s.weak, t.weak) && IsSuffix(s.allweak, t.allweak)
    && FixedStay(s, t)
  }

  /** A gray string is one that is never to be collected, and stays gray. */
  ghost predicate FixedStay(s: State, t: State) {
    forall r :: IsString(s.heap, r) && IsColor(s.color, r, Gray) ==> IsColor(t.color, r, Gray)
  }

  predicate IsSuffix(q: seq<Ref>, p: seq<Ref>) {
    |q| <= |p| && p[|p| - |q|..] == q
  }

  lemma TraversesTransitive(s: State, t: State, u: State)
    requires Traverses(s, t) && Traverses(t, u)
    ensures Traverses(s, u)
  {
    forall o | o in s.heap.objs && o in u.heap.objs
      ensures || u.heap.objs[o] == s.heap.objs[o]
              || (s.heap.objs[o].Table? && u.heap.objs[o].Table?
                  && u.heap.objs[o] == s.heap.objs[o].(hash := u.heap.objs[o].hash)
                  && SameEntries(s.heap.objs[o].hash, u.heap.objs[o].hash))
    {
      assert o in t.heap.objs;
    }
  }

  lemma GrowTraverses(s: State, t: State)
    requires Grow(s, t)
    ensures Traverses(s, t)
  {
  }

  /** Tables of k hold no more than those of h. */
  ghost predicate Thins(h: Heap, k: Heap) {
    && h.cells == k.cells && h.objs.Keys == k.objs.Keys
    && forall o :: o in h.objs && o in k.objs ==>
         || k.objs[o] == h.objs[o]
         || (&& h.objs[o].Table? && k.objs[o].Table?
             && k.objs[o] == h.objs[o].(slots := k.objs[o].slots, hash := k.objs[o].hash)
             && (forall v: Value :: v in k.objs[o].slots && v.Obj? ==> v in h.objs[o].slots)
             && (forall n: Node :: n in k.objs[o].hash && !n.val.Nil? ==> n in h.objs[o].hash)
             && KeysFrom(h.objs[o].hash, k.objs[o].hash))
  }

  lemma SameShapeThins(h: Heap, k: Heap)
    requires SameShape(h, k)
    ensures Thins(h, k)
  {
  }

  lemma ThinRefers(h: Heap, k: Heap)
    requires Thins(h, k)
    ensures forall o, r :: Refers(k, o, r) ==> Refers(h, o, r)
    ensures forall r :: IsString(h, r) == IsString(k, r)
  {
    forall o, r | Refers(k, o, r) ensures Refers(h, o, r) {
      assert o in h.objs;
    }
  }

  lemma ThinFollows(h: Heap, k: Heap, M: set<Ref>)
    requires Thins(h, k)
    ensures forall o :: o in h.objs && Follows(h, o, M) ==> Follows(k, o, M)
  {
    ThinRefers(h, k);
    forall o | o in h.objs && Follows(h, o, M) ensures Follows(k, o, M) {
      assert o in k.objs;
    }
  }

  lemma ThinTables(h: Heap, k: Heap, color: map<Ref, Color>)
    requires Thins(h, k)
    ensures forall o :: GrayTable(h, color, o) ==> GrayTable(k, color, o)
    ensures forall o :: AllWeakTable(h, color, o) ==> AllWeakTable(k, color, o)
    ensures forall o :: WeakValueTable(h, color, o) ==> WeakValueTable(k, color, o)
    ensures forall o :: EphemeronTable(h, color, o) ==> EphemeronTable(k, color, o)
  {
    forall o | o in h.objs && h.objs[o].Table?
      ensures && k.objs[o].Table?
              && (SlotsSettled(color, h.objs[o].slots) ==> SlotsSettled(color, k.objs[o].slots))
              && (KeysSettled(color, h.objs[o].hash) ==> KeysSettled(color, k.objs[o].hash))
              && (ValsSettled(color, h.objs[o].hash) ==> ValsSettled(color, k.objs[o].hash))
    {
      assert o in k.objs;
    }
  }

  lemma ThinQueues(s: State, k: Heap, c: Context)
    requires Queues(s, c) && Thins(s.heap, k)
    ensures Queues(s.(heap := k), c)
  {
    assert forall r :: r in s.heap.objs && Traversable(s.heap.objs[r]) ==> r in k.objs && Traversable(k.objs[r]);
    hide Thins;
  }

  lemma ThinWaits(s: State, k: Heap, X: set<Ref>, c: Context)
    requires EveryGrayWaits(s, X, c) && Thins(s.heap, k)
    ensures EveryGrayWaits(s.(heap := k), X, c)
    ensures NoBlackToWhite(s.heap, s.color, X) ==> NoBlackToWhite(k, s.color, X)
  {
    ThinRefers(s.heap, k);
    assert forall o :: RefsMarked(s.heap, s.color, o) ==> RefsMarked(k, s.color, o);
    assert forall o :: o in k.objs ==> o in s.heap.objs && s.heap.objs[o].Thread? == k.objs[o].Thread?;
    hide Thins, RefsMarked, IsString, Refers;
    var t := s.(heap := k);
    assert forall o :: Waits(s, o, c) ==> Waits(t, o, c);
  }

  /** Removing entries, and killing the keys of empty ones, breaks no part of the invariant. */
  lemma ThinKeeps(s: State, k: Heap, X: set<Ref>, c: Context)
    requires Inv(s, X, c) && Thins(s.heap, k)
    ensures Inv(s.(heap := k), X, c)
  {
    ThinRefers(s.heap, k);
    ThinFollows(s.heap, k, c.within);
    ThinTables(s.heap, k, s.color);
    ThinQueues(s, k, c);
    ThinWaits(s, k, X, c);
    hide Follows, Refers, GrayTable, AllWeakTable, WeakValueTable, EphemeronTable, Queues, EveryGrayWaits, NoBlackToWhite;
  }

  lemma SetHashKeeps(s: State, o: Ref, ms: seq<Node>, X: set<Ref>, c: Context)
    requires Inv(s, X, c) && o in s.heap.objs && s.heap.objs[o].Table?
    requires SameEntries(s.heap.objs[o].hash, ms)
    ensures Inv(SetHash(s, o, ms), X, c) && Traverses(s, SetHash(s, o, ms))
    ensures var k := SetHash(s, o, ms).heap;
            RefsMarked(s.heap, s.color, o) ==> RefsMarked(k, s.color, o)
  {
    SameShapeThins(s.heap, SetHash(s, o, ms).heap);
    ThinKeeps(s, SetHash(s, o, ms).heap, X, c);
    ThinRefers(s.heap, SetHash(s, o, ms).heap);
  }

  // ---------- Taking an object off the gray list, and landing it ----------

  lemma PopQueues(s: State, c: Context)
    requires Queues(s, c) && s.gray != []
    ensures Queues(PopGray(s), c) && Unlisted(PopGray(s), s.gray[0], c)
    ensures IsColor(s.color, s.gray[0], Gray) && s.gray[0] in s.heap.objs && Traversable(s.heap.objs[s.gray[0]])
  {
    var o := s.gray[0];
    var t := PopGray(s);
    assert o in s.gray;
    assert forall r :: r in t.gray <==> r in s.gray && r != o;
  }

  lemma QueuesOwn(s: State, o: Ref, c: Context)
    requires Queues(s, c) && o in s.gray
    ensures o !in s.allweak && (c.final ==> o !in s.weak && o !in s.ephemeron)
  {
  }

  lemma PopWaits(s: State, c: Context)
    requires EveryGrayWaits(s, {}, c) && s.gray != []
    requires forall p :: RefsMarked(s.heap, s.color, p) ==> RefsMarked(s.heap, PopGray(s).color, p)
    ensures EveryGrayWaits(PopGray(s), {s.gray[0]}, c)
  {
    var t := PopGray(s);
    assert forall r :: r in t.gray <==> r in t.gray && r in s.gray;
    assert s.gray == [s.gray[0]] + t.gray;
    hide RefsMarked, IsString;
    forall p | p in t.heap.objs && p !in {s.gray[0]} && IsColor(t.color, p, Gray) ensures Waits(t, p, c) {
      assert Waits(s, p, c);
    }
  }

  lemma PopKeeps(s: State, c: Context)
    requires Inv(s, {}, c) && s.gray != []
    ensures var o := s.gray[0];
            && Inv(PopGray(s), {o}, c) && o in s.heap.objs && o in c.within && Traversable(s.heap.objs[o])
            && Unlisted(PopGray(s), o, c) && Traverses(s, PopGray(s))
  {
    var o := s.gray[0];
    var t := PopGray(s);
    var u := s.(color := t.color);
    PopQueues(s, c);
    assert o in s.gray && Marked(s.color, o);
    QueuesOwn(s, o, c);
    SameMarks(s, u, o, c);
    PopWaits(s, c);
    hide Queues, RefsMarked, EveryGrayWaits, Closed, HeapClosed;
    assert WeakLists(t, c);
    hide WeakLists, IsColor, Marked;
  }

  /** An object in flight that is black lands when all it refers to is marked. */
  lemma LandBlack(s: State, o: Ref, c: Context)
    requires Inv(s, {o}, c) && IsColor(s.color, o, Black)
    requires o in s.heap.objs && !s.heap.objs[o].Thread? && RefsMarked(s.heap, s.color, o)
    ensures Inv(s, {}, c)
  {
    hide RefsMarked, Follows, Refers, WeakLists, Waits;
  }

  /** An object in flight that is gray lands when it waits somewhere. */
  lemma LandGray(s: State, o: Ref, c: Context)
    requires Inv(s, {o}, c) && IsColor(s.color, o, Gray) && Waits(s, o, c)
    ensures Inv(s, {}, c)
  {
    hide RefsMarked, Follows, Refers, WeakLists, Waits;
  }

  lemma TableRefsMarked(h: Heap, color: map<Ref, Color>, o: Ref)
    requires o in h.objs && h.objs[o].Table?
    requires ValueSettled(color, h.objs[o].metatable) && SlotsSettled(color, h.objs[o].slots)
    requires KeysSettled(color, h.objs[o].hash) && ValsSettled(color, h.objs[o].hash)
    ensures RefsMarked(h, color, o)
  {
  }

  /** The values a table holds are allocated, and within what its mode allows to be marked. */
  lemma TableValues(s: State, o: Ref, X: set<Ref>, c: Context)
    requires Inv(s, X, c) && o in c.within && o in s.heap.objs && s.heap.objs[o].Table?
    ensures Follows(s.heap, o, c.within)
    ensures Allocated(s.heap, s.heap.objs[o].metatable)
    ensures forall v :: v in s.heap.objs[o].slots ==> Allocated(s.heap, v)
    ensures forall n :: n in s.heap.objs[o].hash && !n.val.Nil? ==> Allocated(s.heap, n.key) && Allocated(s.heap, n.val)
  {
    var h := s.heap;
    forall v | v in h.objs[o].slots ensures Allocated(h, v) {
      if v.Obj? { assert Refers(h, o, v.ref); }
    }
    forall n | n in h.objs[o].hash && !n.val.Nil? ensures Allocated(h, n.key) && Allocated(h, n.val) {
      if n.key.Obj? { assert Refers(h, o, n.key.ref); }
      if n.val.Obj? { assert Refers(h, o, n.val.ref); }
    }
    if h.objs[o].metatable.Obj? { assert Refers(h, o, h.objs[o].metatable.ref); }
  }

  lemma StrongTableKeeps(s: State, o: Ref, c: Context)
    requires Inv(s, {o}, c) && IsColor(s.color, o, Black) && o in c.within
    requires o in s.heap.objs && s.heap.objs[o].Table? && s.heap.objs[o].mode.Strong?
    requires ValueSettled(s.color, s.heap.objs[o].metatable)
    ensures Inv(TraverseStrongTable(s, o), {}, c) && Traverses(s, TraverseStrongTable(s, o))
  {
    TableValues(s, o, {o}, c);
    var p := s.heap.objs[o];
    var s1 := MarkValues(s, p.slots);
    MarkValuesKeeps(s, p.slots, {o}, c);
    GrowFrame(s, s1);
    StrongEntriesKeep(s1, p.hash, {o}, c);
    var r := StrongEntries(s1, p.hash);
    BlackUnlisted(s, o, c);
    FlightColor(s, s1, r.s, o, p, Black, c);
    TableRefsMarked(r.s.heap, r.s.color, o);
    hide Inv, Traverses, Whites, Work, RefsMarked, Grow;
    SetHashKeeps(r.s, o, r.hash, {o}, c);
    LandBlack(SetHash(r.s, o, r.hash), o, c);
    TraversesTransitive(s, r.s, SetHash(r.s, o, r.hash));
  }

  /** While table o is traversed its colour and its contents stay, and what was settled stays settled. */
  lemma FlightColor(s: State, t: State, u: State, o: Ref, p: Payload, paint: Color, c: Context)
    requires Unlisted(s, o, c)
    requires Grow(s, t) && Grow(t, u) && IsColor(s.color, o, paint) && !paint.White?
    requires o in s.heap.objs && s.heap.objs[o] == p && p.Table?
    requires ValueSettled(s.color, p.metatable)
    ensures IsColor(u.color, o, paint) && u.heap == s.heap && u.phase == s.phase
    ensures ValueSettled(u.color, p.metatable)
    ensures SlotsSettled(t.color, p.slots) ==> SlotsSettled(u.color, p.slots)
    ensures Grow(s, u) && Traverses(s, u) && Unlisted(u, o, c)
  {
  }

  /** Traversals outside the propagate phase happen only in the step that ends marking. */
  ghost predicate Ready(s: State, c: Context) {
    s.phase.Propagate? || c.final
  }

  lemma LinkQueues(s: State, t: State, o: Ref, c: Context)
    requires Queues(s, c) && IsColor(s.color, o, Gray) && Unlisted(s, o, c)
    requires o in s.heap.objs && Traversable(s.heap.objs[o])
    requires || t == s.(grayagain := [o] + s.grayagain)
             || t == s.(weak := [o] + s.weak)
             || t == s.(ephemeron := [o] + s.ephemeron)
             || t == s.(allweak := [o] + s.allweak)
    ensures Queues(t, c)
  {
  }

  ghost predicate Links(s: State, t: State, o: Ref, c: Context) {
    || (t == s.(grayagain := [o] + s.grayagain) && !s.phase.InsideAtomic?)
    || (t == s.(weak := [o] + s.weak) && c.final && WeakValueTable(s.heap, s.color, o))
    || (t == s.(ephemeron := [o] + s.ephemeron) && c.final && EphemeronTable(s.heap, s.color, o))
    || (t == s.(allweak := [o] + s.allweak) && AllWeakTable(s.heap, s.color, o))
    || (t == s && c.final && RefsMarked(s.heap, s.color, o))
  }

  lemma LinkWaits(s: State, t: State, o: Ref, c: Context)
    requires EveryGrayWaits(s, {o}, c) && Links(s, t, o, c)
    ensures EveryGrayWaits(t, {}, c)
  {
    hide RefsMarked, WeakValueTable, EphemeronTable, AllWeakTable, IsString;
    forall p | p in t.heap.objs && IsColor(t.color, p, Gray) ensures Waits(t, p, c) {
      if p != o {
        assert Waits(s, p, c);
      }
    }
  }

  lemma LinkWeakLists(s: State, t: State, o: Ref, c: Context)
    requires WeakLists(s, c) && Links(s, t, o, c)
    ensures WeakLists(t, c)
  {
    assert AllWeakTable(s.heap, s.color, o) ==> GrayTable(s.heap, s.color, o);
    hide GrayTable, AllWeakTable, WeakValueTable, EphemeronTable, RefsMarked;
  }

  lemma LinkTraverses(s: State, t: State, o: Ref, c: Context)
    requires Links(s, t, o, c)
    ensures Traverses(s, t)
  {
    hide RefsMarked, WeakValueTable, EphemeronTable, AllWeakTable, IsSuffix, SameShape, MarksRise, FixedStay;
    LinkSuffix(s.weak, o);
    LinkSuffix(s.allweak, o);
    NothingTraversed(s);
  }

  lemma LinkSuffix(q: seq<Ref>, o: Ref)
    ensures IsSuffix(q, q) && IsSuffix(q, [o] + q)
  {
    assert q[0..] == q && ([o] + q)[1..] == q;
  }

  lemma NothingTraversed(s: State)
    ensures SameShape(s.heap, s.heap) && MarksRise(s.color, s.color) && FixedStay(s, s)
    ensures forall t: State :: t.heap == s.heap && t.color == s.color ==> FixedStay(s, t)
  {
  }

  lemma GrayLands(h: Heap, color: map<Ref, Color>, o: Ref)
    requires NoBlackToWhite(h, color, {o}) && IsColor(color, o, Gray)
    ensures NoBlackToWhite(h, color, {})
  {
    hide RefsMarked;
  }

  /** Object o, gray and on no list, is put on the list it belongs to, or needs none. */
  lemma LinkKeeps(s: State, t: State, o: Ref, c: Context)
    requires Inv(s, {o}, c) && IsColor(s.color, o, Gray) && Unlisted(s, o, c)
    requires o in s.heap.objs && Traversable(s.heap.objs[o]) && Links(s, t, o, c)
    ensures Inv(t, {}, c) && Traverses(s, t)
  {
    LinkWaits(s, t, o, c);
    LinkWeakLists(s, t, o, c);
    LinkTraverses(s, t, o, c);
    GrayLands(s.heap, s.color, o);
    if t != s {
      LinkQueues(s, t, o, c);
    }
    hide RefsMarked, Queues, EveryGrayWaits, WeakLists, WeakValueTable, EphemeronTable, AllWeakTable, Traverses,
      NoBlackToWhite, HeapClosed, Closed, Within;
  }

  lemma WeakValueKeeps(s: State, o: Ref, c: Context)
    requires Inv(s, {o}, c) && IsColor(s.color, o, Gray) && o in c.within && Ready(s, c) && Unlisted(s, o, c)
    requires o in s.heap.objs && s.heap.objs[o].Table? && s.heap.objs[o].mode.WeakValue?
    requires ValueSettled(s.color, s.heap.objs[o].metatable)
    ensures Inv(TraverseWeakValue(s, o), {}, c) && Traverses(s, TraverseWeakValue(s, o))
  {
    hide Inv, Traverses, Whites, Work, Grow, Unlisted, Refers;
    TableValues(s, o, {o}, c);
    var p := s.heap.objs[o];
    WeakValueEntriesKeep(s, p.hash, |p.slots| > 0, {o}, c);
    var r := WeakValueEntries(s, p.hash, |p.slots| > 0);
    GrowReflexive(s);
    FlightColor(s, s, r.s, o, p, Gray, c);
    if !r.hasclears {
      TableRefsMarked(r.s.heap, r.s.color, o);
    }
    var k := SetHash(r.s, o, r.hash);
    var t := TraverseWeakValue(s, o);
    assert WeakValueTable(r.s.heap, r.s.color, o);
    hide RefsMarked, WeakValueTable, Follows;
    SetHashKeeps(r.s, o, r.hash, {o}, c);
    SetHashTable(r.s, o, r.hash);
    SetHashUnlisted(r.s, o, r.hash, c);
    LinkKeeps(k, t, o, c);
    TraversesTransitive(s, r.s, k);
    TraversesTransitive(s, k, t);
  }

  lemma SetHashUnlisted(s: State, o: Ref, ms: seq<Node>, c: Context)
    requires o in s.heap.objs && s.heap.objs[o].Table? && Unlisted(s, o, c)
    ensures Unlisted(SetHash(s, o, ms), o, c)
  {
  }

  lemma SetHashTable(s: State, o: Ref, ms: seq<Node>)
    requires o in s.heap.objs && s.heap.objs[o].Table? && SameEntries(s.heap.objs[o].hash, ms)
    ensures WeakValueTable(s.heap, s.color, o) ==> WeakValueTable(SetHash(s, o, ms).heap, s.color, o)
    ensures EphemeronTable(s.heap, s.color, o) ==> EphemeronTable(SetHash(s, o, ms).heap, s.color, o)
    ensures AllWeakTable(s.heap, s.color, o) ==> AllWeakTable(SetHash(s, o, ms).heap, s.color, o)
    ensures EntriesDone(s.heap, s.color, s.heap.objs[o].hash) ==> EntriesDone(SetHash(s, o, ms).heap, s.color, ms)
  {
    SameShapeThins(s.heap, SetHash(s, o, ms).heap);
    ThinTables(s.heap, SetHash(s, o, ms).heap, s.color);
  }

  /** The passes over an ephemeron table, before it is linked. */
  lemma EphemeronPass(s: State, o: Ref, c: Context)
    requires Inv(s, {o}, c) && IsColor(s.color, o, Gray) && o in c.within && Unlisted(s, o, c)
    requires o in s.heap.objs && s.heap.objs[o].Table? && s.heap.objs[o].mode.Ephemeron?
    requires ValueSettled(s.color, s.heap.objs[o].metatable)
    ensures var p := s.heap.objs[o];
            var (s1, markedslot) := EphemeronSlots(s, p.slots);
            var r := EphemeronEntries(s1, p.hash);
            && Inv(r.s, {o}, c) && Traverses(s, r.s) && Unlisted(r.s, o, c) && IsColor(r.s.color, o, Gray)
            && r.s.heap == s.heap && r.s.phase == s.phase && r.s.ephemeron == s.ephemeron
            && SameEntries(p.hash, r.hash) && (r.hasww ==> r.hasclears)
            && EphemeronTable(r.s.heap, r.s.color, o)
            && (!r.hasww ==> AllWeakTable(r.s.heap, r.s.color, o))
            && (!r.hasclears ==> RefsMarked(r.s.heap, r.s.color, o))
            && (!markedslot && !r.marked ==>
                  && OnlyStrings(s.heap, s.color, r.s.color) && r.s.gray == s.gray
                  && EntriesDone(r.s.heap, r.s.color, p.hash))
  {
    hide Inv, Traverses, Whites, Work, Unlisted, Refers;
    TableValues(s, o, {o}, c);
    var p := s.heap.objs[o];
    EphemeronSlotsKeep(s, p.slots, {o}, c);
    var (s1, markedslot) := EphemeronSlots(s, p.slots);
    GrowFrame(s, s1);
    EphemeronEntriesKeep(s1, p.hash, {o}, c);
    var r := EphemeronEntries(s1, p.hash);
    FlightColor(s, s1, r.s, o, p, Gray, c);
    WhiteWhiteClears(s1, p.hash);
    if !r.hasclears {
      TableRefsMarked(r.s.heap, r.s.color, o);
    }
  }

  lemma EphemeronKeeps(s: State, o: Ref, c: Context)
    requires Inv(s, {o}, c) && IsColor(s.color, o, Gray) && o in c.within && Ready(s, c) && Unlisted(s, o, c)
    requires o in s.heap.objs && s.heap.objs[o].Table? && s.heap.objs[o].mode.Ephemeron?
    requires ValueSettled(s.color, s.heap.objs[o].metatable)
    ensures var (t, marked) := TraverseEphemeron(s, o);
            && Inv(t, {}, c) && Traverses(s, t)
            && o in t.heap.objs && t.heap.objs[o].Table?
            && (!marked ==>
                  && OnlyStrings(s.heap, s.color, t.color) && t.gray == s.gray
                  && EntriesDone(t.heap, t.color, t.heap.objs[o].hash))
            && (forall r :: r in t.ephemeron ==> r == o || r in s.ephemeron)
  {
    hide Inv, Traverses, Whites, Work, Unlisted, Refers, RefsMarked, EphemeronTable, AllWeakTable, WeakValueTable,
      EntriesDone, OnlyStrings, SameShape, SameEntries, Grow, EphemeronSlots, EphemeronEntries;
    EphemeronPass(s, o, c);
    var p := s.heap.objs[o];
    var (s1, markedslot) := EphemeronSlots(s, p.slots);
    var r := EphemeronEntries(s1, p.hash);
    var k := SetHash(r.s, o, r.hash);
    var (t, marked) := TraverseEphemeron(s, o);
    SetHashKeeps(r.s, o, r.hash, {o}, c);
    SetHashTable(r.s, o, r.hash);
    SetHashUnlisted(r.s, o, r.hash, c);
    LinkKeeps(k, t, o, c);
    TraversesTransitive(s, r.s, k);
    TraversesTransitive(s, k, t);
  }

  lemma {:induction false} WhiteWhiteClears(s: State, ns: seq<Node>)
    ensures var r := EphemeronEntries(s, ns); r.hasww ==> r.hasclears
    decreases |ns|
  {
    if ns != [] {
      if ns[0].val.Nil? {
        WhiteWhiteClears(s, ns[1..]);
      } else {
        var (s1, clears) := IsCleared(s, ns[0].key);
        WhiteWhiteClears(if clears then s1 else MarkValue(s1, ns[0].val), ns[1..]);
      }
    }
  }

  lemma AllWeakKeeps(s: State, o: Ref, c: Context)
    requires Inv(s, {o}, c) && IsColor(s.color, o, Gray) && Unlisted(s, o, c)
    requires o in s.heap.objs && s.heap.objs[o].Table? && s.heap.objs[o].mode.AllWeak?
    requires ValueSettled(s.color, s.heap.objs[o].metatable)
    ensures Inv(ListAllWeak(s, o), {}, c) && Traverses(s, ListAllWeak(s, o))
  {
    LinkKeeps(s, ListAllWeak(s, o), o, c);
  }

  lemma BackToGrayKeeps(s: State, o: Ref, c: Context)
    requires Inv(s, {o}, c) && IsColor(s.color, o, Black) && o in s.heap.objs && Unlisted(s, o, c)
    ensures Inv(BackToGray(s, o), {o}, c) && Unlisted(BackToGray(s, o), o, c) && Traverses(s, BackToGray(s, o))
  {
    FlightRecolors(s, o, Gray, {o}, c);
  }

  lemma BlackUnlisted(s: State, o: Ref, c: Context)
    requires Inv(s, {o}, c) && IsColor(s.color, o, Black)
    ensures Unlisted(s, o, c)
  {
  }

  lemma GrowColor(s: State, t: State, o: Ref, paint: Color)
    requires Grow(s, t) && IsColor(s.color, o, paint) && !paint.White?
    ensures IsColor(t.color, o, paint)
  {
  }

  lemma TraverseTableKeeps(s: State, o: Ref, c: Context)
    requires Inv(s, {o}, c) && IsColor(s.color, o, Black) && o in c.within && Ready(s, c)
    requires o in s.heap.objs && s.heap.objs[o].Table?
    ensures Inv(TraverseTable(s, o), {}, c) && Traverses(s, TraverseTable(s, o))
  {
    hide Inv, Traverses, Whites, Work, Grow, Unlisted, Refers;
    TableValues(s, o, {o}, c);
    var p := s.heap.objs[o];
    var s1 := MarkValue(s, p.metatable);
    MarkValueKeeps(s, p.metatable, {o}, c);
    GrowFrame(s, s1);
    GrowTraverses(s, s1);
    GrowColor(s, s1, o, Black);
    BlackUnlisted(s1, o, c);
    var s2 := BackToGray(s1, o);
    assert ValueSettled(s2.color, p.metatable);
    BackToGrayKeeps(s1, o, c);
    TraversesTransitive(s, s1, s2);
    match p.mode
    case Strong =>
      StrongTableKeeps(s1, o, c);
      TraversesTransitive(s, s1, TraverseStrongTable(s1, o));
    case WeakValue =>
      WeakValueKeeps(s2, o, c);
      TraversesTransitive(s, s2, TraverseWeakValue(s2, o));
    case Ephemeron =>
      EphemeronKeeps(s2, o, c);
      TraversesTransitive(s, s2, TraverseEphemeron(s2, o).0);
    case AllWeak =>
      AllWeakKeeps(s2, o, c);
      TraversesTransitive(s, s2, ListAllWeak(s2, o));
  }

  lemma {:induction false} CellValuesAre(h: Heap, ups: seq<Cell>)
    ensures forall r :: InCells(h.cells, ups, r) <==> Obj(r) in CellValues(h, ups)
  {
    if ups != [] {
      CellValuesAre(h, ups[1..]);
      assert ups == [ups[0]] + ups[1..];
    }
  }

  lemma PlainValuesAre(s: State, o: Ref, X: set<Ref>, c: Context)
    requires Inv(s, X, c) && o in s.heap.objs && o in c.within
    requires !s.heap.objs[o].Table? && Traversable(s.heap.objs[o])
    ensures forall r :: Refers(s.heap, o, r) <==> Obj(r) in PlainValues(s.heap, o)
    ensures forall v :: v in PlainValues(s.heap, o) ==> ValueIn(v, c.within) && Allocated(s.heap, v)
  {
    if s.heap.objs[o].LClosure? {
      CellValuesAre(s.heap, s.heap.objs[o].upvals);
    }
    assert forall r :: Refers(s.heap, o, r) <==> Obj(r) in PlainValues(s.heap, o);
    assert Follows(s.heap, o, c.within);
    forall v | v in PlainValues(s.heap, o) ensures ValueIn(v, c.within) && Allocated(s.heap, v) {
      if v.Obj? { assert Refers(s.heap, o, v.ref); }
    }
  }

  lemma PlainKeeps(s: State, o: Ref, c: Context)
    requires Inv(s, {o}, c) && IsColor(s.color, o, Black) && o in c.within
    requires o in s.heap.objs && !s.heap.objs[o].Table? && !s.heap.objs[o].Thread? && Traversable(s.heap.objs[o])
    ensures var t := MarkValues(s, PlainValues(s.heap, o)); Inv(t, {}, c) && Traverses(s, t)
  {
    PlainValuesAre(s, o, {o}, c);
    MarkValuesKeeps(s, PlainValues(s.heap, o), {o}, c);
    var t := MarkValues(s, PlainValues(s.heap, o));
    GrowTraverses(s, t);
    assert RefsMarked(t.heap, t.color, o);
    assert IsColor(t.color, o, Black);
    LandBlack(t, o, c);
  }

  lemma ThreadKeeps(s: State, o: Ref, c: Context)
    requires Inv(s, {o}, c) && IsColor(s.color, o, Black) && o in c.within && Unlisted(s, o, c) && Ready(s, c)
    requires o in s.heap.objs && s.heap.objs[o].Thread?
    ensures var s2 := s.(grayagain := [o] + s.grayagain, color := s.color[o := Gray]);
            var t := MarkValues(s2, s.heap.objs[o].stack);
            Inv(t, {}, c) && Traverses(s, t)
  {
    FlightRecolors(s, o, Gray, {o}, c);
    var s1 := s.(color := s.color[o := Gray]);
    var s2 := s1.(grayagain := [o] + s.grayagain);
    hide Unlisted, RefsMarked, Refers;
    GrayAgainKeeps(s1, s2, o, c);
    hide Inv, Waits, Grow;
    PlainValuesAre(s2, o, {o}, c);
    MarkValuesKeeps(s2, s.heap.objs[o].stack, {o}, c);
    var t := MarkValues(s2, s.heap.objs[o].stack);
    ThreadLands(s2, t, o, c);
    LandGray(t, o, c);
    GrowTraverses(s2, t);
    TraversesTransitive(s, s2, t);
  }

  lemma ThreadLands(s: State, t: State, o: Ref, c: Context)
    requires Grow(s, t) && o in s.heap.objs && s.heap.objs[o].Thread? && o in s.grayagain && Ready(s, c)
    requires IsColor(s.color, o, Gray) && SlotsSettled(t.color, s.heap.objs[o].stack)
    ensures IsColor(t.color, o, Gray) && Waits(t, o, c)
  {
    assert RefsMarked(t.heap, t.color, o);
  }

  lemma GrayAgainKeeps(s: State, t: State, o: Ref, c: Context)
    requires Inv(s, {o}, c) && t == s.(grayagain := [o] + s.grayagain) && Unlisted(s, o, c)
    requires IsColor(s.color, o, Gray) && o in s.heap.objs && Traversable(s.heap.objs[o])
    ensures Inv(t, {o}, c)
  {
    hide RefsMarked, Follows, Refers, WeakLists;
    WeakListsGrayAgain(s, t, c);
    assert forall p :: Waits(s, p, c) ==> Waits(t, p, c);
  }

  lemma WeakListsGrayAgain(s: State, t: State, c: Context)
    requires WeakLists(s, c) && t == s.(grayagain := t.grayagain)
    ensures WeakLists(t, c)
  {
  }

  // ---------- propagatemark and propagateall ----------

  lemma PropagateIs(s: State)
    requires s.gray != [] && s.gray[0] in s.heap.objs && Marked(s.color, s.gray[0])
    ensures var o := s.gray[0];
            var s1 := PopGray(s);
            PropagateMark(s) ==
            match s.heap.objs[o]
            case Table(_, _, _, _) => TraverseTable(s1, o)
            case Thread(stack) => MarkValues(s1.(grayagain := [o] + s1.grayagain, color := s1.color[o := Gray]), stack)
            case _ => MarkValues(s1, PlainValues(s1.heap, o))
  {
    hide TraverseTable, MarkValues, Whites, Work, PlainValues;
  }

  /** A traversal step keeps the main invariant: it blackens no object before its references are marked. */
  lemma PropagateMarkKeeps(s: State, c: Context)
    requires Inv(s, {}, c) && s.gray != [] && Ready(s, c)
    ensures Inv(PropagateMark(s), {}, c) && Traverses(s, PropagateMark(s))
  {
    var o := s.gray[0];
    var s1 := PopGray(s);
    PopKeeps(s, c);
    PopColor(s, c);
    PropagateIs(s);
    hide Inv, Traverses, Work, Whites, PropagateMark, TraverseTable, MarkValues, PlainValues, Unlisted;
    if s.heap.objs[o].Table? {
      TraverseTableKeeps(s1, o, c);
    } else if s.heap.objs[o].Thread? {
      ThreadKeeps(s1, o, c);
    } else {
      PlainKeeps(s1, o, c);
    }
    TraversesTransitive(s, s1, PropagateMark(s));
  }

  lemma PopColor(s: State, c: Context)
    requires Inv(s, {}, c) && s.gray != []
    ensures var o := s.gray[0]; o in s.heap.objs && Marked(s.color, o) && IsColor(PopGray(s).color, o, Black)
  {
    PopQueues(s, c);
  }

  /** The gray list is emptied and nothing that was marked is lost: every gray object left waits on another list. */
  lemma {:induction false} PropagateAllKeeps(s: State, c: Context)
    requires Inv(s, {}, c) && Ready(s, c)
    ensures var t := PropagateAll(s);
            Inv(t, {}, c) && Traverses(s, t) && t.gray == []
    decreases Work(s)
  {
    hide Inv, Traverses, Whites;
    if s.gray != [] {
      PropagateMarkKeeps(s, c);
      TraversesFrame(s, PropagateMark(s));
      PropagateAllKeeps(PropagateMark(s), c);
      TraversesTransitive(s, PropagateMark(s), PropagateAll(s));
    } else {
      TraversesReflexive(s);
    }
  }

  lemma TraversesReflexive(s: State)
    ensures Traverses(s, s)
  {
  }

  lemma TraversesFrame(s: State, t: State)
    requires Traverses(s, t)
    ensures t.phase == s.phase && t.white == s.white && t.heap.objs.Keys == s.heap.objs.Keys
    ensures forall r :: Marked(s.color, r) ==> Marked(t.color, r)
  {
  }
}
