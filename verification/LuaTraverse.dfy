/** Traversing gray objects: the traverse functions and propagatemark (lgc.c:125-146, 361-605). */
module LuaTraverse {
  import opened LuaObjects
  import opened LuaMark

  /** removeentry: an empty entry whose key is white gets a dead key. */
  function RemoveEntry(s: State, n: Node): Node {
    if ValueIsWhite(s, n.key) then Node(DeadKey(n.key.ref), n.val) else n
  }

  /** iscleared: strings are values, so they are marked and never cleared. */
  function IsCleared(s: State, v: Value): (r: (State, bool))
    ensures Whites(r.0) <= Whites(s) && Work(r.0) <= Work(s)
    ensures r.0 == s.(color := r.0.color, gray := r.0.gray)
  {
    if !v.Obj? then (s, false)
    else if IsString(s.heap, v.ref) then (MarkValue(s, v), false)
    else (s, ValueIsWhite(s, v))
  }

  /** What a pass over the hash part of a table returns. */
  datatype Pass = Pass(s: State, hash: seq<Node>, marked: bool, hasclears: bool, hasww: bool)

  /** Entry by entry, the hash part of a strong table. */
  function StrongEntries(s: State, ns: seq<Node>): (r: Pass)
    ensures Whites(r.s) <= Whites(s) && Work(r.s) <= Work(s)
    ensures r.s == s.(color := r.s.color, gray := r.s.gray)
    decreases |ns|
  {
    if ns == [] then Pass(s, [], false, false, false)
    else
      var n := ns[0];
      if n.val.Nil? then
        var r := StrongEntries(s, ns[1..]);
        r.(hash := [RemoveEntry(s, n)] + r.hash)
      else
        var r := StrongEntries(MarkValue(MarkValue(s, n.key), n.val), ns[1..]);
        r.(hash := [n] + r.hash)
  }

  /** The hash part of a table with weak values. */
  function WeakValueEntries(s: State, ns: seq<Node>, hasclears: bool): (r: Pass)
    ensures Whites(r.s) <= Whites(s) && Work(r.s) <= Work(s)
    ensures r.s == s.(color := r.s.color, gray := r.s.gray)
    decreases |ns|
  {
    if ns == [] then Pass(s, [], false, hasclears, false)
    else
      var n := ns[0];
      if n.val.Nil? then
        var r := WeakValueEntries(s, ns[1..], hasclears);
        r.(hash := [RemoveEntry(s, n)] + r.hash)
      else
        var s1 := MarkValue(s, n.key);
        var (s2, clears) := if hasclears then (s1, true) else IsCleared(s1, n.val);
        var r := WeakValueEntries(s2, ns[1..], clears);
        r.(hash := [n] + r.hash)
  }

  /** The array part of an ephemeron table: whether something was marked is recorded. */
  function EphemeronSlots(s: State, vs: seq<Value>): (r: (State, bool))
    ensures Whites(r.0) <= Whites(s) && Work(r.0) <= Work(s)
    ensures r.0 == s.(color := r.0.color, gray := r.0.gray)
    ensures r.1 ==> Whites(r.0) < Whites(s)
    decreases |vs|
  {
    if vs == [] then (s, false)
    else
      var (t, marked) := EphemeronSlots(MarkValue(s, vs[0]), vs[1..]);
      (t, marked || ValueIsWhite(s, vs[0]))
  }

  /** The hash part of an ephemeron table. */
  function EphemeronEntries(s: State, ns: seq<Node>): (r: Pass)
    ensures Whites(r.s) <= Whites(s) && Work(r.s) <= Work(s)
    ensures r.s == s.(color := r.s.color, gray := r.s.gray)
    ensures r.marked ==> Whites(r.s) < Whites(s)
    decreases |ns|
  {
    if ns == [] then Pass(s, [], false, false, false)
    else
      var n := ns[0];
      if n.val.Nil? then
        var r := EphemeronEntries(s, ns[1..]);
        r.(hash := [RemoveEntry(s, n)] + r.hash)
      else
        var (s1, clears) := IsCleared(s, n.key);
        if clears then
          var r := EphemeronEntries(s1, ns[1..]);
          r.(hash := [n] + r.hash, hasclears := true, hasww := r.hasww || ValueIsWhite(s1, n.val))
        else
          var r := EphemeronEntries(MarkValue(s1, n.val), ns[1..]);
          r.(hash := [n] + r.hash, marked := r.marked || ValueIsWhite(s1, n.val))
  }

  function SetHash(s: State, o: Ref, ns: seq<Node>): State
    requires o in s.heap.objs && s.heap.objs[o].Table?
  {
    s.(heap := s.heap.(objs := s.heap.objs[o := s.heap.objs[o].(hash := ns)]))
  }

  function TraverseStrongTable(s: State, o: Ref): (t: State)
    requires o in s.heap.objs && s.heap.objs[o].Table?
    ensures s.phase.Propagate? ==> t.weak == s.weak && t.ephemeron == s.ephemeron
    ensures Whites(t) <= Whites(s) && Work(t) <= Work(s)
  {
    var r := StrongEntries(MarkValues(s, s.heap.objs[o].slots), s.heap.objs[o].hash);
    var t := SetHash(r.s, o, r.hash);
    assert Whites(t) == Whites(r.s);
    t
  }

  /** traverseweakvalue: its array part is only assumed to hold white values. */
  function TraverseWeakValue(s: State, o: Ref): (t: State)
    requires o in s.heap.objs && s.heap.objs[o].Table?
    ensures s.phase.Propagate? ==> t.weak == s.weak && t.ephemeron == s.ephemeron
    ensures Whites(t) <= Whites(s) && Work(t) <= Work(s)
  {
    var r := WeakValueEntries(s, s.heap.objs[o].hash, |s.heap.objs[o].slots| > 0);
    var t := SetHash(r.s, o, r.hash);
    assert Whites(t) == Whites(r.s);
    var linked :=
      if s.phase.Propagate? then t.(grayagain := [o] + t.grayagain)
      else if r.hasclears then t.(weak := [o] + t.weak)
      else t;
    assert Whites(linked) == Whites(t);
    linked
  }

  /** traverseephemeron; the flag tells whether a value was marked. */
  function TraverseEphemeron(s: State, o: Ref): (t: (State, bool))
    requires o in s.heap.objs && s.heap.objs[o].Table?
    ensures s.phase.Propagate? ==> t.0.weak == s.weak && t.0.ephemeron == s.ephemeron
    ensures Whites(t.0) <= Whites(s) && Work(t.0) <= Work(s)
    ensures t.1 ==> Whites(t.0) < Whites(s)
  {
    var (s1, markedslot) := EphemeronSlots(s, s.heap.objs[o].slots);
    var r := EphemeronEntries(s1, s.heap.objs[o].hash);
    var t := SetHash(r.s, o, r.hash);
    assert Whites(t) == Whites(r.s);
    var linked :=
      if s.phase.Propagate? then t.(grayagain := [o] + t.grayagain)
      else if r.hasww then t.(ephemeron := [o] + t.ephemeron)
      else if r.hasclears then t.(allweak := [o] + t.allweak)
      else t;
    assert Whites(linked) == Whites(t);
    (linked, markedslot || r.marked)
  }

  function BackToGray(s: State, o: Ref): (t: State)
    requires Marked(s.color, o)
    ensures t == s.(color := t.color)
    ensures Whites(t) == Whites(s) && Work(t) == Work(s)
  {
    var t := s.(color := s.color[o := Gray]);
    assert Whites(t) == Whites(s);
    t
  }

  function ListAllWeak(s: State, o: Ref): (t: State)
    ensures t == s.(allweak := t.allweak)
    ensures Whites(t) == Whites(s) && Work(t) == Work(s)
  {
    var t := s.(allweak := [o] + s.allweak);
    assert Whites(t) == Whites(s);
    t
  }

  function TraverseTable(s: State, o: Ref): (t: State)
    requires o in s.heap.objs && s.heap.objs[o].Table? && Marked(s.color, o)
    ensures s.phase.Propagate? ==> t.weak == s.weak && t.ephemeron == s.ephemeron
    ensures Whites(t) <= Whites(s) && Work(t) <= Work(s)
  {
    var s1 := MarkValue(s, s.heap.objs[o].metatable);
    match s.heap.objs[o].mode
    case Strong => TraverseStrongTable(s1, o)
    case WeakValue => TraverseWeakValue(BackToGray(s1, o), o)
    case Ephemeron => TraverseEphemeron(BackToGray(s1, o), o).0
    case AllWeak => ListAllWeak(BackToGray(s1, o), o)
  }

  function CellValues(h: Heap, ups: seq<Cell>): seq<Value> {
    if ups == [] then []
    else (if ups[0] in h.cells then [h.cells[ups[0]]] else []) + CellValues(h, ups[1..])
  }

  /** The values propagatemark marks for an object that is no table. */
  function PlainValues(h: Heap, o: Ref): seq<Value>
    requires o in h.objs
  {
    match h.objs[o]
    case LClosure(p, ups) => [p] + CellValues(h, ups)
    case CClosure(ups) => ups
    case Thread(stack) => stack
    case Proto(ks) => ks
    case _ => []
  }

  /** Takes the first object off the gray list and turns it black. */
  function PopGray(s: State): State
    requires s.gray != []
  {
    s.(gray := s.gray[1..], color := s.color[s.gray[0] := Black])
  }

  /** propagatemark. A thread goes back to gray, on the list that the atomic phase visits again. */
  function PropagateMark(s: State): (t: State)
    requires s.gray != []
    ensures Work(t) < Work(s) && Whites(t) <= Whites(s)
    ensures s.phase.Propagate? ==> t.weak == s.weak && t.ephemeron == s.ephemeron
  {
    var o := s.gray[0];
    if o !in s.heap.objs || !Marked(s.color, o) then
      var t := s.(gray := s.gray[1..]);
      assert Whites(t) == Whites(s);
      t
    else
      var s1 := PopGray(s);
      assert Whites(s1) == Whites(s);
      match s.heap.objs[o]
      case Table(_, _, _, _) => TraverseTable(s1, o)
      case Thread(stack) =>
        var s2 := s1.(grayagain := [o] + s1.grayagain, color := s1.color[o := Gray]);
        assert Whites(s2) == Whites(s1);
        MarkValues(s2, stack)
      case _ => MarkValues(s1, PlainValues(s1.heap, o))
  }

  /** propagateall */
  function PropagateAll(s: State): (t: State)
    ensures Work(t) <= Work(s) && Whites(t) <= Whites(s)
    decreases Work(s)
  {
    if s.gray == [] then s else PropagateAll(PropagateMark(s))
  }

  // ---------- What the passes over a table keep ----------

  /** The two hash parts have the same entries, but the keys of empty entries may have died. */
  ghost predicate SameEntries(ns: seq<Node>, ms: seq<Node>) {
    && (forall n: Node :: !n.val.Nil? ==> (n in ns <==> n in ms))
    && KeysFrom(ns, ms)
  }

  lemma SameEntriesCons(n: Node, m: Node, ns: seq<Node>, ms: seq<Node>)
    requires ns != [] && ns[0] == n && SameEntries(ns[1..], ms)
    requires m == n || (n.val.Nil? && m.val.Nil? && (m.key == n.key || m.key.DeadKey?))
    ensures SameEntries(ns, [m] + ms)
  {
    assert ns == [n] + ns[1..];
    forall k | k in [m] + ms && k.key.Obj? ensures HasKey(ns, k.key) {
      if k in ms {
        assert HasKey(ns[1..], k.key);
      } else {
        assert n in ns;
      }
    }
  }

  /** The key does not let its ephemeron entry be cleared: it is no object, a string, or marked. */
  predicate KeyStays(h: Heap, color: map<Ref, Color>, key: Value) {
    key.Obj? && !IsString(h, key.ref) ==> Marked(color, key.ref)
  }

  ghost predicate EntriesDone(h: Heap, color: map<Ref, Color>, ns: seq<Node>) {
    forall n :: n in ns && !n.val.Nil? && KeyStays(h, color, n.key) ==> ValueSettled(color, n.val)
  }

  ghost predicate OnlyStrings(h: Heap, a: map<Ref, Color>, b: map<Ref, Color>) {
    forall r :: r in a && r in b && !IsString(h, r) ==> a[r] == b[r]
  }

  lemma MarkStringOnly(s: State, v: Value)
    requires v.Obj? && IsString(s.heap, v.ref)
    ensures OnlyStrings(s.heap, s.color, MarkValue(s, v).color) && MarkValue(s, v).gray == s.gray
  {
  }

  lemma IsClearedKeeps(s: State, v: Value, X: set<Ref>, c: Context)
    requires Inv(s, X, c) && StringIn(s.heap, v, c.within) && Allocated(s.heap, v)
    requires forall x :: x in X ==> Marked(s.color, x)
    ensures var (t, clears) := IsCleared(s, v);
            && Inv(t, X, c) && Grow(s, t) && OnlyStrings(s.heap, s.color, t.color) && t.gray == s.gray
            && clears == !KeyStays(t.heap, t.color, v)
            && (!clears ==> ValueSettled(t.color, v))
  {
    assert s.color.Keys == s.heap.objs.Keys;
    if v.Obj? && IsString(s.heap, v.ref) {
      MarkValueKeeps(s, v, X, c);
      MarkStringOnly(s, v);
    }
  }

  lemma GrowReflexive(s: State)
    ensures Grow(s, s)
  {
  }

  lemma MarkSettled(s: State, v: Value)
    ensures !ValueIsWhite(s, v) ==> MarkValue(s, v) == s
  {
  }

  lemma OnlyStringsTransitive(s: State, t: State, u: State)
    requires Grow(s, t) && Grow(t, u) && OnlyStrings(s.heap, s.color, t.color) && OnlyStrings(t.heap, t.color, u.color)
    ensures OnlyStrings(s.heap, s.color, u.color)
  {
  }

  /** What became of one entry of an ephemeron table by the end of the pass. */
  lemma EntryKeeps(s1: State, s2: State, r: Pass, n: Node, clears: bool)
    requires Grow(s1, s2) && Grow(s2, r.s)
    requires s1.color.Keys == s1.heap.objs.Keys && Allocated(s1.heap, n.key) && Allocated(s1.heap, n.val)
    requires clears == !KeyStays(s1.heap, s1.color, n.key)
    requires if clears then s2 == s1 else ValueSettled(s1.color, n.key) && ValueSettled(s2.color, n.val)
    ensures !clears ==> ValueSettled(r.s.color, n.key) && ValueSettled(r.s.color, n.val)
    ensures clears && !ValueIsWhite(s1, n.val) ==> ValueSettled(r.s.color, n.val)
    ensures clears && OnlyStrings(s2.heap, s2.color, r.s.color) ==> !KeyStays(r.s.heap, r.s.color, n.key)
  {
  }

  lemma {:induction false} StrongEntriesKeep(s: State, ns: seq<Node>, X: set<Ref>, c: Context)
    requires Inv(s, X, c)
    requires forall x :: x in X ==> Marked(s.color, x)
    requires forall n :: n in ns && !n.val.Nil? ==>
               && ValueIn(n.key, c.within) && ValueIn(n.val, c.within)
               && Allocated(s.heap, n.key) && Allocated(s.heap, n.val)
    ensures var r := StrongEntries(s, ns);
            && Inv(r.s, X, c) && Grow(s, r.s) && SameEntries(ns, r.hash)
            && KeysSettled(r.s.color, ns) && ValsSettled(r.s.color, ns)
    decreases |ns|
  {
    if ns != [] {
      hide Inv, Grow, Whites, Work, MarkValue, SameEntries;
      var n := ns[0];
      assert ns == [n] + ns[1..];
      if n.val.Nil? {
        StrongEntriesKeep(s, ns[1..], X, c);
        SameEntriesCons(n, RemoveEntry(s, n), ns, StrongEntries(s, ns[1..]).hash);
      } else {
        MarkValueKeeps(s, n.key, X, c);
        var s1 := MarkValue(s, n.key);
        GrowFrame(s, s1);
        MarkValueKeeps(s1, n.val, X, c);
        var s2 := MarkValue(s1, n.val);
        GrowFrame(s1, s2);
        StrongEntriesKeep(s2, ns[1..], X, c);
        var r := StrongEntries(s2, ns[1..]);
        GrowTransitive(s, s1, s2);
        GrowTransitive(s, s2, r.s);
        GrowSettled(s1, r.s, n.key);
        GrowSettled(s2, r.s, n.val);
        SameEntriesCons(n, n, ns, r.hash);
      }
    }
  }

  /** What became of one entry of a table with weak values by the end of the pass. */
  lemma WeakEntryKeeps(s: State, s1: State, s2: State, t: State, n: Node)
    requires Grow(s, s1) && Grow(s1, s2) && Grow(s2, t)
    requires ValueSettled(s1.color, n.key)
    ensures Grow(s, t) && ValueSettled(t.color, n.key) && (ValueSettled(s2.color, n.val) ==> ValueSettled(t.color, n.val))
  {
    hide Grow;
    GrowTransitive(s, s1, s2);
    GrowTransitive(s, s2, t);
    GrowTransitive(s1, s2, t);
    GrowSettled(s1, t, n.key);
    if ValueSettled(s2.color, n.val) { GrowSettled(s2, t, n.val); }
  }

  lemma {:induction false} WeakValueEntriesKeep(s: State, ns: seq<Node>, hasclears: bool, X: set<Ref>, c: Context)
    requires Inv(s, X, c)
    requires forall x :: x in X ==> Marked(s.color, x)
    requires forall n :: n in ns && !n.val.Nil? ==>
               && ValueIn(n.key, c.within) && StringIn(s.heap, n.val, c.within)
               && Allocated(s.heap, n.key) && Allocated(s.heap, n.val)
    ensures var r := WeakValueEntries(s, ns, hasclears);
            && Inv(r.s, X, c) && Grow(s, r.s) && SameEntries(ns, r.hash)
            && KeysSettled(r.s.color, ns)
            && (!r.hasclears ==> !hasclears && ValsSettled(r.s.color, ns))
    decreases |ns|
  {
    if ns != [] {
      hide Inv, Grow, Whites, Work, MarkValue, SameEntries;
      var n := ns[0];
      assert ns == [n] + ns[1..];
      if n.val.Nil? {
        WeakValueEntriesKeep(s, ns[1..], hasclears, X, c);
        SameEntriesCons(n, RemoveEntry(s, n), ns, WeakValueEntries(s, ns[1..], hasclears).hash);
      } else {
        MarkValueKeeps(s, n.key, X, c);
        var s1 := MarkValue(s, n.key);
        GrowFrame(s, s1);
        IsClearedKeeps(s1, n.val, X, c);
        var (s2, clears) := if hasclears then (s1, true) else IsCleared(s1, n.val);
        GrowReflexive(s1);
        GrowFrame(s1, s2);
        WeakValueEntriesKeep(s2, ns[1..], clears, X, c);
        var r := WeakValueEntries(s2, ns[1..], clears);
        WeakEntryKeeps(s, s1, s2, r.s, n);
        SameEntriesCons(n, n, ns, r.hash);
      }
    }
  }

  lemma {:induction false} EphemeronSlotsKeep(s: State, vs: seq<Value>, X: set<Ref>, c: Context)
    requires Inv(s, X, c)
    requires forall x :: x in X ==> Marked(s.color, x)
    requires forall v :: v in vs ==> ValueIn(v, c.within) && Allocated(s.heap, v)
    ensures var (t, marked) := EphemeronSlots(s, vs);
            && Inv(t, X, c) && Grow(s, t) && SlotsSettled(t.color, vs)
            && (!marked ==> t == s)
    decreases |vs|
  {
    if vs != [] {
      hide Inv, Grow, Whites, Work, MarkValue, SameEntries;
      assert vs == [vs[0]] + vs[1..];
      MarkValueKeeps(s, vs[0], X, c);
      var s1 := MarkValue(s, vs[0]);
      MarkSettled(s, vs[0]);
      GrowFrame(s, s1);
      EphemeronSlotsKeep(s1, vs[1..], X, c);
      var t := EphemeronSlots(s1, vs[1..]).0;
      GrowTransitive(s, s1, t);
      GrowSettled(s1, t, vs[0]);
    }
  }

  lemma GrowThrough(s: State, s1: State, s2: State, t: State)
    requires Grow(s, s1) && Grow(s1, s2) && Grow(s2, t)
    ensures Grow(s, s2) && Grow(s, t) && Grow(s1, t)
  {
    hide Grow;
    GrowTransitive(s, s1, s2);
    GrowTransitive(s, s2, t);
    GrowTransitive(s1, s2, t);
  }

  lemma {:induction false} EphemeronEntriesKeep(s: State, ns: seq<Node>, X: set<Ref>, c: Context)
    requires Inv(s, X, c)
    requires forall x :: x in X ==> Marked(s.color, x)
    requires forall n :: n in ns && !n.val.Nil? ==>
               && StringIn(s.heap, n.key, c.within)
               && (Keeps(s.heap, n.key, c.within) ==> ValueIn(n.val, c.within))
               && Allocated(s.heap, n.key) && Allocated(s.heap, n.val)
    ensures var r := EphemeronEntries(s, ns);
            && Inv(r.s, X, c) && Grow(s, r.s) && SameEntries(ns, r.hash)
            && (!r.hasclears ==> KeysSettled(r.s.color, ns))
            && (!r.hasww ==> ValsSettled(r.s.color, ns))
            && (!r.marked ==>
                  && OnlyStrings(s.heap, s.color, r.s.color) && r.s.gray == s.gray
                  && EntriesDone(r.s.heap, r.s.color, ns))
    decreases |ns|
  {
    if ns != [] {
      hide Inv, Grow, Whites, Work, MarkValue, SameEntries;
      var n := ns[0];
      assert ns == [n] + ns[1..];
      if n.val.Nil? {
        EphemeronEntriesKeep(s, ns[1..], X, c);
        SameEntriesCons(n, RemoveEntry(s, n), ns, EphemeronEntries(s, ns[1..]).hash);
      } else {
        IsClearedKeeps(s, n.key, X, c);
        var (s1, clears) := IsCleared(s, n.key);
        GrowFrame(s, s1);
        if !clears {
          WithinKeeps(s1, n.key, X, c);
          MarkValueKeeps(s1, n.val, X, c);
          MarkSettled(s1, n.val);
        }
        var s2 := if clears then s1 else MarkValue(s1, n.val);
        GrowReflexive(s1);
        GrowFrame(s1, s2);
        EphemeronEntriesKeep(s2, ns[1..], X, c);
        var r := EphemeronEntries(s2, ns[1..]);
        GrowThrough(s, s1, s2, r.s);
        HeapDomains(s1, X, c);
        EntryKeeps(s1, s2, r, n, clears);
        if !r.marked && s2 == s1 {
          OnlyStringsTransitive(s, s1, r.s);
        }
        SameEntriesCons(n, n, ns, r.hash);
      }
    }
  }

  lemma HeapDomains(s: State, X: set<Ref>, c: Context)
    requires Inv(s, X, c)
    ensures s.color.Keys == s.heap.objs.Keys
  {
  }

  lemma WithinKeeps(s: State, key: Value, X: set<Ref>, c: Context)
    requires Inv(s, X, c) && KeyStays(s.heap, s.color, key)
    ensures Keeps(s.heap, key, c.within)
  {
  }
}
