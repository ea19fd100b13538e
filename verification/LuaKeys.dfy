/** Keys of empty entries. A store to an existing key passes only the value to the barrier (lapi.c:815-826), also when
    the entry is empty; it is sound because a traversal leaves no white key in a black table (lgc.c:125-129). */
module LuaKeys {
  import opened LuaObjects
  import opened LuaMark
  import opened LuaTraverse
  import opened LuaPropagate

  predicate NotWhite(color: map<Ref, Color>, v: Value) {
    v.Obj? && v.ref in color ==> !color[v.ref].White?
  }

  ghost predicate KeysNotWhite(color: map<Ref, Color>, ns: seq<Node>) {
    forall n: Node :: n in ns ==> NotWhite(color, n.key)
  }

  predicate IsBlackTable(h: Heap, color: map<Ref, Color>, o: Ref) {
    o in h.objs && h.objs[o].Table? && IsColor(color, o, Black)
  }

  /** No entry of a black table, empty or not, has a white key. */
  ghost predicate KeysKnown(h: Heap, color: map<Ref, Color>) {
    forall o :: IsBlackTable(h, color, o) ==> KeysNotWhite(color, h.objs[o].hash)
  }

  ghost predicate NoNewBlackTable(s: State, t: State) {
    && t.heap == s.heap
    && (forall o :: IsBlackTable(s.heap, t.color, o) ==> IsColor(s.color, o, Black))
    && (forall r :: r in s.color && r in t.color && !s.color[r].White? ==> !t.color[r].White?)
    && t.color.Keys == s.color.Keys
  }

  lemma NoNewTransitive(s: State, t: State, u: State)
    requires NoNewBlackTable(s, t) && NoNewBlackTable(t, u)
    ensures NoNewBlackTable(s, u)
  {
  }

  lemma NoNewReflexive(s: State)
    ensures NoNewBlackTable(s, s)
  {
  }

  lemma {:induction false} ReallyMarkBlackens(s: State, o: Ref)
    requires IsWhite(s, o)
    ensures NoNewBlackTable(s, ReallyMark(s, o))
    decreases Whites(s), 0
  {
    if s.heap.objs[o].Userdata? {
      hide Whites, MarkValue;
      var s1 := s.(color := s.color[o := Gray]);
      WhitesShrink(s, s1, o);
      MarkBlackens(s1, s.heap.objs[o].meta);
      var s2 := MarkValue(s1, s.heap.objs[o].meta);
      var s3 := s2.(color := s2.color[o := Black]);
      assert Whites(s3) <= Whites(s2) by { BlackenedWhites(s2, o); }
      MarkBlackens(s3, s.heap.objs[o].uservalue);
      NoNewTransitive(s, s1, s2);
      NoNewTransitive(s, s2, s3);
      NoNewTransitive(s, s3, MarkValue(s3, s.heap.objs[o].uservalue));
    }
  }

  lemma BlackenedWhites(s: State, o: Ref)
    requires o in s.color
    ensures Whites(s.(color := s.color[o := Black])) <= Whites(s)
  {
  }

  lemma {:induction false} MarkBlackens(s: State, v: Value)
    ensures NoNewBlackTable(s, MarkValue(s, v))
    decreases Whites(s), 1
  {
    if ValueIsWhite(s, v) {
      ReallyMarkBlackens(s, v.ref);
    }
  }

  lemma {:induction false} MarkValuesBlacken(s: State, vs: seq<Value>)
    ensures NoNewBlackTable(s, MarkValues(s, vs))
    decreases |vs|
  {
    hide NoNewBlackTable;
    if vs == [] {
      NoNewReflexive(s);
    } else {
      MarkBlackens(s, vs[0]);
      MarkValuesBlacken(MarkValue(s, vs[0]), vs[1..]);
      NoNewTransitive(s, MarkValue(s, vs[0]), MarkValues(s, vs));
    }
  }

  lemma ClearedBlackens(s: State, v: Value)
    ensures NoNewBlackTable(s, IsCleared(s, v).0)
  {
    hide NoNewBlackTable;
    NoNewReflexive(s);
    MarkBlackens(s, v);
  }

  lemma SettledNotWhite(s: State, t: State, v: Value)
    requires NoNewBlackTable(s, t) && NotWhite(s.color, v)
    ensures NotWhite(t.color, v)
  {
  }

  lemma MarkedNotWhite(s: State, v: Value)
    requires s.color.Keys == s.heap.objs.Keys
    ensures NotWhite(MarkValue(s, v).color, v)
  {
    if ValueIsWhite(s, v) { MarkedAtAll(s, v.ref); }
  }

  lemma MarkedAtAll(s: State, o: Ref)
    requires IsWhite(s, o)
    ensures Marked(ReallyMark(s, o).color, o)
  {
  }

  lemma RemovedNotWhite(s: State, n: Node)
    requires s.color.Keys == s.heap.objs.Keys
    ensures NotWhite(s.color, RemoveEntry(s, n).key)
  {
  }

  lemma SameDomains(s: State, t: State)
    requires NoNewBlackTable(s, t)
    ensures t.color.Keys == s.color.Keys && t.heap == s.heap
  {
  }

  /** A pass over a strong table leaves no white key, and kills those of empty entries to that end. */
  lemma {:induction false} StrongKeysKnown(s: State, ns: seq<Node>)
    requires s.color.Keys == s.heap.objs.Keys
    ensures var r := StrongEntries(s, ns); NoNewBlackTable(s, r.s) && KeysNotWhite(r.s.color, r.hash)
    decreases |ns|
  {
    hide NoNewBlackTable, Whites, Work, MarkValue, NotWhite, RemoveEntry;
    if ns == [] {
      NoNewReflexive(s);
    } else {
      var n := ns[0];
      if n.val.Nil? {
        StrongKeysKnown(s, ns[1..]);
        RemovedNotWhite(s, n);
        SettledNotWhite(s, StrongEntries(s, ns[1..]).s, RemoveEntry(s, n).key);
      } else {
        var s1 := MarkValue(s, n.key);
        MarkBlackens(s, n.key);
        MarkedNotWhite(s, n.key);
        SameDomains(s, s1);
        var s2 := MarkValue(s1, n.val);
        MarkBlackens(s1, n.val);
        SameDomains(s1, s2);
        StrongKeysKnown(s2, ns[1..]);
        var r := StrongEntries(s2, ns[1..]);
        NoNewTransitive(s, s1, s2);
        NoNewTransitive(s, s2, r.s);
        NoNewTransitive(s1, s2, r.s);
        SettledNotWhite(s1, r.s, n.key);
      }
    }
  }

  lemma {:induction false} WeakValuesBlacken(s: State, ns: seq<Node>, hasclears: bool)
    ensures NoNewBlackTable(s, WeakValueEntries(s, ns, hasclears).s)
    decreases |ns|
  {
    hide NoNewBlackTable, Whites, Work, MarkValue, IsCleared;
    if ns == [] {
      NoNewReflexive(s);
    } else if ns[0].val.Nil? {
      WeakValuesBlacken(s, ns[1..], hasclears);
    } else {
      var s1 := MarkValue(s, ns[0].key);
      MarkBlackens(s, ns[0].key);
      var (s2, clears) := if hasclears then (s1, true) else IsCleared(s1, ns[0].val);
      NoNewReflexive(s1);
      ClearedBlackens(s1, ns[0].val);
      WeakValuesBlacken(s2, ns[1..], clears);
      NoNewTransitive(s, s1, s2);
      NoNewTransitive(s, s2, WeakValueEntries(s2, ns[1..], clears).s);
    }
  }

  lemma {:induction false} EphemeronSlotsBlacken(s: State, vs: seq<Value>)
    ensures NoNewBlackTable(s, EphemeronSlots(s, vs).0)
    decreases |vs|
  {
    hide NoNewBlackTable, Whites, Work, MarkValue;
    if vs == [] {
      NoNewReflexive(s);
    } else {
      MarkBlackens(s, vs[0]);
      EphemeronSlotsBlacken(MarkValue(s, vs[0]), vs[1..]);
      NoNewTransitive(s, MarkValue(s, vs[0]), EphemeronSlots(s, vs).0);
    }
  }

  lemma {:induction false} EphemeronEntriesBlacken(s: State, ns: seq<Node>)
    ensures NoNewBlackTable(s, EphemeronEntries(s, ns).s)
    decreases |ns|
  {
    hide NoNewBlackTable, Whites, Work, MarkValue, IsCleared;
    if ns == [] {
      NoNewReflexive(s);
    } else if ns[0].val.Nil? {
      EphemeronEntriesBlacken(s, ns[1..]);
    } else {
      var (s1, clears) := IsCleared(s, ns[0].key);
      ClearedBlackens(s, ns[0].key);
      var s2 := if clears then s1 else MarkValue(s1, ns[0].val);
      NoNewReflexive(s1);
      MarkBlackens(s1, ns[0].val);
      EphemeronEntriesBlacken(s2, ns[1..]);
      NoNewTransitive(s, s1, s2);
      NoNewTransitive(s, s2, EphemeronEntries(s2, ns[1..]).s);
    }
  }

  /** The heap differs in object o at most, which is no black table, or has known keys. */
  ghost predicate KnownStep(s: State, t: State, o: Ref) {
    && t.heap.objs.Keys == s.heap.objs.Keys && t.color.Keys == s.color.Keys
    && (forall p :: p in s.heap.objs && p in t.heap.objs && p != o ==> t.heap.objs[p] == s.heap.objs[p])
    && (forall p :: p != o && IsBlackTable(s.heap, t.color, p) ==> IsColor(s.color, p, Black))
    && (forall r :: r in s.color && r in t.color && !s.color[r].White? ==> !t.color[r].White?)
    && (IsBlackTable(t.heap, t.color, o) ==> KeysNotWhite(t.color, t.heap.objs[o].hash))
  }

  lemma KnownStepKeeps(s: State, t: State, o: Ref)
    requires KnownStep(s, t, o) && KeysKnown(s.heap, s.color)
    ensures KeysKnown(t.heap, t.color)
  {
    forall p | IsBlackTable(t.heap, t.color, p) ensures KeysNotWhite(t.color, t.heap.objs[p].hash) {
      if p != o {
        assert IsBlackTable(s.heap, s.color, p);
        assert KeysNotWhite(s.color, s.heap.objs[p].hash);
      }
    }
  }

  lemma StrongStep(s: State, o: Ref)
    requires s.color.Keys == s.heap.objs.Keys && o in s.heap.objs && s.heap.objs[o].Table?
    ensures KnownStep(s, TraverseStrongTable(s, o), o)
  {
    var s1 := MarkValues(s, s.heap.objs[o].slots);
    MarkValuesBlacken(s, s.heap.objs[o].slots);
    StrongKeysKnown(s1, s.heap.objs[o].hash);
    var r := StrongEntries(s1, s.heap.objs[o].hash);
    NoNewTransitive(s, s1, r.s);
    hide StrongEntries, MarkValues, Whites, Work;
    assert TraverseStrongTable(s, o) == SetHash(r.s, o, r.hash);
  }

  lemma GrayStep(s: State, t: State, u: State, o: Ref, ns: seq<Node>)
    requires s.color.Keys == s.heap.objs.Keys && o in s.heap.objs && s.heap.objs[o].Table? && IsColor(s.color, o, Gray)
    requires NoNewBlackTable(s, t) && u.heap == SetHash(t, o, ns).heap && u.color == t.color
    ensures KnownStep(s, u, o)
  {
    assert !IsBlackTable(s.heap, t.color, o);
  }

  lemma WeakStep(s: State, o: Ref)
    requires s.color.Keys == s.heap.objs.Keys && o in s.heap.objs && s.heap.objs[o].Table? && IsColor(s.color, o, Gray)
    ensures KnownStep(s, TraverseWeakValue(s, o), o)
  {
    var p := s.heap.objs[o];
    WeakValuesBlacken(s, p.hash, |p.slots| > 0);
    hide WeakValueEntries, Whites, Work, KnownStep, NoNewBlackTable;
    var r := WeakValueEntries(s, p.hash, |p.slots| > 0);
    SameDomains(s, r.s);
    GrayStep(s, r.s, TraverseWeakValue(s, o), o, r.hash);
  }

  lemma EphemeronStep(s: State, o: Ref)
    requires s.color.Keys == s.heap.objs.Keys && o in s.heap.objs && s.heap.objs[o].Table? && IsColor(s.color, o, Gray)
    ensures KnownStep(s, TraverseEphemeron(s, o).0, o)
  {
    var p := s.heap.objs[o];
    var s1 := EphemeronSlots(s, p.slots).0;
    EphemeronSlotsBlacken(s, p.slots);
    EphemeronEntriesBlacken(s1, p.hash);
    hide EphemeronEntries, EphemeronSlots, Whites, Work, KnownStep, NoNewBlackTable;
    var r := EphemeronEntries(s1, p.hash);
    NoNewTransitive(s, s1, r.s);
    SameDomains(s, r.s);
    GrayStep(s, r.s, TraverseEphemeron(s, o).0, o, r.hash);
  }

  lemma TableStep(s: State, o: Ref)
    requires s.color.Keys == s.heap.objs.Keys && o in s.heap.objs && s.heap.objs[o].Table? && Marked(s.color, o)
    ensures KnownStep(s, TraverseTable(s, o), o)
  {
    var p := s.heap.objs[o];
    var s1 := MarkValue(s, p.metatable);
    MarkBlackens(s, p.metatable);
    SameDomains(s, s1);
    assert Marked(s1.color, o);
    var s2 := BackToGray(s1, o);
    hide MarkValue, Whites, Work, TraverseStrongTable, TraverseWeakValue, TraverseEphemeron;
    match p.mode
    case Strong =>
      StrongStep(s1, o);
      KnownAfter(s, s1, TraverseStrongTable(s1, o), o);
    case WeakValue =>
      WeakStep(s2, o);
      KnownAfter(s, s2, TraverseWeakValue(s2, o), o);
    case Ephemeron =>
      EphemeronStep(s2, o);
      KnownAfter(s, s2, TraverseEphemeron(s2, o).0, o);
    case AllWeak =>
  }

  lemma KnownAfter(s: State, t: State, u: State, o: Ref)
    requires t.heap == s.heap && t.color.Keys == s.color.Keys
    requires forall p :: p != o && IsBlackTable(s.heap, t.color, p) ==> IsColor(s.color, p, Black)
    requires forall r :: r in s.color && r in t.color && !s.color[r].White? ==> !t.color[r].White?
    requires KnownStep(t, u, o)
    ensures KnownStep(s, u, o)
  {
    hide KeysNotWhite;
    forall p | p != o && IsBlackTable(s.heap, u.color, p) ensures IsColor(s.color, p, Black) {
      assert p in t.heap.objs;
      assert IsBlackTable(t.heap, u.color, p);
      assert IsBlackTable(s.heap, t.color, p);
    }
  }

  /** A step of propagation leaves no white key in the table that it turns black. */
  lemma PropagateKeysKnown(s: State)
    requires s.gray != [] && s.gray[0] in s.heap.objs && Marked(s.color, s.gray[0]) && s.color.Keys == s.heap.objs.Keys
    requires KeysKnown(s.heap, s.color)
    ensures KeysKnown(PropagateMark(s).heap, PropagateMark(s).color)
  {
    var o := s.gray[0];
    var s1 := PopGray(s);
    PropagateIs(s);
    hide TraverseTable, MarkValues, PropagateMark, Whites, Work, PlainValues, KeysKnown;
    match s.heap.objs[o]
    case Table(_, _, _, _) =>
      TableStep(s1, o);
      KnownAfter(s, s1, TraverseTable(s1, o), o);
      KnownStepKeeps(s, TraverseTable(s1, o), o);
    case Thread(stack) =>
      var s2 := s1.(grayagain := [o] + s1.grayagain, color := s1.color[o := Gray]);
      MarkValuesBlacken(s2, stack);
      PlainStep(s, s2, MarkValues(s2, stack), o);
    case _ =>
      MarkValuesBlacken(s1, PlainValues(s1.heap, o));
      PlainStep(s, s1, MarkValues(s1, PlainValues(s1.heap, o)), o);
  }

  lemma PlainStep(s: State, t: State, u: State, o: Ref)
    requires o in s.heap.objs && !s.heap.objs[o].Table? && Marked(s.color, o) && t.heap == s.heap
    requires t.color == s.color[o := Gray] || t.color == s.color[o := Black]
    requires NoNewBlackTable(t, u) && KeysKnown(s.heap, s.color)
    ensures KeysKnown(u.heap, u.color)
  {
    hide KeysNotWhite;
    assert KnownStep(s, u, o);
    KnownStepKeeps(s, u, o);
  }

  lemma NoNewKeysKnown(s: State, t: State)
    requires NoNewBlackTable(s, t) && KeysKnown(s.heap, s.color)
    ensures KeysKnown(t.heap, t.color)
  {
    forall o | IsBlackTable(t.heap, t.color, o) ensures KeysNotWhite(t.color, t.heap.objs[o].hash) {
      assert KeysNotWhite(s.color, s.heap.objs[o].hash);
    }
  }
}
