/** An object that the collector has marked and will not look at again in this cycle: what it holds makes no difference
    to the steps that follow. */
module LuaUnseen {
  import opened LuaObjects
  import opened LuaMark
  import opened LuaTraverse
  import opened LuaAtomic
  import opened LuaClear
  import opened LuaAtomicStep
  import opened LuaSweep
  import opened LuaEvents
  /** Other fields for an object: a metatable, and for a userdata a user value. */
  datatype Fields = Fields(obj: Ref, meta: Value, uservalue: Value)

  function Dressed(p: Payload, d: Fields): Payload {
    match p
    case Userdata(_, _) => Userdata(d.meta, d.uservalue)
    case Table(mode, _, slots, hash) => Table(mode, d.meta, slots, hash)
    case _ => p
  }

  /** The state, but the object has these fields. */
  function Dress(s: State, d: Fields): State {
    if d.obj in s.heap.objs then SetObject(s, d.obj, Dressed(s.heap.objs[d.obj], d)) else s
  }

  /** The object has been marked, and is on no list of objects to be traversed. */
  ghost predicate Unseen(s: State, x: Ref) {
    && x in s.heap.objs && Marked(s.color, x) && (s.heap.objs[x].Table? || s.heap.objs[x].Userdata?)
    && x !in s.gray && x !in s.grayagain && x !in s.weak && x !in s.ephemeron
  }

  lemma DressParts(s: State, d: Fields)
    requires d.obj in s.heap.objs
    ensures var t := Dress(s, d);
            && t == s.(heap := t.heap) && t.heap.cells == s.heap.cells && t.heap.objs.Keys == s.heap.objs.Keys
            && (forall o :: o in s.heap.objs && o != d.obj ==> t.heap.objs[o] == s.heap.objs[o])
            && t.heap.objs[d.obj] == Dressed(s.heap.objs[d.obj], d)
            && (forall r :: IsWhite(t, r) == IsWhite(s, r)) && (forall v :: ValueIsWhite(t, v) == ValueIsWhite(s, v))
            && (forall r :: IsString(t.heap, r) == IsString(s.heap, r))
  {
  }

  // ---------- Marking ----------

  lemma {:induction false} ReallyMarkUnseen(s: State, o: Ref, d: Fields)
    requires Unseen(s, d.obj) && IsWhite(s, o)
    ensures IsWhite(Dress(s, d), o) && ReallyMark(Dress(s, d), o) == Dress(ReallyMark(s, o), d)
    ensures Unseen(ReallyMark(s, o), d.obj)
    decreases Whites(s), 0
  {
    DressParts(s, d);
    match s.heap.objs[o]
    case Userdata(m, u) =>
      var s1 := s.(color := s.color[o := Gray]);
      WhitesShrink(s, s1, o);
      MarkValueUnseen(s1, m, d);
      var s2 := MarkValue(s1, m);
      var s3 := s2.(color := s2.color[o := Black]);
      assert Whites(s3) == Whites(s2);
      assert Unseen(s3, d.obj);
      MarkValueUnseen(s3, u, d);
      hide Whites, Unseen, Marked;
      assert Dress(s, d).(color := s.color[o := Gray]) == Dress(s1, d);
      assert Dress(s2, d).(color := s2.color[o := Black]) == Dress(s3, d);
    case _ =>
      assert Dress(s, d).heap.objs[o] == s.heap.objs[o];
  }

  lemma {:induction false} MarkValueUnseen(s: State, v: Value, d: Fields)
    requires Unseen(s, d.obj)
    ensures MarkValue(Dress(s, d), v) == Dress(MarkValue(s, v), d) && Unseen(MarkValue(s, v), d.obj)
    decreases Whites(s), 1
  {
    DressParts(s, d);
    if ValueIsWhite(s, v) { ReallyMarkUnseen(s, v.ref, d); }
  }

  lemma {:induction false} MarkValuesUnseen(s: State, vs: seq<Value>, d: Fields)
    requires Unseen(s, d.obj)
    ensures MarkValues(Dress(s, d), vs) == Dress(MarkValues(s, vs), d) && Unseen(MarkValues(s, vs), d.obj)
    decreases |vs|
  {
    if vs != [] {
      hide MarkValue, Unseen, Dress;
      MarkValueUnseen(s, vs[0], d);
      MarkValuesUnseen(MarkValue(s, vs[0]), vs[1..], d);
    }
  }

  lemma IsClearedUnseen(s: State, v: Value, d: Fields)
    requires Unseen(s, d.obj)
    ensures var (t, clears) := IsCleared(s, v);
            IsCleared(Dress(s, d), v) == (Dress(t, d), clears) && Unseen(t, d.obj)
  {
    DressParts(s, d);
    MarkValueUnseen(s, v, d);
  }

  lemma RemoveEntryUnseen(s: State, n: Node, d: Fields)
    requires Unseen(s, d.obj)
    ensures RemoveEntry(Dress(s, d), n) == RemoveEntry(s, n)
  {
    DressParts(s, d);
  }

  lemma {:induction false} StrongEntriesUnseen(s: State, ns: seq<Node>, d: Fields)
    requires Unseen(s, d.obj)
    ensures var r := StrongEntries(s, ns);
            StrongEntries(Dress(s, d), ns) == r.(s := Dress(r.s, d)) && Unseen(r.s, d.obj)
    decreases |ns|
  {
    if ns != [] {
      hide MarkValue, Unseen, Dress, RemoveEntry;
      var n := ns[0];
      if n.val.Nil? {
        RemoveEntryUnseen(s, n, d);
        StrongEntriesUnseen(s, ns[1..], d);
      } else {
        MarkValueUnseen(s, n.key, d);
        MarkValueUnseen(MarkValue(s, n.key), n.val, d);
        StrongEntriesUnseen(MarkValue(MarkValue(s, n.key), n.val), ns[1..], d);
      }
    }
  }

  lemma {:induction false} WeakValueEntriesUnseen(s: State, ns: seq<Node>, hasclears: bool, d: Fields)
    requires Unseen(s, d.obj)
    ensures var r := WeakValueEntries(s, ns, hasclears);
            WeakValueEntries(Dress(s, d), ns, hasclears) == r.(s := Dress(r.s, d)) && Unseen(r.s, d.obj)
    decreases |ns|
  {
    if ns != [] {
      hide MarkValue, Unseen, Dress, RemoveEntry, IsCleared;
      var n := ns[0];
      if n.val.Nil? {
        RemoveEntryUnseen(s, n, d);
        WeakValueEntriesUnseen(s, ns[1..], hasclears, d);
      } else {
        var s1 := MarkValue(s, n.key);
        MarkValueUnseen(s, n.key, d);
        IsClearedUnseen(s1, n.val, d);
        var (s2, clears) := if hasclears then (s1, true) else IsCleared(s1, n.val);
        WeakValueEntriesUnseen(s2, ns[1..], clears, d);
      }
    }
  }

  lemma {:induction false} EphemeronSlotsUnseen(s: State, vs: seq<Value>, d: Fields)
    requires Unseen(s, d.obj)
    ensures var (t, marked) := EphemeronSlots(s, vs);
            EphemeronSlots(Dress(s, d), vs) == (Dress(t, d), marked) && Unseen(t, d.obj)
    decreases |vs|
  {
    if vs != [] {
      DressParts(s, d);
      hide MarkValue, Unseen, Dress;
      MarkValueUnseen(s, vs[0], d);
      EphemeronSlotsUnseen(MarkValue(s, vs[0]), vs[1..], d);
    }
  }

  lemma {:induction false} EphemeronEntriesUnseen(s: State, ns: seq<Node>, d: Fields)
    requires Unseen(s, d.obj)
    ensures var r := EphemeronEntries(s, ns);
            EphemeronEntries(Dress(s, d), ns) == r.(s := Dress(r.s, d)) && Unseen(r.s, d.obj)
    decreases |ns|
  {
    if ns != [] {
      var n := ns[0];
      if n.val.Nil? {
        hide MarkValue, Unseen, Dress, RemoveEntry;
        RemoveEntryUnseen(s, n, d);
        EphemeronEntriesUnseen(s, ns[1..], d);
      } else {
        IsClearedUnseen(s, n.key, d);
        var (s1, clears) := IsCleared(s, n.key);
        DressParts(s1, d);
        hide MarkValue, Unseen, Dress, IsCleared;
        MarkValueUnseen(s1, n.val, d);
        EphemeronEntriesUnseen(if clears then s1 else MarkValue(s1, n.val), ns[1..], d);
      }
    }
  }

  // ---------- Traversing ----------

  lemma SetHashUnseen(s: State, o: Ref, ns: seq<Node>, d: Fields)
    requires Unseen(s, d.obj) && o != d.obj && o in s.heap.objs && s.heap.objs[o].Table?
    ensures var t := Dress(s, d);
            o in t.heap.objs && t.heap.objs[o] == s.heap.objs[o] && SetHash(t, o, ns) == Dress(SetHash(s, o, ns), d)
    ensures Unseen(SetHash(s, o, ns), d.obj)
  {
    DressParts(s, d);
    assert SetHash(Dress(s, d), o, ns).heap.objs == Dress(SetHash(s, o, ns), d).heap.objs;
  }

  lemma TraverseStrongUnseen(s: State, o: Ref, d: Fields)
    requires Unseen(s, d.obj) && o != d.obj && o in s.heap.objs && s.heap.objs[o].Table?
    ensures var t := Dress(s, d);
            && o in t.heap.objs && t.heap.objs[o] == s.heap.objs[o]
            && TraverseStrongTable(t, o) == Dress(TraverseStrongTable(s, o), d)
    ensures Unseen(TraverseStrongTable(s, o), d.obj)
  {
    DressParts(s, d);
    var s1 := MarkValues(s, s.heap.objs[o].slots);
    MarkValuesUnseen(s, s.heap.objs[o].slots, d);
    StrongEntriesUnseen(s1, s.heap.objs[o].hash, d);
    var r := StrongEntries(s1, s.heap.objs[o].hash);
    SetHashUnseen(r.s, o, r.hash, d);
    hide Unseen, Dress, MarkValues, StrongEntries, SetHash;
  }

  lemma LinkedUnseen(t: State, o: Ref, d: Fields)
    requires Unseen(t, d.obj) && o != d.obj
    ensures Dress(t.(grayagain := [o] + t.grayagain), d) == Dress(t, d).(grayagain := [o] + t.grayagain)
    ensures Dress(t.(weak := [o] + t.weak), d) == Dress(t, d).(weak := [o] + t.weak)
    ensures Dress(t.(ephemeron := [o] + t.ephemeron), d) == Dress(t, d).(ephemeron := [o] + t.ephemeron)
    ensures Dress(t.(allweak := [o] + t.allweak), d) == Dress(t, d).(allweak := [o] + t.allweak)
    ensures Unseen(t.(grayagain := [o] + t.grayagain), d.obj) && Unseen(t.(weak := [o] + t.weak), d.obj)
    ensures Unseen(t.(ephemeron := [o] + t.ephemeron), d.obj) && Unseen(t.(allweak := [o] + t.allweak), d.obj)
  {
  }

  lemma DressKeepsLists(t: State, d: Fields)
    ensures Dress(t, d) == t.(heap := Dress(t, d).heap)
  {
  }

  lemma TraverseWeakUnseen(s: State, o: Ref, d: Fields)
    requires Unseen(s, d.obj) && o != d.obj && o in s.heap.objs && s.heap.objs[o].Table?
    ensures var t := Dress(s, d);
            && o in t.heap.objs && t.heap.objs[o] == s.heap.objs[o]
            && TraverseWeakValue(t, o) == Dress(TraverseWeakValue(s, o), d)
    ensures Unseen(TraverseWeakValue(s, o), d.obj)
  {
    DressParts(s, d);
    var b := |s.heap.objs[o].slots| > 0;
    var r := WeakValueEntries(s, s.heap.objs[o].hash, b);
    WeakValueEntriesUnseen(s, s.heap.objs[o].hash, b, d);
    SetHashUnseen(r.s, o, r.hash, d);
    var t := SetHash(r.s, o, r.hash);
    LinkedUnseen(t, o, d);
    DressKeepsLists(t, d);
    DressKeepsLists(s, d);
    hide Unseen, Dress, WeakValueEntries, SetHash;
  }

  lemma TraverseEphemeronUnseen(s: State, o: Ref, d: Fields)
    requires Unseen(s, d.obj) && o != d.obj && o in s.heap.objs && s.heap.objs[o].Table?
    ensures var t := Dress(s, d); var (u, marked) := TraverseEphemeron(s, o);
            && o in t.heap.objs && t.heap.objs[o] == s.heap.objs[o]
            && TraverseEphemeron(t, o) == (Dress(u, d), marked) && Unseen(u, d.obj)
  {
    DressParts(s, d);
    var (s1, markedslot) := EphemeronSlots(s, s.heap.objs[o].slots);
    EphemeronSlotsUnseen(s, s.heap.objs[o].slots, d);
    EphemeronEntriesUnseen(s1, s.heap.objs[o].hash, d);
    var r := EphemeronEntries(s1, s.heap.objs[o].hash);
    SetHashUnseen(r.s, o, r.hash, d);
    var t := SetHash(r.s, o, r.hash);
    LinkedUnseen(t, o, d);
    DressKeepsLists(t, d);
    DressKeepsLists(s, d);
    hide Unseen, Dress, EphemeronSlots, EphemeronEntries, SetHash;
  }

  lemma BackToGrayUnseen(s: State, o: Ref, d: Fields)
    requires Unseen(s, d.obj) && o != d.obj && Marked(s.color, o)
    ensures BackToGray(Dress(s, d), o) == Dress(BackToGray(s, o), d) && Unseen(BackToGray(s, o), d.obj)
    ensures BackToGray(s, o).heap == s.heap
  {
  }

  lemma TraverseTableUnseen(s: State, o: Ref, d: Fields)
    requires Unseen(s, d.obj) && o != d.obj && o in s.heap.objs && s.heap.objs[o].Table? && Marked(s.color, o)
    ensures var t := Dress(s, d);
            && o in t.heap.objs && t.heap.objs[o] == s.heap.objs[o] && t.color == s.color
            && TraverseTable(t, o) == Dress(TraverseTable(s, o), d)
    ensures Unseen(TraverseTable(s, o), d.obj)
  {
    DressParts(s, d);
    var s1 := MarkValue(s, s.heap.objs[o].metatable);
    MarkValueUnseen(s, s.heap.objs[o].metatable, d);
    DressParts(s1, d);
    BackToGrayUnseen(s1, o, d);
    var s2 := BackToGray(s1, o);
    DressKeepsLists(s2, d);
    hide Unseen, Dress, MarkValue, BackToGray, TraverseStrongTable, TraverseWeakValue, TraverseEphemeron;
    match s.heap.objs[o].mode
    case Strong => TraverseStrongUnseen(s1, o, d);
    case WeakValue => TraverseWeakUnseen(s2, o, d);
    case Ephemeron => TraverseEphemeronUnseen(s2, o, d);
    case AllWeak => LinkedUnseen(s2, o, d);
  }

  lemma {:induction false} CellValuesSame(h: Heap, k: Heap, ups: seq<Cell>)
    requires h.cells == k.cells
    ensures CellValues(h, ups) == CellValues(k, ups)
    decreases |ups|
  {
    if ups != [] { CellValuesSame(h, k, ups[1..]); }
  }

  lemma PopUnseen(s: State, d: Fields)
    requires Unseen(s, d.obj) && s.gray != []
    ensures s.gray[0] != d.obj && PopGray(Dress(s, d)) == Dress(PopGray(s), d) && Unseen(PopGray(s), d.obj)
    ensures Dress(s, d).(gray := s.gray[1..]) == Dress(s.(gray := s.gray[1..]), d) && Unseen(s.(gray := s.gray[1..]), d.obj)
    ensures Dress(s, d).gray == s.gray && Dress(s, d).color == s.color
  {
    assert forall r :: r in s.gray[1..] ==> r in s.gray;
  }

  lemma UnseenThere(s: State, d: Fields)
    requires Unseen(s, d.obj)
    ensures d.obj in s.heap.objs && d.obj !in s.gray
  {
  }

  lemma ThreadUnseen(s: State, o: Ref, d: Fields)
    requires Unseen(s, d.obj) && o != d.obj
    ensures var t := s.(grayagain := [o] + s.grayagain, color := s.color[o := Gray]);
            && Unseen(t, d.obj)
            && Dress(t, d) == Dress(s, d).(grayagain := [o] + s.grayagain, color := s.color[o := Gray])
  {
  }

  lemma PropagateMarkUnseen(s: State, d: Fields)
    requires Unseen(s, d.obj) && s.gray != []
    ensures Dress(s, d).gray == s.gray
    ensures PropagateMark(Dress(s, d)) == Dress(PropagateMark(s), d) && Unseen(PropagateMark(s), d.obj)
  {
    hide Unseen, Dress;
    var o := s.gray[0];
    PopUnseen(s, d);
    UnseenThere(s, d);
    DressParts(s, d);
    if o in s.heap.objs && Marked(s.color, o) {
      var s1 := PopGray(s);
      UnseenThere(s1, d);
      DressParts(s1, d);
      match s.heap.objs[o] {
        case Table(_, _, _, _) =>
          TraverseTableUnseen(s1, o, d);
        case Thread(stack) =>
          var s2 := s1.(grayagain := [o] + s1.grayagain, color := s1.color[o := Gray]);
          ThreadUnseen(s1, o, d);
          MarkValuesUnseen(s2, stack, d);
        case LClosure(_, ups) =>
          CellValuesSame(s1.heap, Dress(s1, d).heap, ups);
          MarkValuesUnseen(s1, PlainValues(s1.heap, o), d);
        case _ =>
          MarkValuesUnseen(s1, PlainValues(s1.heap, o), d);
      }
    }
  }

  lemma {:induction false} PropagateAllUnseen(s: State, d: Fields)
    requires Unseen(s, d.obj)
    ensures PropagateAll(Dress(s, d)) == Dress(PropagateAll(s), d) && Unseen(PropagateAll(s), d.obj)
    decreases Work(s)
  {
    DressKeepsLists(s, d);
    hide Unseen, Dress, PropagateMark, Work;
    if s.gray != [] {
      PropagateMarkUnseen(s, d);
      PropagateAllUnseen(PropagateMark(s), d);
    }
  }

  // ---------- The atomic phase ----------

  /** The lists do not name the object. */
  lemma {:induction false} ConvergePassUnseen(s: State, next: seq<Ref>, d: Fields)
    requires Unseen(s, d.obj) && d.obj !in next
    ensures var (t, changed) := ConvergePass(s, next);
            ConvergePass(Dress(s, d), next) == (Dress(t, d), changed) && Unseen(t, d.obj)
    decreases |next|
  {
    DressParts(s, d);
    if next != [] {
      assert forall r :: r in next[1..] ==> r in next;
      var o := next[0];
      hide Unseen, Dress, TraverseEphemeron, PropagateAll;
      if o !in s.heap.objs || !s.heap.objs[o].Table? {
        ConvergePassUnseen(s, next[1..], d);
      } else {
        var (s1, marked) := TraverseEphemeron(s, o);
        TraverseEphemeronUnseen(s, o, d);
        PropagateAllUnseen(s1, d);
        ConvergePassUnseen(if marked then PropagateAll(s1) else s1, next[1..], d);
      }
    }
  }

  lemma {:induction false} ConvergeUnseen(s: State, d: Fields)
    requires Unseen(s, d.obj)
    ensures Converge(Dress(s, d)) == Dress(Converge(s), d) && Unseen(Converge(s), d.obj)
    decreases Whites(s)
  {
    var s1 := s.(ephemeron := []);
    assert Unseen(s1, d.obj) && Whites(s1) == Whites(s);
    assert Dress(s1, d) == Dress(s, d).(ephemeron := []) && Dress(s, d).ephemeron == s.ephemeron;
    ConvergePassUnseen(s1, s.ephemeron, d);
    var (t, changed) := ConvergePass(s1, s.ephemeron);
    hide Unseen, Dress, ConvergePass, Whites;
    if changed { ConvergeUnseen(t, d); }
  }

  lemma AtomicMarkUnseen(s: State, d: Fields)
    requires Unseen(s, d.obj)
    ensures AtomicMark(Dress(s, d)) == Dress(AtomicMark(s), d) && Unseen(AtomicMark(s), d.obj)
  {
    var s0 := s.(phase := InsideAtomic);
    assert Unseen(s0, d.obj) && Dress(s0, d) == Dress(s, d).(phase := InsideAtomic);
    var vs := RootValues(s);
    assert RootValues(Dress(s, d)) == vs;
    MarkValuesUnseen(s0, vs, d);
    PropagateAllUnseen(MarkValues(s0, vs), d);
    var s1 := PropagateAll(MarkValues(s0, vs));
    var s2 := s1.(gray := s.grayagain);
    assert Unseen(s2, d.obj) && Dress(s2, d) == Dress(s1, d).(gray := s.grayagain) && Dress(s, d).grayagain == s.grayagain;
    hide Unseen, Dress, MarkValues, PropagateAll, Converge, RootValues;
    PropagateAllUnseen(s2, d);
    ConvergeUnseen(PropagateAll(s2), d);
  }

  lemma {:induction false} ClearSlotsUnseen(s: State, vs: seq<Value>, d: Fields)
    requires Unseen(s, d.obj)
    ensures var (t, ws) := ClearSlots(s, vs); ClearSlots(Dress(s, d), vs) == (Dress(t, d), ws) && Unseen(t, d.obj)
    decreases |vs|
  {
    if vs != [] {
      hide Unseen, Dress, IsCleared;
      IsClearedUnseen(s, vs[0], d);
      ClearSlotsUnseen(IsCleared(s, vs[0]).0, vs[1..], d);
    }
  }

  lemma {:induction false} ClearEntriesUnseen(s: State, ns: seq<Node>, onKeys: bool, d: Fields)
    requires Unseen(s, d.obj)
    ensures var (t, ms) := ClearEntries(s, ns, onKeys);
            ClearEntries(Dress(s, d), ns, onKeys) == (Dress(t, d), ms) && Unseen(t, d.obj)
    decreases |ns|
  {
    if ns != [] {
      hide Unseen, Dress, IsCleared, RemoveEntry;
      var n := ns[0];
      if n.val.Nil? {
        ClearEntriesUnseen(s, ns[1..], onKeys, d);
      } else {
        var v := if onKeys then n.key else n.val;
        IsClearedUnseen(s, v, d);
        var s1 := IsCleared(s, v).0;
        RemoveEntryUnseen(s1, Node(n.key, Nil), d);
        ClearEntriesUnseen(s1, ns[1..], onKeys, d);
      }
    }
  }

  /** Clearing changes the parts of a table that hold values; the metatable is not one of them. */
  lemma SetTableUnseen(s: State, o: Ref, vs: seq<Value>, ns: seq<Node>, d: Fields)
    requires Unseen(s, d.obj) && o in s.heap.objs && s.heap.objs[o].Table?
    ensures var t := Dress(s, d);
            && o in t.heap.objs && t.heap.objs[o].Table?
            && t.heap.objs[o].slots == s.heap.objs[o].slots && t.heap.objs[o].hash == s.heap.objs[o].hash
            && SetTable(t, o, vs, ns) == Dress(SetTable(s, o, vs, ns), d)
    ensures Unseen(SetTable(s, o, vs, ns), d.obj)
  {
    DressParts(s, d);
    assert SetTable(Dress(s, d), o, vs, ns).heap.objs == Dress(SetTable(s, o, vs, ns), d).heap.objs;
  }

  lemma ClearTableUnseen(s: State, o: Ref, onKeys: bool, d: Fields)
    requires Unseen(s, d.obj) && o in s.heap.objs && s.heap.objs[o].Table?
    ensures var t := Dress(s, d); o in t.heap.objs && t.heap.objs[o].Table? && ClearTable(t, o, onKeys) == Dress(ClearTable(s, o, onKeys), d)
    ensures Unseen(ClearTable(s, o, onKeys), d.obj)
  {
    var slots, hash := s.heap.objs[o].slots, s.heap.objs[o].hash;
    SetTableUnseen(s, o, slots, hash, d);
    ClearSlotsUnseen(s, slots, d);
    var (s1, vs) := if onKeys then (s, slots) else ClearSlots(s, slots);
    ClearEntriesUnseen(s1, hash, onKeys, d);
    var (s2, ns) := ClearEntries(s1, hash, onKeys);
    SetTableUnseen(s2, o, vs, ns, d);
    hide Unseen, Dress, ClearSlots, ClearEntries, SetTable;
  }

  lemma {:induction false} ClearUnseen(s: State, q: seq<Ref>, onKeys: bool, d: Fields)
    requires Unseen(s, d.obj)
    ensures Clear(Dress(s, d), q, onKeys) == Dress(Clear(s, q, onKeys), d) && Unseen(Clear(s, q, onKeys), d.obj)
    decreases |q|
  {
    DressParts(s, d);
    if q != [] {
      hide Unseen, Dress, ClearTable;
      if q[0] !in s.heap.objs || !s.heap.objs[q[0]].Table? {
        ClearUnseen(s, q[1..], onKeys, d);
      } else {
        ClearTableUnseen(s, q[0], onKeys, d);
        ClearUnseen(ClearTable(s, q[0], onKeys), q[1..], onKeys, d);
      }
    }
  }

  lemma ClearBothUnseen(s: State, q: seq<Ref>, p: seq<Ref>, onKeys: bool, d: Fields)
    requires Unseen(s, d.obj)
    ensures ClearBoth(Dress(s, d), q, p, onKeys) == Dress(ClearBoth(s, q, p, onKeys), d) && Unseen(ClearBoth(s, q, p, onKeys), d.obj)
  {
    hide Unseen, Dress, Clear;
    ClearUnseen(s, q, onKeys, d);
    ClearUnseen(Clear(s, q, onKeys), p, onKeys, d);
  }

  lemma {:induction false} KeepSame(s: State, t: State, q: seq<Ref>, white: bool)
    requires forall r :: IsWhite(s, r) == IsWhite(t, r)
    ensures Keep(s, q, white) == Keep(t, q, white)
    decreases |q|
  {
    if q != [] { KeepSame(s, t, q[1..], white); }
  }

  lemma SeparateUnseen(s: State, d: Fields)
    requires Unseen(s, d.obj)
    ensures SeparateToBeFnz(Dress(s, d)) == Dress(SeparateToBeFnz(s), d) && Unseen(SeparateToBeFnz(s), d.obj)
  {
    DressParts(s, d);
    KeepSame(s, Dress(s, d), s.finobj, false);
    KeepSame(s, Dress(s, d), s.finobj, true);
  }

  lemma ResurrectUnseen(s: State, d: Fields)
    requires Unseen(s, d.obj)
    ensures Resurrect(Dress(s, d)) == Dress(Resurrect(s), d) && Unseen(Resurrect(s), d.obj)
  {
    DressKeepsLists(s, d);
    var vs := ObjValues(s.tobefnz);
    hide Unseen, Dress, MarkValues, PropagateAll, Converge, ObjValues;
    MarkValuesUnseen(s, vs, d);
    PropagateAllUnseen(MarkValues(s, vs), d);
    ConvergeUnseen(PropagateAll(MarkValues(s, vs)), d);
  }

  lemma AtomicClearUnseen(s: State, d: Fields)
    requires Unseen(s, d.obj)
    ensures AtomicClear(Dress(s, d)) == Dress(AtomicClear(s), d) && Unseen(AtomicClear(s), d.obj)
  {
    hide Unseen, Dress, ClearBoth, Resurrect, SeparateToBeFnz, NewPart;
    var s1 := ClearBoth(s, s.weak, s.allweak, false);
    var s2 := Resurrect(SeparateToBeFnz(s1));
    var s3 := ClearBoth(s2, s2.ephemeron, s2.allweak, true);
    DressKeepsLists(s, d);
    DressKeepsLists(s1, d);
    DressKeepsLists(s2, d);
    DressKeepsLists(s3, d);
    ClearBothUnseen(s, s.weak, s.allweak, false, d);
    SeparateUnseen(s1, d);
    ResurrectUnseen(SeparateToBeFnz(s1), d);
    ClearBothUnseen(s2, s2.ephemeron, s2.allweak, true, d);
    ClearBothUnseen(s3, NewPart(s3.weak, s1.weak), NewPart(s3.allweak, s1.allweak), false, d);
  }

  lemma AtomicStepUnseen(s: State, d: Fields)
    requires Unseen(s, d.obj)
    ensures AtomicStep(PropagateAll(Dress(s, d))) == Dress(AtomicStep(PropagateAll(s)), d)
  {
    hide Unseen, Dress, PropagateAll, AtomicMark, AtomicClear;
    PropagateAllUnseen(s, d);
    AtomicMarkUnseen(PropagateAll(s), d);
    AtomicClearUnseen(AtomicMark(PropagateAll(s)), d);
    var t := AtomicClear(AtomicMark(PropagateAll(s)));
    DressKeepsLists(t, d);
    DressWhite(t, d);
  }

  lemma DressWhite(t: State, d: Fields)
    ensures Dress(t.(white := !t.white), d) == Dress(t, d).(white := !t.white)
  {
  }

  // ---------- Sweeping ----------

  lemma DressSame(s: State, d: Fields, phase: Phase, cursor: Cursor)
    ensures Dress(s.(phase := phase), d) == Dress(s, d).(phase := phase)
    ensures Dress(s.(sweepgc := cursor), d) == Dress(s, d).(sweepgc := cursor)
    ensures forall o :: Dress(MakeWhite(s, o), d) == MakeWhite(Dress(s, d), o)
    ensures forall p :: PlaceOf(Dress(s, d), p) == PlaceOf(s, p) && Todo(Dress(s, d), p) == Todo(s, p)
    ensures forall r :: IsDead(Dress(s, d), r) == IsDead(s, r)
    ensures Count(Dress(s, d)) == Count(s)
  {
    forall p ensures PlaceOf(Dress(s, d), p) == PlaceOf(s, p) && Todo(Dress(s, d), p) == Todo(s, p) {
      assert forall l :: ListOf(Dress(s, d), l) == ListOf(s, l);
    }
  }

  lemma FreeDressed(s: State, o: Ref, d: Fields)
    ensures Free(Dress(s, d), o) == Dress(Free(s, o), d)
  {
    assert Free(Dress(s, d), o).heap.objs == Dress(Free(s, o), d).heap.objs;
  }

  lemma DressPlace(s: State, p: Cursor, d: Fields)
    ensures PlaceOf(Dress(s, d), p) == PlaceOf(s, p) && Todo(Dress(s, d), p) == Todo(s, p)
    ensures forall l :: ListOf(Dress(s, d), l) == ListOf(s, l)
  {
  }

  lemma DressMakeWhite(s: State, o: Ref, d: Fields)
    ensures MakeWhite(Dress(s, d), o) == Dress(MakeWhite(s, o), d) && IsDead(Dress(s, d), o) == IsDead(s, o)
  {
  }

  lemma DressSetList(s: State, l: ListName, q: seq<Ref>, d: Fields)
    ensures SetList(Dress(s, d), l, q) == Dress(SetList(s, l, q), d)
  {
  }

  lemma SweepOneDressed(s: State, p: Cursor, d: Fields)
    requires Todo(s, p) != []
    ensures Todo(Dress(s, d), p) != []
    ensures var (t, r) := SweepOne(s, p); SweepOne(Dress(s, d), p) == (Dress(t, d), r)
  {
    DressPlace(s, p, d);
    var (l, i) := (PlaceOf(s, p).list, PlaceOf(s, p).index);
    var q := ListOf(s, l);
    var rest := q[..i] + q[i + 1..];
    DressSetList(s, l, rest, d);
    FreeDressed(SetList(s, l, rest), q[i], d);
    DressMakeWhite(s, q[i], d);
    hide Dress, Free, MakeWhite, SetList, PlaceOf, ListOf, IsDead;
  }

  lemma {:induction false} SweepListDressed(s: State, p: Cursor, count: nat, d: Fields)
    ensures var (t, r) := SweepList(s, p, count); SweepList(Dress(s, d), p, count) == (Dress(t, d), r)
    decreases count
  {
    DressPlace(s, p, d);
    hide Dress, Todo, SweepOne, PlaceOf, ListOf;
    if Todo(s, p) != [] && count > 0 {
      SweepOneDressed(s, p, d);
      var (t, r) := SweepOne(s, p);
      SweepListDressed(t, r, count - 1, d);
    }
  }

  lemma {:induction false} SweepToLiveDressed(s: State, p: Cursor, d: Fields)
    ensures var (t, r) := SweepToLive(s, p); SweepToLive(Dress(s, d), p) == (Dress(t, d), r)
    decreases Count(s)
  {
    DressSame(s, d, s.phase, p);
    SweepListDressed(s, p, 1, d);
    var (t, r) := SweepList(s, p, 1);
    DressSame(t, d, t.phase, r);
    hide Dress, SweepList, Count;
    if r == p && Count(t) < Count(s) { SweepToLiveDressed(t, p, d); }
  }

  lemma EnterSweepDressed(s: State, d: Fields)
    ensures EnterSweep(Dress(s, d)) == Dress(EnterSweep(s), d)
  {
    var s1 := s.(phase := SweepAllGc);
    DressSame(s, d, SweepAllGc, NoCursor);
    SweepToLiveDressed(s1, Head(AllGc), d);
    var (t, p) := SweepToLive(s1, Head(AllGc));
    DressSame(t, d, t.phase, p);
    hide Dress, SweepToLive;
  }

  lemma SweepStepDressed(s: State, next: Phase, list: Cursor, max: nat, d: Fields)
    ensures SweepStep(Dress(s, d), next, list, max) == Dress(SweepStep(s, next, list, max), d)
  {
    DressKeepsLists(s, d);
    SweepListDressed(s, s.sweepgc, max, d);
    var (t, p) := if s.sweepgc == NoCursor then (s, NoCursor) else SweepList(s, s.sweepgc, max);
    DressSame(t, d, t.phase, p);
    assert Dress(t.(phase := next, sweepgc := list), d) == Dress(t, d).(phase := next, sweepgc := list);
    hide Dress, SweepList;
  }

  /** A step of the collector, up to the end of the cycle: what the object holds makes no difference. */
  lemma StepUnseen(s: State, max: nat, d: Fields)
    requires KeepInvariant(s) ==> Unseen(s, d.obj)
    requires !s.phase.Pause?
    ensures SingleStep(Dress(s, d), max, true) == Dress(SingleStep(s, max, true), d)
    ensures var t := SingleStep(s, max, true); KeepInvariant(s) && KeepInvariant(t) ==> Unseen(t, d.obj)
  {
    DressKeepsLists(s, d);
    match s.phase {
      case Propagate =>
        if s.gray != [] { PropagateMarkUnseen(s, d); }
        var t := if s.gray != [] then PropagateMark(s) else s;
        DressKeepsLists(t, d);
        DressSame(t, d, Atomic, t.sweepgc);
        assert Unseen(t, d.obj) && Unseen(t.(phase := Atomic), d.obj);
        hide Dress, PropagateMark;
      case Atomic =>
        AtomicStepUnseen(s, d);
        EnterSweepDressed(AtomicStep(PropagateAll(s)), d);
        EntersSweeping(AtomicStep(PropagateAll(s)));
        hide Dress, AtomicStep, PropagateAll, EnterSweep;
      case SweepAllGc => hide Dress; SweepStepDressed(s, SweepFinObj, Head(FinObj), max, d);
      case SweepFinObj => hide Dress; SweepStepDressed(s, SweepToBeFnz, Head(ToBeFnz), max, d);
      case SweepToBeFnz => hide Dress; SweepStepDressed(s, SweepEnd, NoCursor, max, d);
      case SweepEnd =>
        DressSame(s, d, s.phase, s.sweepgc);
        DressSame(MakeWhite(s, s.mainthread), d, CallFin, s.sweepgc);
      case _ => DressSame(s, d, Pause, s.sweepgc);
    }
  }

  lemma EntersSweeping(s: State)
    ensures !KeepInvariant(EnterSweep(s))
  {
    SweepToLivePhase(s.(phase := SweepAllGc), Head(AllGc));
  }

  lemma {:induction false} SweepToLivePhase(s: State, p: Cursor)
    ensures SweepToLive(s, p).0.phase == s.phase
    decreases Count(s)
  {
    var (t, r) := SweepList(s, p, 1);
    assert t.phase == s.phase;
    hide SweepList, Count;
    if r == p && Count(t) < Count(s) { SweepToLivePhase(t, p); }
  }
}
