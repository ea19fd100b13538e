/** The collector in its own form: one global state that the collector's functions update in place, loop by loop.
    Every method is proved equal to the transition of the same name that the other modules reason about. */
module LuaCollector {
  import opened LuaObjects
  import opened LuaMark
  import opened LuaTraverse
  import opened LuaAtomic
  import opened LuaClear
  import opened LuaAtomicStep
  import opened LuaSweep
  import opened LuaEvents
  import opened LuaInvariant
  import opened LuaCollect
  import opened LuaFinalize
  import opened LuaRun
  import opened LuaCycle
  import opened LuaFull
  import opened LuaFinalizers

  // ---------- Loops over the nodes of a table ----------

  function StrongNode(s: State, n: Node): (State, Node) {
    if n.val.Nil? then (s, RemoveEntry(s, n)) else (MarkValue(MarkValue(s, n.key), n.val), n)
  }

  /** The nodes before i have been visited, with this result, and the state is s now. */
  ghost predicate StrongSoFar(s0: State, ns: seq<Node>, done: seq<Node>, s: State, i: nat) {
    && i <= |ns| && s == s0.(color := s.color, gray := s.gray)
    && var r, p := StrongEntries(s0, ns), StrongEntries(s, ns[i..]);
       r.s == p.s && r.hash == done + p.hash
  }

  lemma StrongNext(s0: State, ns: seq<Node>, done: seq<Node>, s: State, i: nat)
    requires StrongSoFar(s0, ns, done, s, i) && i < |ns|
    ensures var (t, m) := StrongNode(s, ns[i]); StrongSoFar(s0, ns, done + [m], t, i + 1)
  {
    hide MarkValue, Whites, Work;
    var (t, m) := StrongNode(s, ns[i]);
    assert ns[i..][0] == ns[i] && ns[i..][1..] == ns[i + 1..];
    var p := StrongEntries(t, ns[i + 1..]);
    assert done + ([m] + p.hash) == (done + [m]) + p.hash;
  }

  function WeakNode(s: State, n: Node, hasclears: bool): (State, Node, bool) {
    if n.val.Nil? then (s, RemoveEntry(s, n), hasclears)
    else
      var s1 := MarkValue(s, n.key);
      var (s2, clears) := if hasclears then (s1, true) else IsCleared(s1, n.val);
      (s2, n, clears)
  }

  ghost predicate WeakSoFar(s0: State, ns: seq<Node>, clears0: bool, done: seq<Node>, s: State, clears: bool, i: nat) {
    && i <= |ns| && s == s0.(color := s.color, gray := s.gray)
    && var r, p := WeakValueEntries(s0, ns, clears0), WeakValueEntries(s, ns[i..], clears);
       r.s == p.s && r.hash == done + p.hash && r.hasclears == p.hasclears
  }

  lemma WeakNext(s0: State, ns: seq<Node>, clears0: bool, done: seq<Node>, s: State, clears: bool, i: nat)
    requires WeakSoFar(s0, ns, clears0, done, s, clears, i) && i < |ns|
    ensures var (t, m, c) := WeakNode(s, ns[i], clears); WeakSoFar(s0, ns, clears0, done + [m], t, c, i + 1)
  {
    hide MarkValue, IsCleared, Whites, Work;
    var (t, m, c) := WeakNode(s, ns[i], clears);
    assert ns[i..][0] == ns[i] && ns[i..][1..] == ns[i + 1..];
    var p := WeakValueEntries(t, ns[i + 1..], c);
    assert done + ([m] + p.hash) == (done + [m]) + p.hash;
  }

  datatype Flags = Flags(marked: bool, hasclears: bool, hasww: bool)

  function EphemeronNode(s: State, n: Node, f: Flags): (State, Node, Flags) {
    if n.val.Nil? then (s, RemoveEntry(s, n), f)
    else
      var (s1, clears) := IsCleared(s, n.key);
      if clears then (s1, n, f.(hasclears := true, hasww := f.hasww || ValueIsWhite(s1, n.val)))
      else (MarkValue(s1, n.val), n, f.(marked := f.marked || ValueIsWhite(s1, n.val)))
  }

  ghost predicate EphemeronSoFar(s0: State, ns: seq<Node>, done: seq<Node>, s: State, f: Flags, i: nat) {
    && i <= |ns| && s == s0.(color := s.color, gray := s.gray)
    && var r, p := EphemeronEntries(s0, ns), EphemeronEntries(s, ns[i..]);
       && r.s == p.s && r.hash == done + p.hash && r.marked == (f.marked || p.marked)
       && r.hasclears == (f.hasclears || p.hasclears) && r.hasww == (f.hasww || p.hasww)
  }

  lemma EphemeronNext(s0: State, ns: seq<Node>, done: seq<Node>, s: State, f: Flags, i: nat)
    requires EphemeronSoFar(s0, ns, done, s, f, i) && i < |ns|
    ensures var (t, m, g) := EphemeronNode(s, ns[i], f); EphemeronSoFar(s0, ns, done + [m], t, g, i + 1)
  {
    hide MarkValue, IsCleared, Whites, Work;
    var (t, m, g) := EphemeronNode(s, ns[i], f);
    assert ns[i..][0] == ns[i] && ns[i..][1..] == ns[i + 1..];
    var p := EphemeronEntries(t, ns[i + 1..]);
    assert done + ([m] + p.hash) == (done + [m]) + p.hash;
  }

  function ClearNode(s: State, n: Node, onKeys: bool): (State, Node) {
    if n.val.Nil? then (s, n)
    else
      var (s1, clears) := IsCleared(s, if onKeys then n.key else n.val);
      (s1, if clears then RemoveEntry(s1, Node(n.key, Nil)) else n)
  }

  ghost predicate ClearSoFar(s0: State, ns: seq<Node>, onKeys: bool, done: seq<Node>, s: State, i: nat) {
    && i <= |ns| && s == s0.(color := s.color, gray := s.gray)
    && var r, p := ClearEntries(s0, ns, onKeys), ClearEntries(s, ns[i..], onKeys);
       r.0 == p.0 && r.1 == done + p.1
  }

  lemma ClearNext(s0: State, ns: seq<Node>, onKeys: bool, done: seq<Node>, s: State, i: nat)
    requires ClearSoFar(s0, ns, onKeys, done, s, i) && i < |ns|
    ensures var (t, m) := ClearNode(s, ns[i], onKeys); ClearSoFar(s0, ns, onKeys, done + [m], t, i + 1)
  {
    hide MarkValue, IsCleared, Whites, Work;
    var (t, m) := ClearNode(s, ns[i], onKeys);
    assert ns[i..][0] == ns[i] && ns[i..][1..] == ns[i + 1..];
    var p := ClearEntries(t, ns[i + 1..], onKeys);
    assert done + ([m] + p.1) == (done + [m]) + p.1;
  }

  ghost predicate SlotsSoFar(s0: State, vs: seq<Value>, done: seq<Value>, s: State, i: nat) {
    && i <= |vs| && s == s0.(color := s.color, gray := s.gray)
    && var r, p := ClearSlots(s0, vs), ClearSlots(s, vs[i..]);
       r.0 == p.0 && r.1 == done + p.1
  }

  lemma SlotsStart(s: State, vs: seq<Value>)
    ensures SlotsSoFar(s, vs, vs[..0], s, 0)
  {
    assert vs[0..] == vs && vs[..0] + ClearSlots(s, vs).1 == ClearSlots(s, vs).1;
  }

  lemma SlotsNext(s0: State, vs: seq<Value>, done: seq<Value>, s: State, i: nat)
    requires SlotsSoFar(s0, vs, done, s, i) && i < |vs|
    ensures var (t, clears) := IsCleared(s, vs[i]); SlotsSoFar(s0, vs, done + [if clears then Nil else vs[i]], t, i + 1)
  {
    hide IsCleared, Whites, Work;
    var (t, clears) := IsCleared(s, vs[i]);
    assert vs[i..][0] == vs[i] && vs[i..][1..] == vs[i + 1..];
    var m := if clears then Nil else vs[i];
    var p := ClearSlots(t, vs[i + 1..]);
    assert done + ([m] + p.1) == (done + [m]) + p.1;
  }

  lemma SlotsEnd(s0: State, vs: seq<Value>, done: seq<Value>, s: State)
    requires SlotsSoFar(s0, vs, done, s, |vs|)
    ensures ClearSlots(s0, vs) == (s, done) && s.heap == s0.heap
  {
    assert vs[|vs|..] == [] && done + [] == done;
  }

  lemma StrongStarts(s: State, ns: seq<Node>)
    ensures StrongSoFar(s, ns, ns[..0], s, 0)
  {
    assert ns[0..] == ns && ns[..0] + StrongEntries(s, ns).hash == StrongEntries(s, ns).hash;
  }

  lemma SoFarSame(s0: State, ns: seq<Node>, done: seq<Node>, s: State, i: nat)
    requires StrongSoFar(s0, ns, done, s, i)
    ensures s == s0.(color := s.color, gray := s.gray)
  {
  }

  lemma WeakStarts(s: State, ns: seq<Node>, c: bool)
    ensures WeakSoFar(s, ns, c, ns[..0], s, c, 0)
  {
    assert ns[0..] == ns && ns[..0] + WeakValueEntries(s, ns, c).hash == WeakValueEntries(s, ns, c).hash;
  }

  lemma WeakSame(s0: State, ns: seq<Node>, c: bool, done: seq<Node>, s: State, d: bool, i: nat)
    requires WeakSoFar(s0, ns, c, done, s, d, i)
    ensures s == s0.(color := s.color, gray := s.gray)
  {
  }

  lemma EphemeronStarts(s: State, ns: seq<Node>)
    ensures EphemeronSoFar(s, ns, ns[..0], s, Flags(false, false, false), 0)
  {
    assert ns[0..] == ns && ns[..0] + EphemeronEntries(s, ns).hash == EphemeronEntries(s, ns).hash;
  }

  lemma EphemeronSame(s0: State, ns: seq<Node>, done: seq<Node>, s: State, f: Flags, i: nat)
    requires EphemeronSoFar(s0, ns, done, s, f, i)
    ensures s == s0.(color := s.color, gray := s.gray)
  {
  }

  lemma ClearStarts(s: State, ns: seq<Node>, onKeys: bool)
    ensures ClearSoFar(s, ns, onKeys, ns[..0], s, 0)
  {
    assert ns[0..] == ns && ns[..0] + ClearEntries(s, ns, onKeys).1 == ClearEntries(s, ns, onKeys).1;
  }

  lemma ClearSame(s0: State, ns: seq<Node>, onKeys: bool, done: seq<Node>, s: State, i: nat)
    requires ClearSoFar(s0, ns, onKeys, done, s, i)
    ensures s == s0.(color := s.color, gray := s.gray)
  {
  }

  lemma NothingLeft(s: State, ns: seq<Node>, done: seq<Node>)
    ensures forall s0, f :: EphemeronSoFar(s0, ns, done, s, f, |ns|) ==>
              EphemeronEntries(s0, ns) == Pass(s, done, f.marked, f.hasclears, f.hasww)
    ensures forall s0 :: StrongSoFar(s0, ns, done, s, |ns|) ==> StrongEntries(s0, ns).s == s && StrongEntries(s0, ns).hash == done
    ensures forall s0, c, d :: WeakSoFar(s0, ns, c, done, s, d, |ns|) ==>
              var r := WeakValueEntries(s0, ns, c); r.s == s && r.hash == done && r.hasclears == d
    ensures forall s0, k :: ClearSoFar(s0, ns, k, done, s, |ns|) ==> ClearEntries(s0, ns, k) == (s, done)
  {
    assert ns[|ns|..] == [] && done + [] == done;
  }

  ghost predicate Separated(s: State, q: seq<Ref>, kept: seq<Ref>, moved: seq<Ref>, i: nat) {
    i <= |q| && Keep(s, q, false) == kept + Keep(s, q[i..], false) && Keep(s, q, true) == moved + Keep(s, q[i..], true)
  }

  lemma SeparateStarts(s: State, q: seq<Ref>)
    ensures Separated(s, q, [], [], 0)
  {
    assert q[0..] == q;
  }

  lemma SeparateNext(s: State, q: seq<Ref>, kept: seq<Ref>, moved: seq<Ref>, i: nat)
    requires Separated(s, q, kept, moved, i) && i < |q|
    ensures if IsWhite(s, q[i]) then Separated(s, q, kept, moved + [q[i]], i + 1)
            else Separated(s, q, kept + [q[i]], moved, i + 1)
  {
    assert q[i..][0] == q[i] && q[i..][1..] == q[i + 1..];
    hide IsWhite;
  }

  lemma SeparateEnds(s: State, q: seq<Ref>, kept: seq<Ref>, moved: seq<Ref>)
    requires Separated(s, q, kept, moved, |q|)
    ensures Keep(s, q, false) == kept && Keep(s, q, true) == moved
  {
  }

  function TraverseGray(s: State, o: Ref): State
    requires o in s.heap.objs && Marked(s.color, o)
  {
    match s.heap.objs[o]
    case Table(_, _, _, _) => TraverseTable(s, o)
    case Thread(stack) => MarkValues(s.(grayagain := [o] + s.grayagain, color := s.color[o := Gray]), stack)
    case _ => MarkValues(s, PlainValues(s.heap, o))
  }

  lemma PropagateTraverses(s: State)
    requires s.gray != []
    ensures var o := s.gray[0];
            PropagateMark(s) == if o in s.heap.objs && Marked(s.color, o) then TraverseGray(PopGray(s), o)
                                else s.(gray := s.gray[1..])
  {
    hide TraverseTable, MarkValues, PlainValues, Whites, Work;
  }

  lemma BlackenSame(s: State, o: Ref)
    requires Marked(s.color, o)
    ensures Whites(s.(color := s.color[o := Black])) == Whites(s)
  {
  }

  lemma SweepOneIs(s: State, p: Cursor)
    requires Todo(s, p) != []
    ensures PlaceOf(s, p).At? && PlaceOf(s, p).index < |ListOf(s, PlaceOf(s, p).list)|
    ensures var At(l, i) := PlaceOf(s, p);
            var q := ListOf(s, l);
            SweepOne(s, p) ==
            if IsDead(s, q[i]) then (Free(SetList(s, l, q[..i] + q[i + 1..]), q[i]), p) else (MakeWhite(s, q[i]), After(q[i]))
  {
    PlaceFound(s, p);
    hide PlaceOf, Todo, SetList, Free, IndexOf, ListOf, MakeWhite, IsDead;
  }

  lemma PlaceFound(s: State, p: Cursor)
    requires Todo(s, p) != []
    ensures PlaceOf(s, p).At? && PlaceOf(s, p).index < |ListOf(s, PlaceOf(s, p).list)|
  {
    hide IndexOf;
  }

  /** global_State */
  class Collector {
    var heap: Heap
    var color: map<Ref, Color>
    var finalizable: set<Ref>
    var allgc: seq<Ref>
    var finobj: seq<Ref>
    var tobefnz: seq<Ref>
    var fixedgc: seq<Ref>
    var gray: seq<Ref>
    var grayagain: seq<Ref>
    var weak: seq<Ref>
    var allweak: seq<Ref>
    var ephemeron: seq<Ref>
    var phase: Phase
    var white: bool
    var sweepgc: Cursor
    var mainthread: Ref
    var running: Ref
    var registry: Value
    var basicmt: seq<Value>
    var nextref: Ref

    function Snapshot(): State
      reads this
    {
      State(heap, color, finalizable, allgc, finobj, tobefnz, fixedgc, gray, grayagain, weak, allweak, ephemeron, phase, white,
            sweepgc, mainthread, running, registry, basicmt, nextref)
    }

    /** lua_newstate */
    constructor (main: Ref)
      ensures Snapshot() == Initial(main)
    {
      heap := Heap(map[main := Thread([])], map[]);
      color := map[main := White(false)];
      finalizable := {};
      allgc, finobj, tobefnz, fixedgc := [], [], [], [];
      gray, grayagain, weak, allweak, ephemeron := [], [], [], [], [];
      phase, white, sweepgc := Pause, false, NoCursor;
      mainthread, running, registry, basicmt, nextref := main, main, Nil, [], main + 1;
    }

    // ---------- Marking ----------

    /** reallymarkobject, with its jump back for user values. */
    method ReallyMarkObject(start: Ref)
      requires IsWhite(Snapshot(), start)
      modifies this
      ensures Snapshot() == ReallyMark(old(Snapshot()), start)
      decreases Whites(Snapshot()), 0
    {
      var o := start;
      var reentry := true;
      while reentry
        invariant reentry ==> IsWhite(Snapshot(), o) && ReallyMark(Snapshot(), o) == ReallyMark(old(Snapshot()), start)
        invariant !reentry ==> Snapshot() == ReallyMark(old(Snapshot()), start)
        invariant Whites(Snapshot()) <= old(Whites(Snapshot()))
        decreases Whites(Snapshot()), reentry
      {
        hide Whites, MarkValue;
        ghost var s := Snapshot();
        reentry := false;
        color := color[o := Gray];
        WhitesShrink(s, Snapshot(), o);
        match heap.objs[o]
        case Str =>
          color := color[o := Black];
          assert color == s.color[o := Black];
        case Userdata(meta, uservalue) =>
          MarkOne(meta);
          BlackenSame(Snapshot(), o);
          color := color[o := Black];
          if ValueIsWhite(Snapshot(), uservalue) {
            o, reentry := uservalue.ref, true;
          }
        case _ =>
          gray := [o] + gray;
      }
    }

    /** markvalue, markobject and markobjectN */
    method MarkOne(v: Value)
      modifies this
      ensures Snapshot() == MarkValue(old(Snapshot()), v)
      decreases Whites(Snapshot()), 1
    {
      if ValueIsWhite(Snapshot(), v) {
        ReallyMarkObject(v.ref);
      }
    }

    /** Marks what a stack, an array part, an array of upvalues or a list of roots holds. */
    method MarkAll(vs: seq<Value>)
      modifies this
      ensures Snapshot() == MarkValues(old(Snapshot()), vs)
    {
      var i := 0;
      while i < |vs|
        invariant i <= |vs|
        invariant MarkValues(Snapshot(), vs[i..]) == MarkValues(old(Snapshot()), vs)
      {
        MarkOne(vs[i]);
        assert vs[i..][1..] == vs[i + 1..];
        i := i + 1;
      }
    }

    /** iscleared */
    method Clears(v: Value) returns (clears: bool)
      modifies this
      ensures (Snapshot(), clears) == IsCleared(old(Snapshot()), v)
    {
      if !v.Obj? { return false; }
      if IsString(heap, v.ref) {
        MarkOne(v);
        return false;
      }
      return ValueIsWhite(Snapshot(), v);
    }

    // ---------- Traversing ----------

    method VisitStrongNode(n: Node) returns (m: Node)
      modifies this
      ensures (Snapshot(), m) == StrongNode(old(Snapshot()), n)
    {
      m := n;
      if n.val.Nil? {
        m := RemoveEntry(Snapshot(), n);
      } else {
        MarkOne(n.key);
        MarkOne(n.val);
      }
    }

    /** traversestrongtable */
    method TraverseStrong(o: Ref)
      requires o in heap.objs && heap.objs[o].Table?
      modifies this
      ensures Snapshot() == TraverseStrongTable(old(Snapshot()), o)
    {
      hide StrongSoFar, StrongNode, StrongEntries, MarkValues, MarkValue, Whites, Work;
      MarkAll(heap.objs[o].slots);
      ghost var s1 := Snapshot();
      var nodes := heap.objs[o].hash;
      ghost var ns := nodes;
      var i := 0;
      StrongStarts(s1, ns);
      while i < |nodes|
        invariant i <= |nodes| == |ns| && nodes[i..] == ns[i..]
        invariant Snapshot() == s1.(color := color, gray := gray)
        invariant StrongSoFar(s1, ns, nodes[..i], Snapshot(), i)
      {
        StrongNext(s1, ns, nodes[..i], Snapshot(), i);
        ghost var was := nodes;
        assert nodes[i] == nodes[i..][0] == ns[i];
        var m := VisitStrongNode(nodes[i]);
        nodes := nodes[i := m];
        assert nodes[..i + 1] == was[..i] + [m];
        i := i + 1;
        SoFarSame(s1, ns, nodes[..i], Snapshot(), i);
      }
      assert nodes[..i] == nodes;
      NothingLeft(Snapshot(), ns, nodes);
      heap := heap.(objs := heap.objs[o := heap.objs[o].(hash := nodes)]);
    }

    method VisitWeakNode(n: Node, hasclears: bool) returns (m: Node, clears: bool)
      modifies this
      ensures (Snapshot(), m, clears) == WeakNode(old(Snapshot()), n, hasclears)
    {
      m, clears := n, hasclears;
      if n.val.Nil? {
        m := RemoveEntry(Snapshot(), n);
      } else {
        MarkOne(n.key);
        if !clears {
          clears := Clears(n.val);
        }
      }
    }

    /** traverseweakvalue */
    method TraverseWeak(o: Ref)
      requires o in heap.objs && heap.objs[o].Table?
      modifies this
      ensures Snapshot() == TraverseWeakValue(old(Snapshot()), o)
    {
      hide WeakSoFar, WeakNode, WeakValueEntries, MarkValue, Whites, Work;
      ghost var s0 := Snapshot();
      var hasclears := |heap.objs[o].slots| > 0;
      ghost var clears0 := hasclears;
      var nodes := heap.objs[o].hash;
      ghost var ns := nodes;
      var i := 0;
      WeakStarts(s0, ns, hasclears);
      while i < |nodes|
        invariant i <= |nodes| == |ns| && nodes[i..] == ns[i..]
        invariant Snapshot() == s0.(color := color, gray := gray)
        invariant WeakSoFar(s0, ns, clears0, nodes[..i], Snapshot(), hasclears, i)
      {
        WeakNext(s0, ns, clears0, nodes[..i], Snapshot(), hasclears, i);
        ghost var was := nodes;
        assert nodes[i] == nodes[i..][0] == ns[i];
        var m, clears := VisitWeakNode(nodes[i], hasclears);
        nodes, hasclears := nodes[i := m], clears;
        assert nodes[..i + 1] == was[..i] + [m];
        i := i + 1;
        WeakSame(s0, ns, clears0, nodes[..i], Snapshot(), hasclears, i);
      }
      assert nodes[..i] == nodes;
      NothingLeft(Snapshot(), ns, nodes);
      heap := heap.(objs := heap.objs[o := heap.objs[o].(hash := nodes)]);
      if phase.Propagate? {
        grayagain := [o] + grayagain;
      } else if hasclears {
        weak := [o] + weak;
      }
    }

    method VisitEphemeronNode(n: Node, flags: Flags) returns (m: Node, f: Flags)
      modifies this
      ensures (Snapshot(), m, f) == EphemeronNode(old(Snapshot()), n, flags)
    {
      m, f := n, flags;
      if n.val.Nil? {
        m := RemoveEntry(Snapshot(), n);
      } else {
        var clears := Clears(n.key);
        if clears {
          f := f.(hasclears := true);
          if ValueIsWhite(Snapshot(), n.val) { f := f.(hasww := true); }
        } else if ValueIsWhite(Snapshot(), n.val) {
          f := f.(marked := true);
          MarkOne(n.val);
        }
      }
    }

    /** traverseephemeron */
    method TraverseEphemeronTable(o: Ref) returns (marked: bool)
      requires o in heap.objs && heap.objs[o].Table?
      modifies this
      ensures (Snapshot(), marked) == TraverseEphemeron(old(Snapshot()), o)
    {
      hide EphemeronSoFar, EphemeronNode, EphemeronEntries, EphemeronSlots, MarkValue, Whites, Work;
      marked := MarkSlots(heap.objs[o].slots);
      ghost var s1 := Snapshot();
      var nodes := heap.objs[o].hash;
      ghost var ns := nodes;
      var flags := Flags(false, false, false);
      var i := 0;
      EphemeronStarts(s1, ns);
      while i < |nodes|
        invariant i <= |nodes| == |ns| && nodes[i..] == ns[i..]
        invariant Snapshot() == s1.(color := color, gray := gray)
        invariant EphemeronSoFar(s1, ns, nodes[..i], Snapshot(), flags, i)
      {
        EphemeronNext(s1, ns, nodes[..i], Snapshot(), flags, i);
        ghost var was := nodes;
        assert nodes[i] == nodes[i..][0] == ns[i];
        var m, f := VisitEphemeronNode(nodes[i], flags);
        nodes, flags := nodes[i := m], f;
        assert nodes[..i + 1] == was[..i] + [m];
        i := i + 1;
        EphemeronSame(s1, ns, nodes[..i], Snapshot(), flags, i);
      }
      assert nodes[..i] == nodes;
      NothingLeft(Snapshot(), ns, nodes);
      heap := heap.(objs := heap.objs[o := heap.objs[o].(hash := nodes)]);
      if phase.Propagate? {
        grayagain := [o] + grayagain;
      } else if flags.hasww {
        ephemeron := [o] + ephemeron;
      } else if flags.hasclears {
        allweak := [o] + allweak;
      }
      marked := marked || flags.marked;
    }

    /** The array part of an ephemeron table. */
    method MarkSlots(vs: seq<Value>) returns (marked: bool)
      modifies this
      ensures (Snapshot(), marked) == EphemeronSlots(old(Snapshot()), vs)
    {
      marked := false;
      var i := 0;
      while i < |vs|
        invariant i <= |vs|
        invariant var r, p := EphemeronSlots(old(Snapshot()), vs), EphemeronSlots(Snapshot(), vs[i..]);
                  r.0 == p.0 && r.1 == (marked || p.1)
      {
        assert vs[i..][1..] == vs[i + 1..];
        if ValueIsWhite(Snapshot(), vs[i]) {
          marked := true;
          MarkOne(vs[i]);
        }
        i := i + 1;
      }
    }

    /** traversetable */
    method TraverseAnyTable(o: Ref)
      requires o in heap.objs && heap.objs[o].Table? && Marked(color, o)
      modifies this
      ensures Snapshot() == TraverseTable(old(Snapshot()), o)
    {
      MarkOne(heap.objs[o].metatable);
      match heap.objs[o].mode
      case Strong => TraverseStrong(o);
      case WeakValue =>
        color := color[o := Gray];
        TraverseWeak(o);
      case Ephemeron =>
        color := color[o := Gray];
        var _ := TraverseEphemeronTable(o);
      case AllWeak =>
        color := color[o := Gray];
        allweak := [o] + allweak;
    }

    /** propagatemark */
    method PropagateOne()
      requires gray != []
      modifies this
      ensures Snapshot() == PropagateMark(old(Snapshot()))
    {
      hide PropagateMark, TraverseGray, Whites, Work;
      PropagateTraverses(Snapshot());
      var o := gray[0];
      gray := gray[1..];
      if o in heap.objs && Marked(color, o) {
        color := color[o := Black];
        assert Snapshot() == PopGray(old(Snapshot()));
        TraverseObject(o);
      }
    }

    /** What propagatemark does with an object that has just become black. */
    method TraverseObject(o: Ref)
      requires o in heap.objs && Marked(color, o)
      modifies this
      ensures Snapshot() == TraverseGray(old(Snapshot()), o)
    {
      hide TraverseTable, MarkValues, PlainValues, Whites, Work;
      if heap.objs[o].Table? {
        TraverseAnyTable(o);
      } else if heap.objs[o].Thread? {
        grayagain := [o] + grayagain;
        color := color[o := Gray];
        MarkAll(heap.objs[o].stack);
      } else {
        MarkAll(PlainValues(heap, o));
      }
    }

    /** propagateall */
    method PropagateGray()
      modifies this
      ensures Snapshot() == PropagateAll(old(Snapshot()))
    {
      while gray != []
        invariant PropagateAll(Snapshot()) == PropagateAll(old(Snapshot()))
        decreases Work(Snapshot())
      {
        PropagateOne();
      }
    }

    // ---------- The atomic phase ----------

    /** convergeephemerons */
    method ConvergeEphemerons()
      modifies this
      ensures Snapshot() == Converge(old(Snapshot()))
    {
      var changed := true;
      hide ConvergePass, PropagateAll, TraverseEphemeron;
      while changed
        invariant if changed then Converge(Snapshot()) == Converge(old(Snapshot())) else Snapshot() == Converge(old(Snapshot()))
        decreases Whites(Snapshot()), changed
      {
        ghost var s := Snapshot();
        var next := ephemeron;
        ephemeron := [];
        assert Whites(Snapshot()) == Whites(s);
        changed := ConvergeOnce(next);
      }
    }

    /** The loop of convergeephemerons over the tables that were listed. */
    method ConvergeOnce(next: seq<Ref>) returns (changed: bool)
      modifies this
      ensures (Snapshot(), changed) == ConvergePass(old(Snapshot()), next)
    {
      hide PropagateAll, TraverseEphemeron, Whites, Work;
      changed := false;
      var i := 0;
      assert next[0..] == next;
      while i < |next|
        invariant i <= |next|
        invariant var r, p := ConvergePass(old(Snapshot()), next), ConvergePass(Snapshot(), next[i..]);
                  r.0 == p.0 && r.1 == (changed || p.1)
      {
        assert next[i..][1..] == next[i + 1..];
        if next[i] in heap.objs && heap.objs[next[i]].Table? {
          var marked := TraverseEphemeronTable(next[i]);
          if marked {
            PropagateGray();
            changed := true;
          }
        }
        i := i + 1;
      }
    }

    /** clearkeys (onKeys) and clearvalues, over one list of tables. */
    method ClearTables(q: seq<Ref>, onKeys: bool)
      modifies this
      ensures Snapshot() == Clear(old(Snapshot()), q, onKeys)
    {
      var i := 0;
      while i < |q|
        invariant i <= |q|
        invariant Clear(Snapshot(), q[i..], onKeys) == Clear(old(Snapshot()), q, onKeys)
      {
        assert q[i..][1..] == q[i + 1..];
        if q[i] in heap.objs && heap.objs[q[i]].Table? {
          ClearOne(q[i], onKeys);
        }
        i := i + 1;
      }
    }

    method ClearOne(o: Ref, onKeys: bool)
      requires o in heap.objs && heap.objs[o].Table?
      modifies this
      ensures Snapshot() == ClearTable(old(Snapshot()), o, onKeys)
    {
      var values := heap.objs[o].slots;
      if !onKeys {
        values := ClearArray(values);
      }
      var nodes := ClearNodes(heap.objs[o].hash, onKeys);
      heap := heap.(objs := heap.objs[o := heap.objs[o].(slots := values, hash := nodes)]);
    }

    /** The array part: what has not been marked becomes nil. */
    method ClearArray(vs: seq<Value>) returns (values: seq<Value>)
      modifies this
      ensures (Snapshot(), values) == ClearSlots(old(Snapshot()), vs) && heap == old(heap)
    {
      values := vs;
      var i := 0;
      hide ClearSlots, IsCleared, Whites, Work;
      SlotsStart(Snapshot(), vs);
      while i < |values|
        invariant i <= |values| == |vs| && values[i..] == vs[i..]
        invariant SlotsSoFar(old(Snapshot()), vs, values[..i], Snapshot(), i)
      {
        ghost var was := values;
        assert values[i] == values[i..][0] == vs[i];
        SlotsNext(old(Snapshot()), vs, values[..i], Snapshot(), i);
        var clears := Clears(values[i]);
        if clears {
          values := values[i := Nil];
        }
        assert values[..i + 1] == was[..i] + [values[i]] && values[i + 1..] == was[i + 1..];
        i := i + 1;
      }
      assert values[..i] == values;
      SlotsEnd(old(Snapshot()), vs, values, Snapshot());
    }

    method VisitClearNode(n: Node, onKeys: bool) returns (m: Node)
      modifies this
      ensures (Snapshot(), m) == ClearNode(old(Snapshot()), n, onKeys)
    {
      m := n;
      if !n.val.Nil? {
        var clears := Clears(if onKeys then n.key else n.val);
        if clears {
          m := RemoveEntry(Snapshot(), Node(n.key, Nil));
        }
      }
    }

    /** The hash part: entries whose key, or value, has not been marked become empty. */
    method ClearNodes(ns: seq<Node>, onKeys: bool) returns (nodes: seq<Node>)
      modifies this
      ensures (Snapshot(), nodes) == ClearEntries(old(Snapshot()), ns, onKeys) && heap == old(heap)
    {
      hide ClearSoFar, ClearNode, ClearEntries, Whites, Work;
      ghost var s0 := Snapshot();
      nodes := ns;
      var i := 0;
      ClearStarts(s0, ns, onKeys);
      while i < |nodes|
        invariant i <= |nodes| == |ns| && nodes[i..] == ns[i..]
        invariant Snapshot() == s0.(color := color, gray := gray)
        invariant ClearSoFar(s0, ns, onKeys, nodes[..i], Snapshot(), i)
      {
        ClearNext(s0, ns, onKeys, nodes[..i], Snapshot(), i);
        ghost var was := nodes;
        assert nodes[i] == nodes[i..][0] == ns[i];
        var m := VisitClearNode(nodes[i], onKeys);
        nodes := nodes[i := m];
        assert nodes[..i + 1] == was[..i] + [m];
        i := i + 1;
        ClearSame(s0, ns, onKeys, nodes[..i], Snapshot(), i);
      }
      assert nodes[..i] == nodes;
      NothingLeft(Snapshot(), ns, nodes);
    }

    /** separatetobefnz(g, 0) */
    method Separate()
      modifies this
      ensures Snapshot() == SeparateToBeFnz(old(Snapshot()))
    {
      hide Keep, IsWhite;
      var s := Snapshot();
      var kept, moved: seq<Ref> := [], [];
      var i := 0;
      SeparateStarts(s, finobj);
      while i < |finobj|
        invariant i <= |finobj| && Snapshot() == s
        invariant Separated(s, finobj, kept, moved, i)
      {
        SeparateNext(s, finobj, kept, moved, i);
        if IsWhite(s, finobj[i]) {
          moved := moved + [finobj[i]];
        } else {
          kept := kept + [finobj[i]];
        }
        i := i + 1;
      }
      SeparateEnds(s, finobj, kept, moved);
      finobj, tobefnz := kept, tobefnz + moved;
    }

    /** The first part of atomic: what is strongly accessible is marked. */
    method AtomicMarking()
      modifies this
      ensures Snapshot() == AtomicMark(old(Snapshot()))
    {
      hide PropagateAll, MarkValues, Converge, Whites, Work;
      var revisit := grayagain;
      phase := InsideAtomic;
      MarkAll([Obj(running), registry] + basicmt);
      PropagateGray();
      gray := revisit;
      PropagateGray();
      ConvergeEphemerons();
    }

    method ClearLists(q: seq<Ref>, p: seq<Ref>, onKeys: bool)
      modifies this
      ensures Snapshot() == ClearBoth(old(Snapshot()), q, p, onKeys)
    {
      ClearTables(q, onKeys);
      ClearTables(p, onKeys);
    }

    /** markbeingfnz, propagateall and the second convergence. */
    method ResurrectObjects()
      modifies this
      ensures Snapshot() == Resurrect(old(Snapshot()))
    {
      hide PropagateAll, MarkValues, Converge, Whites, Work;
      MarkAll(ObjValues(tobefnz));
      PropagateGray();
      ConvergeEphemerons();
    }

    /** atomic */
    method AtomicPhase()
      modifies this
      ensures Snapshot() == AtomicStep(old(Snapshot()))
    {
      hide AtomicMark, ClearBoth, Resurrect, SeparateToBeFnz;
      AtomicMarking();
      ClearLists(weak, allweak, false);
      var origweak, origall := weak, allweak;
      Separate();
      ResurrectObjects();
      ClearLists(ephemeron, allweak, true);
      ClearLists(NewPart(weak, origweak), NewPart(allweak, origall), false);
      white := !white;
    }

    // ---------- Sweeping ----------

    /** makewhite */
    method Whiten(o: Ref)
      modifies this
      ensures Snapshot() == MakeWhite(old(Snapshot()), o)
    {
      color := color[o := White(white)];
    }

    /** *p = curr->next */
    method Unlink(l: ListName, i: nat)
      requires i < |ListOf(Snapshot(), l)|
      modifies this
      ensures var q := ListOf(old(Snapshot()), l);
              Snapshot() == SetList(old(Snapshot()), l, q[..i] + q[i + 1..])
    {
      match l
      case AllGc => allgc := allgc[..i] + allgc[i + 1..];
      case FinObj => finobj := finobj[..i] + finobj[i + 1..];
      case ToBeFnz => tobefnz := tobefnz[..i] + tobefnz[i + 1..];
    }

    /** freeobj */
    method FreeObject(o: Ref)
      modifies this
      ensures Snapshot() == Free(old(Snapshot()), o)
    {
      heap := heap.(objs := heap.objs - {o});
      color := color - {o};
      finalizable := finalizable - {o};
    }

    /** One round of sweeplist: the object the cursor points at is freed, or turns white. */
    method SweepNext(p: Cursor) returns (r: Cursor)
      requires Todo(Snapshot(), p) != []
      modifies this
      ensures (Snapshot(), r) == SweepOne(old(Snapshot()), p)
    {
      PlaceFound(Snapshot(), p);
      SweepOneIs(Snapshot(), p);
      hide PlaceOf, Todo, SetList, Free, IndexOf, SweepOne, ListOf, MakeWhite, IsDead;
      var At(l, i) := PlaceOf(Snapshot(), p);
      var o := ListOf(Snapshot(), l)[i];
      if IsDead(Snapshot(), o) {
        Unlink(l, i);
        FreeObject(o);
        r := p;
      } else {
        Whiten(o);
        r := After(o);
      }
    }

    /** sweeplist */
    method Sweep(start: Cursor, count: nat) returns (p: Cursor)
      modifies this
      ensures (Snapshot(), p) == SweepList(old(Snapshot()), start, count)
    {
      hide Todo, SweepOne;
      p := start;
      var left := count;
      while Todo(Snapshot(), p) != [] && left > 0
        invariant SweepList(Snapshot(), p, left) == SweepList(old(Snapshot()), start, count)
        decreases left
      {
        p := SweepNext(p);
        left := left - 1;
      }
      if Todo(Snapshot(), p) == [] {
        p := NoCursor;
      }
    }

    /** sweeptolive: as long as the cursor stays, an object has been freed. */
    method SweepUntilLive(start: Cursor) returns (p: Cursor)
      modifies this
      ensures (Snapshot(), p) == SweepToLive(old(Snapshot()), start)
    {
      hide SweepList;
      var before := Count(Snapshot());
      p := Sweep(start, 1);
      while p == start && Count(Snapshot()) < before
        invariant SweepToLive(old(Snapshot()), start) ==
                  if p == start && Count(Snapshot()) < before then SweepToLive(Snapshot(), start) else (Snapshot(), p)
        decreases before
      {
        before := Count(Snapshot());
        p := Sweep(start, 1);
      }
    }

    /** entersweep */
    method EnterSweepPhase()
      modifies this
      ensures Snapshot() == EnterSweep(old(Snapshot()))
    {
      hide SweepToLive;
      phase := SweepAllGc;
      var p := SweepUntilLive(Head(AllGc));
      sweepgc := p;
    }

    /** sweepstep */
    method SweepSome(next: Phase, list: Cursor, max: nat)
      modifies this
      ensures Snapshot() == SweepStep(old(Snapshot()), next, list, max)
    {
      hide SweepList;
      if sweepgc != NoCursor {
        var p := Sweep(sweepgc, max);
        sweepgc := p;
        if p != NoCursor { return; }
      }
      phase, sweepgc := next, list;
    }

    // ---------- Finalizers ----------

    /** udata2finalize and GCTM */
    method CallOneFinalizer()
      requires tobefnz != []
      modifies this
      ensures Snapshot() == CallFinalizer(old(Snapshot()))
    {
      hide ToFinalize, Push;
      var o := TakeFinalizable();
      PushObject(o);
    }

    /** udata2finalize */
    method TakeFinalizable() returns (o: Ref)
      requires tobefnz != []
      modifies this
      ensures o == old(tobefnz[0]) && Snapshot() == ToFinalize(old(Snapshot()))
    {
      o := tobefnz[0];
      tobefnz := tobefnz[1..];
      allgc := [o] + allgc;
      finalizable := finalizable - {o};
      if IsSweepPhase(Snapshot()) {
        Whiten(o);
      }
    }

    method PushObject(o: Ref)
      modifies this
      ensures Snapshot() == Push(old(Snapshot()), o)
    {
      if running in heap.objs && heap.objs[running].Thread? {
        heap := heap.(objs := heap.objs[running := Thread([Obj(o)] + heap.objs[running].stack)]);
      }
    }

    /** The search of luaC_checkfinalizer through 'allgc', which takes the object off the list. */
    method TakeFromAllGc(o: Ref)
      modifies this
      ensures Snapshot() == old(Snapshot()).(allgc := Without(old(allgc), o))
    {
      var i := 0;
      while i < |allgc| && allgc[i] != o
        invariant i <= |allgc| && o !in allgc[..i] && Snapshot() == old(Snapshot())
      {
        assert allgc[..i + 1] == allgc[..i] + [allgc[i]];
        i := i + 1;
      }
      if i < |allgc| {
        FirstIndex(allgc, o, i);
        allgc := allgc[..i] + allgc[i + 1..];
      } else {
        assert allgc[..i] == allgc;
      }
    }

    /** luaC_checkfinalizer */
    method GiveFinalizer(o: Ref)
      modifies this
      ensures Snapshot() == CheckFinalizer(old(Snapshot()), o)
    {
      hide SweepToLive, Without;
      if o in finalizable { return; }
      if IsSweepPhase(Snapshot()) {
        Whiten(o);
        if sweepgc == After(o) {
          var p := SweepUntilLive(sweepgc);
          sweepgc := p;
        }
      }
      TakeFromAllGc(o);
      finobj := [o] + finobj;
      finalizable := finalizable + {o};
    }

    // ---------- Barriers and allocation ----------

    /** luaC_barrier, after a store into o. */
    method ForwardBarrier(o: Ref, v: Value)
      modifies this
      ensures Snapshot() == Barrier(old(Snapshot()), o, v)
    {
      if IsColor(color, o, Black) && ValueIsWhite(Snapshot(), v) {
        if KeepInvariant(Snapshot()) {
          ReallyMarkObject(v.ref);
        } else {
          Whiten(o);
        }
      }
    }

    /** luaC_barrierback, after a store into table t. */
    method BackBarrier(t: Ref, v: Value)
      modifies this
      ensures Snapshot() == BarrierBack(old(Snapshot()), t, v)
    {
      if IsColor(color, t, Black) && ValueIsWhite(Snapshot(), v) {
        color := color[t := Gray];
        grayagain := [t] + grayagain;
      }
    }

    /** luaC_upvalbarrier, after a store into a closed upvalue. */
    method UpvalueBarrier(v: Value)
      modifies this
      ensures Snapshot() == UpvalBarrier(old(Snapshot()), v)
    {
      if v.Obj? && KeepInvariant(Snapshot()) {
        MarkOne(v);
      }
    }

    /** luaC_newobj */
    method NewObj(p: Payload) returns (o: Ref)
      modifies this
      ensures Snapshot() == NewObject(old(Snapshot()), p) && o == old(nextref)
    {
      o := nextref;
      nextref := nextref + 1;
      heap := heap.(objs := heap.objs[o := p]);
      color := color[o := White(white)];
      allgc := [o] + allgc;
    }

    // ---------- Steps and cycles ----------

    method ClearGrayLists()
      modifies this
      ensures Snapshot() == Emptied(old(Snapshot()))
    {
      gray := [];
      grayagain := [];
      ClearWeakLists();
    }

    method ClearWeakLists()
      modifies this
      ensures Snapshot() == old(Snapshot()).(weak := [], allweak := [], ephemeron := [])
    {
      weak := [];
      allweak := [];
      ephemeron := [];
    }

    /** restartcollection */
    method RestartCollection()
      modifies this
      ensures Snapshot() == MarkValues(Emptied(old(Snapshot())), StartValues(old(Snapshot())))
    {
      hide MarkValues, StartValues, Whites, Work;
      var roots := StartValues(Snapshot());
      ClearGrayLists();
      MarkAll(roots);
    }

    /** singlestep */
    method OneStep(max: nat, emergency: bool)
      modifies this
      ensures Snapshot() == SingleStep(old(Snapshot()), max, emergency)
    {
      hide PropagateMark, PropagateAll, AtomicStep, EnterSweep, SweepStep, CallFinalizer, MarkValues, StartValues;
      match phase
      case Pause =>
        RestartCollection();
        phase := Propagate;
      case Propagate =>
        if gray != [] { PropagateOne(); }
        if gray == [] { phase := Atomic; }
      case Atomic =>
        PropagateGray();
        AtomicPhase();
        EnterSweepPhase();
      case SweepAllGc => SweepSome(SweepFinObj, Head(FinObj), max);
      case SweepFinObj => SweepSome(SweepToBeFnz, Head(ToBeFnz), max);
      case SweepToBeFnz => SweepSome(SweepEnd, NoCursor, max);
      case SweepEnd =>
        Whiten(mainthread);
        phase := CallFin;
      case CallFin =>
        if tobefnz != [] && !emergency {
          CallOneFinalizer();
        } else {
          phase := Pause;
        }
      case InsideAtomic =>
    }

    /** luaC_runtilstate(L, bitmask(GCSpause)) */
    method RunUntilPause(max: nat, emergency: bool, ghost N: set<Ref>)
      requires max > 0 && Fine(Snapshot(), N)
      modifies this
      ensures Fine(Snapshot(), N) && phase.Pause?
      ensures emergency && !KeepInvariant(old(Snapshot())) ==>
                forall M :: Surrounds(old(Snapshot()), M) ==> Surrounds(Snapshot(), M)
      ensures !KeepInvariant(old(Snapshot())) ==> forall M :: Encloses(old(Snapshot()), M) ==> Encloses(Snapshot(), M)
    {
      hide Fine, SingleStep, WorkLeft, Surrounds, Encloses;
      while !phase.Pause?
        invariant Fine(Snapshot(), N)
        invariant emergency && !KeepInvariant(old(Snapshot())) ==>
                    !KeepInvariant(Snapshot()) && forall M :: Surrounds(old(Snapshot()), M) ==> Surrounds(Snapshot(), M)
        invariant !KeepInvariant(old(Snapshot())) ==>
                    !KeepInvariant(Snapshot()) && forall M :: Encloses(old(Snapshot()), M) ==> Encloses(Snapshot(), M)
        decreases PhasesLeft(phase), WorkLeft(Snapshot())
      {
        ghost var s := Snapshot();
        StepDescends(s, max, emergency, N);
        StepFine(s, max, emergency, N);
        FineIsGood(s, N);
        if !KeepInvariant(s) {
          if emergency {
            IdleSurrounds(s, max, N);
          }
          StepLeavesMarking(s, max, emergency, N);
          forall M | Encloses(s, M) ensures Encloses(SingleStep(s, max, emergency), M) {
            StepEncloses(s, max, emergency, N, M);
          }
        }
        OneStep(max, emergency);
      }
    }

    /** luaC_runtilstate(L, bitmask(GCScallfin)), when a cycle has been started. */
    method RunUntilCallFin(max: nat, emergency: bool, ghost N: set<Ref>, ghost start: State)
      requires max > 0 && Fine(Snapshot(), N) && !phase.Pause?
      requires emergency ==> forall M :: Surrounds(start, M) ==> Good(Snapshot(), M)
      requires forall M :: Encloses(start, M) ==> Fine(Snapshot(), M)
      modifies this
      ensures Fine(Snapshot(), N) && phase.CallFin?
      ensures emergency ==> forall M :: Surrounds(start, M) ==> Good(Snapshot(), M)
      ensures forall M :: Encloses(start, M) ==> Fine(Snapshot(), M)
    {
      hide Fine, Good, SingleStep, WorkLeft, Surrounds, Encloses;
      while !phase.CallFin?
        invariant Fine(Snapshot(), N) && !phase.Pause?
        invariant emergency ==> forall M :: Surrounds(start, M) ==> Good(Snapshot(), M)
        invariant forall M :: Encloses(start, M) ==> Fine(Snapshot(), M)
        decreases PhasesLeft(phase), WorkLeft(Snapshot())
      {
        ghost var s := Snapshot();
        StepDescends(s, max, emergency, N);
        StepFine(s, max, emergency, N);
        FineIsGood(s, N);
        StepNotPause(s, max, emergency, N);
        if emergency {
          forall M | Surrounds(start, M) ensures Good(SingleStep(s, max, true), M) {
            StepIdle(s, max, M);
          }
        }
        forall M | Encloses(start, M) ensures Fine(SingleStep(s, max, emergency), M) {
          StepFine(s, max, emergency, M);
        }
        OneStep(max, emergency);
      }
    }

    /** luaC_runtilstate(L, bitmask(GCSpause)) at the end of a cycle: every finalizer that is due is called. */
    method RunFinalizers(max: nat, emergency: bool, ghost N: set<Ref>)
      requires max > 0 && Fine(Snapshot(), N) && phase.CallFin?
      modifies this
      ensures Fine(Snapshot(), N) && phase.Pause? && heap.objs.Keys <= old(heap.objs.Keys)
      ensures !emergency ==> tobefnz == []
    {
      hide Fine, SingleStep, WorkLeft;
      while !phase.Pause?
        invariant Fine(Snapshot(), N) && heap.objs.Keys <= old(heap.objs.Keys)
        invariant phase.CallFin? || (phase.Pause? && (emergency || tobefnz == []))
        decreases PhasesLeft(phase), WorkLeft(Snapshot())
      {
        ghost var s := Snapshot();
        StepDescends(s, max, emergency, N);
        StepFine(s, max, emergency, N);
        StepShrinks(s, max, emergency, N);
        OneStep(max, emergency);
      }
    }

    /** luaC_fullgc terminates and frees everything that was out of reach of the roots and of the objects with finalizers
        when it was called. In emergency mode, where no finalizer is called, it also frees what is outside any set that
        contains these and is closed under the references that keep objects alive; else every finalizer that is due has
        been called. */
    method FullGC(max: nat, emergency: bool, ghost M0: set<Ref>)
      requires max > 0 && Fine(Snapshot(), M0)
      modifies this
      ensures phase.Pause? && exists N :: Fine(Snapshot(), N)
      ensures forall r :: r in heap.objs ==> Reachable(old(Snapshot()), r)
      ensures emergency ==> forall M :: Surrounds(old(Snapshot()), M) ==> forall r :: r in heap.objs ==> r in M
      ensures !emergency ==> tobefnz == []
    {
      hide Fine, Good, SingleStep, Surrounds, Encloses, Reachable, ReachableSet;
      ghost var s0 := Snapshot();
      ghost var N := M0;
      if KeepInvariant(Snapshot()) {
        AbandonFine(s0, M0);
        forall M | Surrounds(s0, M) ensures Surrounds(AbandonMarking(s0), M) {
          AbandonSurrounds(s0, M0, M);
        }
        forall M | Encloses(s0, M) ensures Encloses(AbandonMarking(s0), M) {
          AbandonEncloses(s0, M0, M);
        }
        AbandonLeaves(s0, M0);
        N := M0 + s0.heap.objs.Keys;
        EnterSweepPhase();
      }
      RunUntilPause(max, emergency, N);
      ghost var s1 := Snapshot();
      StepFine(s1, max, emergency, N);
      forall M | Surrounds(s1, M) ensures Good(SingleStep(s1, max, emergency), M) {
        RestartFor(s1, max, emergency, M, N);
      }
      forall M | Encloses(s1, M) ensures Fine(SingleStep(s1, max, emergency), M) {
        PauseEncloses(s1, N, M);
        StepFine(s1, max, emergency, M);
      }
      RestartsPropagating(s1, max, emergency);
      OneStep(max, emergency);
      RunUntilCallFin(max, emergency, N, s1);
      ghost var s2 := Snapshot();
      CycleLeaves(s1, s2, emergency);
      ReachableEncloses(s0, M0);
      ReachedIs(s0);
      RunFinalizers(max, emergency, N);
    }
  }

  lemma ReachedIs(s: State)
    ensures forall r :: r in ReachableSet(s) ==> Reachable(s, r)
  {
    hide Reachable;
  }

  /** When the finalizers are called, everything outside the sets that enclose the data is gone. */
  lemma CycleLeaves(s1: State, s2: State, emergency: bool)
    requires s2.phase.CallFin?
    requires emergency ==> forall M :: Surrounds(s1, M) ==> Good(s2, M)
    requires forall M :: Encloses(s1, M) ==> Fine(s2, M)
    ensures emergency ==> forall M :: Surrounds(s1, M) ==> forall r :: r in s2.heap.objs ==> r in M
    ensures forall M :: Encloses(s1, M) ==> forall r :: r in s2.heap.objs ==> r in M
  {
    hide *;
    forall M, r | Encloses(s1, M) && r in s2.heap.objs ensures r in M {
      FineIsGood(s2, M);
      CallFinWithin(s2, M, r);
    }
    if emergency {
      forall M, r | Surrounds(s1, M) && r in s2.heap.objs ensures r in M {
        CallFinWithin(s2, M, r);
      }
    }
  }

  lemma FineIsGood(s: State, M: set<Ref>)
    requires Fine(s, M)
    ensures Good(s, M)
  {
  }

  lemma RestartFor(s: State, max: nat, emergency: bool, M: set<Ref>, N: set<Ref>)
    requires Fine(s, N) && s.phase.Pause? && Surrounds(s, M)
    ensures Good(SingleStep(s, max, emergency), M)
  {
    hide Good, Surrounds, SingleStep;
    StepIs(s, max, emergency);
    PauseAnySet(s, M, N);
    RestartGood(s, M);
  }

  lemma RestartsPropagating(s: State, max: nat, emergency: bool)
    requires s.phase.Pause?
    ensures !SingleStep(s, max, emergency).phase.Pause?
  {
  }

  lemma AbandonLeaves(s: State, N: set<Ref>)
    requires Fine(s, N) && KeepInvariant(s)
    ensures !KeepInvariant(EnterSweep(s)) && AbandonMarking(s) == EnterSweep(s)
  {
    WidenGood(s, N);
    AbandonFlips(s, N + s.heap.objs.Keys);
    hide Good, EnterSweep;
    LuaCycle.EnterSweepPhase(s, N + s.heap.objs.Keys);
  }
}
