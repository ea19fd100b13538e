/** Clearing dead entries from weak tables: clearkeys and clearvalues (lgc.c:639-674). */
module LuaClear {
  import opened LuaObjects
  import opened LuaMark
  import opened LuaTraverse
  import opened LuaPropagate

  function ClearSlots(s: State, vs: seq<Value>): (r: (State, seq<Value>))
    ensures Whites(r.0) <= Whites(s) && r.0.heap == s.heap && |r.1| == |vs|
    decreases |vs|
  {
    if vs == [] then (s, [])
    else
      var (s1, clears) := IsCleared(s, vs[0]);
      var (t, ws) := ClearSlots(s1, vs[1..]);
      (t, [if clears then Nil else vs[0]] + ws)
  }

  /** One pass of clearkeys (on keys) or of clearvalues (on values) over the hash part of a table. */
  function ClearEntries(s: State, ns: seq<Node>, onKeys: bool): (r: (State, seq<Node>))
    ensures Whites(r.0) <= Whites(s) && r.0.heap == s.heap
    decreases |ns|
  {
    if ns == [] then (s, [])
    else
      var n := ns[0];
      if n.val.Nil? then
        var (t, ms) := ClearEntries(s, ns[1..], onKeys);
        (t, [n] + ms)
      else
        var (s1, clears) := IsCleared(s, if onKeys then n.key else n.val);
        var (t, ms) := ClearEntries(s1, ns[1..], onKeys);
        (t, [if clears then RemoveEntry(s1, Node(n.key, Nil)) else n] + ms)
  }

  function SetTable(s: State, o: Ref, vs: seq<Value>, ns: seq<Node>): State
    requires o in s.heap.objs && s.heap.objs[o].Table?
  {
    s.(heap := s.heap.(objs := s.heap.objs[o := s.heap.objs[o].(slots := vs, hash := ns)]))
  }

  function ClearTable(s: State, o: Ref, onKeys: bool): (t: State)
    requires o in s.heap.objs && s.heap.objs[o].Table?
    ensures Whites(t) <= Whites(s)
  {
    var (s1, vs) := if onKeys then (s, s.heap.objs[o].slots) else ClearSlots(s, s.heap.objs[o].slots);
    var (s2, ns) := ClearEntries(s1, s.heap.objs[o].hash, onKeys);
    var t := SetTable(s2, o, vs, ns);
    assert Whites(t) == Whites(s2);
    t
  }

  /** clearkeys (onKeys) and clearvalues, over the tables of a list. */
  function Clear(s: State, q: seq<Ref>, onKeys: bool): (t: State)
    ensures Whites(t) <= Whites(s)
    decreases |q|
  {
    if q == [] then s
    else if q[0] !in s.heap.objs || !s.heap.objs[q[0]].Table? then Clear(s, q[1..], onKeys)
    else Clear(ClearTable(s, q[0], onKeys), q[1..], onKeys)
  }

  // ---------- What clearing keeps, removes and leaves ----------

  /** The state after clearing: strings may have been marked, and tables hold less. */
  ghost predicate Clears(s: State, t: State) {
    && t == s.(heap := t.heap, color := t.color)
    && MarksGrow(s.color, t.color) && OnlyStrings(s.heap, s.color, t.color)
    && Thins(s.heap, t.heap)
  }

  lemma ThinsTransitive(h: Heap, k: Heap, l: Heap)
    requires Thins(h, k) && Thins(k, l)
    ensures Thins(h, l)
  {
    forall o | o in h.objs && o in l.objs
      ensures || l.objs[o] == h.objs[o]
              || (&& h.objs[o].Table? && l.objs[o].Table?
                  && l.objs[o] == h.objs[o].(slots := l.objs[o].slots, hash := l.objs[o].hash)
                  && (forall v: Value :: v in l.objs[o].slots && v.Obj? ==> v in h.objs[o].slots)
                  && (forall n: Node :: n in l.objs[o].hash && !n.val.Nil? ==> n in h.objs[o].hash)
                  && KeysFrom(h.objs[o].hash, l.objs[o].hash))
    {
      assert o in k.objs;
    }
  }

  lemma ClearsTransitive(s: State, t: State, u: State)
    requires Clears(s, t) && Clears(t, u)
    ensures Clears(s, u)
  {
    ThinsTransitive(s.heap, t.heap, u.heap);
    ThinRefers(s.heap, t.heap);
    hide Thins;
  }

  /** Every value of ms is settled; what is missing from vs was an unmarked object that is no string. */
  ghost predicate SlotsCleared(h: Heap, color: map<Ref, Color>, vs: seq<Value>, ws: seq<Value>) {
    && |ws| == |vs|
    && forall i :: 0 <= i < |vs| ==>
         if KeyStays(h, color, vs[i]) then ws[i] == vs[i] && ValueSettled(color, vs[i]) else ws[i] == Nil
  }

  function Cleared(n: Node, onKeys: bool): Value {
    if onKeys then n.key else n.val
  }

  /** An entry stays exactly if its key (or value) is no object, a string, or marked; a removed one is empty. */
  ghost predicate EntriesCleared(h: Heap, color: map<Ref, Color>, ns: seq<Node>, ms: seq<Node>, onKeys: bool) {
    && |ms| == |ns|
    && forall i :: 0 <= i < |ns| ==>
         if ns[i].val.Nil? then ms[i] == ns[i]
         else if KeyStays(h, color, Cleared(ns[i], onKeys)) then
           ms[i] == ns[i] && ValueSettled(color, Cleared(ns[i], onKeys))
         else ms[i].val.Nil? && (ms[i].key == ns[i].key || ms[i].key.DeadKey?)
  }

  lemma SlotsClearedCons(h: Heap, color: map<Ref, Color>, vs: seq<Value>, w: Value, ws: seq<Value>)
    requires vs != [] && SlotsCleared(h, color, vs[1..], ws)
    requires if KeyStays(h, color, vs[0]) then w == vs[0] && ValueSettled(color, vs[0]) else w == Nil
    ensures SlotsCleared(h, color, vs, [w] + ws)
  {
  }

  lemma EntriesClearedCons(h: Heap, color: map<Ref, Color>, ns: seq<Node>, m: Node, ms: seq<Node>, onKeys: bool)
    requires ns != [] && EntriesCleared(h, color, ns[1..], ms, onKeys)
    requires if ns[0].val.Nil? then m == ns[0]
             else if KeyStays(h, color, Cleared(ns[0], onKeys)) then
               m == ns[0] && ValueSettled(color, Cleared(ns[0], onKeys))
             else m.val.Nil? && (m.key == ns[0].key || m.key.DeadKey?)
    ensures EntriesCleared(h, color, ns, [m] + ms, onKeys)
  {
  }

  lemma {:induction false} ClearSlotsClears(s: State, vs: seq<Value>, X: set<Ref>, c: Context)
    requires Inv(s, X, c)
    requires forall x :: x in X ==> Marked(s.color, x)
    requires forall v :: v in vs ==> StringIn(s.heap, v, c.within) && Allocated(s.heap, v)
    ensures var (t, ws) := ClearSlots(s, vs);
            && Inv(t, X, c) && Grow(s, t) && OnlyStrings(s.heap, s.color, t.color) && t.gray == s.gray
            && SlotsCleared(t.heap, t.color, vs, ws)
    decreases |vs|
  {
    if vs == [] {
      GrowReflexive(s);
    } else {
      hide Inv, Grow, Whites, Work, SlotsCleared, OnlyStrings, IsCleared, IsString;
      assert vs == [vs[0]] + vs[1..];
      IsClearedKeeps(s, vs[0], X, c);
      var (s1, clears) := IsCleared(s, vs[0]);
      GrowFrame(s, s1);
      ClearSlotsClears(s1, vs[1..], X, c);
      var (t, ws) := ClearSlots(s1, vs[1..]);
      GrowTransitive(s, s1, t);
      OnlyStringsTransitive(s, s1, t);
      StaysAgree(s1, t, vs[0]);
      GrowSettledAll(s1, t);
      SlotsClearedCons(t.heap, t.color, vs, if clears then Nil else vs[0], ws);
    }
  }

  lemma StaysAgree(s: State, t: State, v: Value)
    requires Grow(s, t) && OnlyStrings(s.heap, s.color, t.color)
    ensures KeyStays(t.heap, t.color, v) == KeyStays(s.heap, s.color, v)
  {
  }

  lemma GrowSettledAll(s: State, t: State)
    requires Grow(s, t)
    ensures forall v :: ValueSettled(s.color, v) ==> ValueSettled(t.color, v)
  {
  }

  lemma {:induction false} ClearEntriesClears(s: State, ns: seq<Node>, onKeys: bool, X: set<Ref>, c: Context)
    requires Inv(s, X, c)
    requires forall x :: x in X ==> Marked(s.color, x)
    requires forall n :: n in ns && !n.val.Nil? ==>
               StringIn(s.heap, Cleared(n, onKeys), c.within) && Allocated(s.heap, Cleared(n, onKeys))
    ensures var (t, ms) := ClearEntries(s, ns, onKeys);
            && Inv(t, X, c) && Grow(s, t) && OnlyStrings(s.heap, s.color, t.color) && t.gray == s.gray
            && EntriesCleared(t.heap, t.color, ns, ms, onKeys)
    decreases |ns|
  {
    if ns == [] {
      GrowReflexive(s);
    } else {
      hide Inv, Grow, Whites, Work, EntriesCleared, OnlyStrings, IsCleared, IsString;
      var n := ns[0];
      assert ns == [n] + ns[1..];
      if n.val.Nil? {
        ClearEntriesClears(s, ns[1..], onKeys, X, c);
        var (t, ms) := ClearEntries(s, ns[1..], onKeys);
        EntriesClearedCons(t.heap, t.color, ns, n, ms, onKeys);
      } else {
        var v := Cleared(n, onKeys);
        IsClearedKeeps(s, v, X, c);
        var (s1, clears) := IsCleared(s, v);
        GrowFrame(s, s1);
        ClearEntriesClears(s1, ns[1..], onKeys, X, c);
        var (t, ms) := ClearEntries(s1, ns[1..], onKeys);
        GrowTransitive(s, s1, t);
        OnlyStringsTransitive(s, s1, t);
        StaysAgree(s1, t, v);
        GrowSettledAll(s1, t);
        EntriesClearedCons(t.heap, t.color, ns, if clears then RemoveEntry(s1, Node(n.key, Nil)) else n, ms, onKeys);
      }
    }
  }

  /** After clearvalues all values of o are settled; after clearkeys all its keys are. */
  ghost predicate Clean(s: State, o: Ref, onKeys: bool) {
    o in s.heap.objs && s.heap.objs[o].Table? &&
    if onKeys then KeysSettled(s.color, s.heap.objs[o].hash)
    else SlotsSettled(s.color, s.heap.objs[o].slots) && ValsSettled(s.color, s.heap.objs[o].hash)
  }

  lemma CleanStays(s: State, t: State, o: Ref, onKeys: bool)
    requires Clean(s, o, onKeys) && Thins(s.heap, t.heap) && forall r :: Marked(s.color, r) ==> Marked(t.color, r)
    ensures Clean(t, o, onKeys)
  {
    assert o in t.heap.objs;
  }

  lemma TableStrings(h: Heap, o: Ref, M: set<Ref>)
    requires o in h.objs && h.objs[o].Table? && Follows(h, o, M)
    ensures forall v :: v in h.objs[o].slots ==> StringIn(h, v, M)
    ensures forall n :: n in h.objs[o].hash && !n.val.Nil? ==> StringIn(h, n.key, M) && StringIn(h, n.val, M)
  {
  }

  lemma ClearTableKeeps(s: State, o: Ref, onKeys: bool, c: Context)
    requires Inv(s, {}, c) && o in c.within && o in s.heap.objs && s.heap.objs[o].Table?
    ensures var t := ClearTable(s, o, onKeys);
            Inv(t, {}, c) && Clears(s, t) && Clean(t, o, onKeys)
  {
    ClearPasses(s, o, onKeys, c);
    var p := s.heap.objs[o];
    var (s1, vs) := if onKeys then (s, p.slots) else ClearSlots(s, p.slots);
    var (s2, ns) := ClearEntries(s1, p.hash, onKeys);
    GrowFrame(s, s2);
    hide Inv, Whites, Work, SlotsCleared, EntriesCleared, OnlyStrings, Thins, Clean, Clears, Grow, ClearSlots, ClearEntries;
    var t := SetTable(s2, o, vs, ns);
    SetTableThins(s2, o, vs, ns, onKeys);
    SetTableClean(s2, o, vs, ns, onKeys);
    ThinKeeps(s2, t.heap, {}, c);
    SetTableClears(s, s2, t);
  }

  lemma SlotsClearedStays(s: State, t: State, vs: seq<Value>, ws: seq<Value>)
    requires Grow(s, t) && OnlyStrings(s.heap, s.color, t.color) && SlotsCleared(s.heap, s.color, vs, ws)
    ensures SlotsCleared(t.heap, t.color, vs, ws)
  {
    forall v ensures KeyStays(t.heap, t.color, v) == KeyStays(s.heap, s.color, v) {
      StaysAgree(s, t, v);
    }
    GrowSettledAll(s, t);
    hide KeyStays, ValueSettled;
  }

  /** Both passes over a table, before its new contents are stored. */
  lemma ClearPasses(s: State, o: Ref, onKeys: bool, c: Context)
    requires Inv(s, {}, c) && o in c.within && o in s.heap.objs && s.heap.objs[o].Table?
    ensures var p := s.heap.objs[o];
            var (s1, vs) := if onKeys then (s, p.slots) else ClearSlots(s, p.slots);
            var (s2, ns) := ClearEntries(s1, p.hash, onKeys);
            && Inv(s2, {}, c) && Grow(s, s2) && s2.gray == s.gray && OnlyStrings(s.heap, s.color, s2.color)
            && EntriesCleared(s2.heap, s2.color, p.hash, ns, onKeys)
            && (if onKeys then vs == p.slots else SlotsCleared(s2.heap, s2.color, p.slots, vs))
  {
    TableValues(s, o, {}, c);
    TableStrings(s.heap, o, c.within);
    hide Inv, Follows, Whites, Work, SlotsCleared, EntriesCleared, OnlyStrings, Grow, IsString;
    var p := s.heap.objs[o];
    if onKeys {
      ClearEntriesClears(s, p.hash, onKeys, {}, c);
    } else {
      ClearSlotsClears(s, p.slots, {}, c);
      var s1 := ClearSlots(s, p.slots).0;
      GrowFrame(s, s1);
      ClearEntriesClears(s1, p.hash, onKeys, {}, c);
      var s2 := ClearEntries(s1, p.hash, onKeys).0;
      GrowTransitive(s, s1, s2);
      OnlyStringsTransitive(s, s1, s2);
      SlotsClearedStays(s1, s2, p.slots, ClearSlots(s, p.slots).1);
    }
  }

  lemma SetTableClears(s: State, s2: State, t: State)
    requires Grow(s, s2) && s2.gray == s.gray && OnlyStrings(s.heap, s.color, s2.color)
    requires Thins(s2.heap, t.heap) && t == s2.(heap := t.heap)
    ensures Clears(s, t)
  {
    hide Thins;
  }

  lemma SetTableThins(s: State, o: Ref, vs: seq<Value>, ns: seq<Node>, onKeys: bool)
    requires o in s.heap.objs && s.heap.objs[o].Table?
    requires EntriesCleared(s.heap, s.color, s.heap.objs[o].hash, ns, onKeys)
    requires if onKeys then vs == s.heap.objs[o].slots else SlotsCleared(s.heap, s.color, s.heap.objs[o].slots, vs)
    ensures Thins(s.heap, SetTable(s, o, vs, ns).heap)
  {
    hide KeyStays, ValueSettled;
    var p := s.heap.objs[o];
    forall n: Node | n in ns && !n.val.Nil? ensures n in p.hash {
      var i :| 0 <= i < |ns| && ns[i] == n;
      assert ns[i] == p.hash[i];
    }
    forall n: Node | n in ns && n.key.Obj? ensures HasKey(p.hash, n.key) {
      var i :| 0 <= i < |ns| && ns[i] == n;
      assert p.hash[i] in p.hash && p.hash[i].key == n.key;
    }
    forall v: Value | v in vs && v.Obj? ensures v in p.slots {
      var i :| 0 <= i < |vs| && vs[i] == v;
      assert vs[i] == p.slots[i];
    }
  }

  lemma SetTableClean(s: State, o: Ref, vs: seq<Value>, ns: seq<Node>, onKeys: bool)
    requires o in s.heap.objs && s.heap.objs[o].Table?
    requires EntriesCleared(s.heap, s.color, s.heap.objs[o].hash, ns, onKeys)
    requires if onKeys then vs == s.heap.objs[o].slots else SlotsCleared(s.heap, s.color, s.heap.objs[o].slots, vs)
    ensures Clean(SetTable(s, o, vs, ns), o, onKeys)
  {
    hide KeyStays;
    forall n: Node | n in ns && !n.val.Nil? ensures ValueSettled(s.color, Cleared(n, onKeys)) {
      var i :| 0 <= i < |ns| && ns[i] == n;
    }
    if !onKeys {
      forall v: Value | v in vs ensures ValueSettled(s.color, v) {
        var i :| 0 <= i < |vs| && vs[i] == v;
      }
    }
  }

  lemma {:induction false} ClearKeeps(s: State, q: seq<Ref>, onKeys: bool, c: Context)
    requires Inv(s, {}, c)
    requires forall o :: o in q ==> o in c.within && o in s.heap.objs && s.heap.objs[o].Table?
    ensures var t := Clear(s, q, onKeys);
            Inv(t, {}, c) && Clears(s, t) && forall o :: o in q ==> Clean(t, o, onKeys)
    decreases |q|
  {
    if q != [] {
      assert q == [q[0]] + q[1..];
      hide Inv;
      ClearTableKeeps(s, q[0], onKeys, c);
      var s1 := ClearTable(s, q[0], onKeys);
      ClearsFrame(s, s1);
      assert forall o :: o in q[1..] ==> o in q;
      ClearKeeps(s1, q[1..], onKeys, c);
      var t := Clear(s1, q[1..], onKeys);
      ClearsTransitive(s, s1, t);
      ClearsFrame(s1, t);
      CleanStays(s1, t, q[0], onKeys);
    }
  }

  lemma ClearsFrame(s: State, t: State)
    requires Clears(s, t)
    ensures t.gray == s.gray && t.phase == s.phase && t.white == s.white && Thins(s.heap, t.heap)
    ensures t.heap.objs.Keys == s.heap.objs.Keys
    ensures forall o :: o in s.heap.objs ==> o in t.heap.objs && t.heap.objs[o].Table? == s.heap.objs[o].Table?
    ensures forall r :: Marked(s.color, r) ==> Marked(t.color, r)
    ensures t.weak == s.weak && t.allweak == s.allweak && t.ephemeron == s.ephemeron
  {
  }
}
