/** Stores into tables and the barrier that turns a black table gray again (lgc.c:171-176, ltable.c:442-491, lapi.c:800-840). */
module LuaTableStore {
  import opened LuaObjects
  import opened LuaMark
  import opened LuaTraverse
  import opened LuaPropagate
  import opened LuaKeys
  import opened LuaEvents
  import opened LuaInvariant
  import opened LuaCollect
  import opened LuaMutator

  ghost predicate SomeWhite(s: State, vs: seq<Value>) {
    exists v :: v in vs && ValueIsWhite(s, v)
  }

  /** The barriers of one store together. */
  lemma {:induction false} BarriersBackIs(s: State, o: Ref, vs: seq<Value>)
    ensures BarriersBack(s, o, vs) ==
            if IsColor(s.color, o, Black) && SomeWhite(s, vs)
            then s.(color := s.color[o := Gray], grayagain := [o] + s.grayagain) else s
    decreases |vs|
  {
    if vs != [] {
      assert vs == [vs[0]] + vs[1..];
      BarriersBackIs(BarrierBack(s, o, vs[0]), o, vs[1..]);
      if IsColor(s.color, o, Black) && ValueIsWhite(s, vs[0]) {
        assert vs[0] in vs;
      }
    }
  }

  function Rewritten(s: State, o: Ref, slots: seq<Value>, hash: seq<Node>): State
    requires o in s.heap.objs && s.heap.objs[o].Table?
  {
    SetObject(s, o, s.heap.objs[o].(slots := slots, hash := hash))
  }

  lemma RewrittenRefs(s: State, o: Ref, slots: seq<Value>, hash: seq<Node>, key: Value, v: Value)
    requires o in s.heap.objs && s.heap.objs[o].Table? && Rewrites(s.heap.objs[o], slots, hash, key, v)
    ensures var k := Rewritten(s, o, slots, hash).heap;
            && (forall p, r :: Refers(k, p, r) ==> Refers(s.heap, p, r) || (p == o && (key == Obj(r) || v == Obj(r))))
            && SameKinds(s.heap, k)
  {
  }

  lemma RewrittenKeys(s: State, o: Ref, slots: seq<Value>, hash: seq<Node>, key: Value, v: Value)
    requires o in s.heap.objs && s.heap.objs[o].Table? && Rewrites(s.heap.objs[o], slots, hash, key, v)
    requires KeysOld(s.heap, s.nextref) && (key.Obj? ==> key.ref < s.nextref)
    ensures KeysOld(Rewritten(s, o, slots, hash).heap, s.nextref)
  {
    var k := Rewritten(s, o, slots, hash).heap;
    forall p, n: Node | p in k.objs && k.objs[p].Table? && n in k.objs[p].hash && n.key.Obj? ensures n.key.ref < s.nextref {
      if p == o && n.key != key {
        assert HasKey(s.heap.objs[o].hash, n.key);
      } else if p != o {
        assert p in s.heap.objs;
      }
    }
  }

  lemma LiveIsOld(s: State, r: Ref)
    requires Frame(s) && Live(s, r)
    ensures r < s.nextref
  {
  }

  lemma RewrittenHeld(s: State, o: Ref, slots: seq<Value>, hash: seq<Node>, key: Value, v: Value, t: State, M: set<Ref>)
    requires Good(s, M) && o in s.heap.objs && s.heap.objs[o].Table? && Rewrites(s.heap.objs[o], slots, hash, key, v)
    requires Held(s, key, M) && Held(s, v, M)
    requires t == s.(heap := t.heap, color := t.color, gray := t.gray, grayagain := t.grayagain)
    requires t.heap == Rewritten(s, o, slots, hash).heap
    ensures HeldStore(s, t, M)
  {
    assert Frame(s);
    FrameKeys(s, M);
    RewrittenRefs(s, o, slots, hash, key, v);
    if key.Obj? { LiveIsOld(s, key.ref); }
    RewrittenKeys(s, o, slots, hash, key, v);
    assert IsThread(s, s.running);
    hide Refers, KeysOld, Good, Live, Rewrites;
    assert forall r :: IsRoot(t, r) ==> IsRoot(s, r);
    hide IsRoot;
    assert s.running in t.heap.objs;
  }

  /** The keys of entries that were there, and the keys and values the barrier has seen, are not white. */
  lemma StaysBlack(s: State, o: Ref, slots: seq<Value>, hash: seq<Node>, key: Value, v: Value)
    requires o in s.heap.objs && s.heap.objs[o].Table? && Rewrites(s.heap.objs[o], slots, hash, key, v)
    requires IsColor(s.color, o, Black) && !SomeWhite(s, Barriered(s.heap.objs[o].hash, key, v))
    requires KeysKnown(s.heap, s.color) && RefsMarked(s.heap, s.color, o) && s.color.Keys == s.heap.objs.Keys
    requires (key.Obj? ==> key.ref in s.heap.objs) && (v.Obj? ==> v.ref in s.heap.objs)
    ensures RefsMarked(Rewritten(s, o, slots, hash).heap, s.color, o) && KeysNotWhite(s.color, hash)
  {
    var was := s.heap.objs[o].hash;
    assert IsBlackTable(s.heap, s.color, o);
    assert KeysNotWhite(s.color, was);
    assert !ValueIsWhite(s, v) by { assert v in Barriered(was, key, v); }
    assert NotWhite(s.color, key) by {
      if !HasKey(was, key) {
        assert key in Barriered(was, key, v);
        assert !ValueIsWhite(s, key);
      }
    }
    RewrittenRefs(s, o, slots, hash, key, v);
    hide Refers;
    forall n: Node | n in hash ensures NotWhite(s.color, n.key) {
      if n.key.Obj? && n.key != key { assert HasKey(was, n.key); }
    }
  }

  lemma RewrittenBlacks(s: State, o: Ref, slots: seq<Value>, hash: seq<Node>, key: Value, v: Value)
    requires o in s.heap.objs && s.heap.objs[o].Table? && Rewrites(s.heap.objs[o], slots, hash, key, v)
    requires NoBlackToWhite(s.heap, s.color, {})
    ensures BlacksSettled(s, Rewritten(s, o, slots, hash), {o})
  {
    var t := Rewritten(s, o, slots, hash);
    RewrittenRefs(s, o, slots, hash, key, v);
    hide Refers, Rewrites;
    forall p | p in t.heap.objs && p !in {o} && IsColor(s.color, p, Black) ensures RefsMarked(t.heap, s.color, p) {
      assert RefsMarked(s.heap, s.color, p);
    }
  }

  lemma OneSettled(s: State, t: State, o: Ref)
    requires BlacksSettled(s, t, {o}) && (IsColor(s.color, o, Black) ==> RefsMarked(t.heap, s.color, o))
    ensures BlacksSettled(s, t, {})
  {
  }

  lemma RewrittenKnown(s: State, o: Ref, slots: seq<Value>, hash: seq<Node>, paint: Color)
    requires o in s.heap.objs && s.heap.objs[o].Table? && KeysKnown(s.heap, s.color) && Marked(s.color, o)
    requires paint == s.color[o] || paint == Gray
    requires paint.Black? ==> KeysNotWhite(s.color, hash)
    ensures KeysKnown(Rewritten(s, o, slots, hash).heap, s.color[o := paint])
  {
    var k := Rewritten(s, o, slots, hash).heap;
    var b := s.color[o := paint];
    forall p | IsBlackTable(k, b, p) ensures KeysNotWhite(b, k.objs[p].hash) {
      if p != o {
        assert IsBlackTable(s.heap, s.color, p);
        assert KeysNotWhite(s.color, s.heap.objs[p].hash);
      }
    }
  }

  /** The black table goes back to gray, and will be traversed again in the atomic phase. */
  lemma BackLands(t: State, o: Ref, c: Context)
    requires Inv(t, {o}, c) && IsColor(t.color, o, Black) && !t.phase.InsideAtomic?
    requires o in t.heap.objs && t.heap.objs[o].Table?
    ensures Inv(t.(color := t.color[o := Gray], grayagain := [o] + t.grayagain), {}, c)
  {
    BlackUnlisted(t, o, c);
    FlightRecolors(t, o, Gray, {o}, c);
    var u := t.(color := t.color[o := Gray]);
    var w := u.(grayagain := [o] + u.grayagain);
    assert Unlisted(u, o, c);
    hide Inv, Unlisted;
    GrayAgainKeeps(u, w, o, c);
    LandGray(w, o, c);
  }

  ghost predicate TableStore(s: State, o: Ref, slots: seq<Value>, hash: seq<Node>, key: Value, v: Value, M: set<Ref>) {
    && o in s.heap.objs && s.heap.objs[o].Table? && Rewrites(s.heap.objs[o], slots, hash, key, v)
    && Held(s, key, M) && Held(s, v, M)
  }

  lemma RewrittenMetatables(s: State, o: Ref, slots: seq<Value>, hash: seq<Node>, M: set<Ref>)
    requires Good(s, M) && KeepInvariant(s) && o in s.heap.objs && s.heap.objs[o].Table?
    ensures MetatablesSettled(s, Rewritten(s, o, slots, hash))
  {
    JoinMetatables(s, Rewritten(s, o, slots, hash), o, M);
  }

  /** The store, before its barriers. */
  ghost predicate TableReady(s: State, o: Ref, slots: seq<Value>, hash: seq<Node>, M: set<Ref>) {
    && Inv(s, {}, MARKING.(within := M)) && o in s.heap.objs && s.heap.objs[o].Table? && KeysKnown(s.heap, s.color)
    && HeapClosed(Rewritten(s, o, slots, hash).heap) && Closed(Rewritten(s, o, slots, hash).heap, M)
    && Writes(s, Rewritten(s, o, slots, hash)) && MetatablesSettled(s, Rewritten(s, o, slots, hash))
    && BlacksSettled(s, Rewritten(s, o, slots, hash), {o})
  }

  lemma TableGoesBack(s: State, o: Ref, slots: seq<Value>, hash: seq<Node>, M: set<Ref>)
    requires TableReady(s, o, slots, hash, M) && IsColor(s.color, o, Black) && !s.phase.InsideAtomic?
    ensures var t := Rewritten(s, o, slots, hash);
            var u := t.(color := t.color[o := Gray], grayagain := [o] + t.grayagain);
            Inv(u, {}, MARKING.(within := M)) && KeysKnown(u.heap, u.color)
  {
    var t := Rewritten(s, o, slots, hash);
    hide Inv, Writes, Closed, BlacksSettled, MetatablesSettled, HeapClosed, KeysKnown;
    StoreKeeps(s, t, {o}, M);
    BackLands(t, o, MARKING.(within := M));
    RewrittenKnown(s, o, slots, hash, Gray);
  }

  lemma TableStaysBlack(s: State, o: Ref, slots: seq<Value>, hash: seq<Node>, key: Value, v: Value, M: set<Ref>)
    requires TableReady(s, o, slots, hash, M) && IsColor(s.color, o, Black) && TableStore(s, o, slots, hash, key, v, M)
    requires !SomeWhite(s, Barriered(s.heap.objs[o].hash, key, v))
    ensures var t := Rewritten(s, o, slots, hash);
            Inv(t, {}, MARKING.(within := M)) && KeysKnown(t.heap, t.color)
  {
    var t := Rewritten(s, o, slots, hash);
    HeapDomains(s, {}, MARKING.(within := M));
    hide Inv, Writes, Closed, BlacksSettled, MetatablesSettled, HeapClosed, KeysKnown, SomeWhite, RefsMarked, KeysNotWhite;
    BlackRefs(s, o, MARKING.(within := M));
    HeldAllocated(s, key, M);
    HeldAllocated(s, v, M);
    StaysBlack(s, o, slots, hash, key, v);
    OneSettled(s, t, o);
    StoreKeeps(s, t, {}, M);
    assert s.color[o := Black] == s.color;
    RewrittenKnown(s, o, slots, hash, Black);
  }

  lemma TableNotBlack(s: State, o: Ref, slots: seq<Value>, hash: seq<Node>, M: set<Ref>)
    requires TableReady(s, o, slots, hash, M) && !IsColor(s.color, o, Black)
    ensures var t := Rewritten(s, o, slots, hash);
            Inv(t, {}, MARKING.(within := M)) && KeysKnown(t.heap, t.color)
  {
    var t := Rewritten(s, o, slots, hash);
    hide Inv, Writes, Closed, BlacksSettled, MetatablesSettled, HeapClosed, KeysKnown;
    OneSettled(s, t, o);
    StoreKeeps(s, t, {}, M);
    RewrittenOther(s, o, slots, hash);
  }

  lemma TableIsReady(s: State, o: Ref, slots: seq<Value>, hash: seq<Node>, key: Value, v: Value, M: set<Ref>)
    requires Good(s, M) && KeepInvariant(s) && TableStore(s, o, slots, hash, key, v, M)
    requires HeapClosed(Rewritten(s, o, slots, hash).heap) && Closed(Rewritten(s, o, slots, hash).heap, M)
    requires Writes(s, Rewritten(s, o, slots, hash))
    ensures TableReady(s, o, slots, hash, M)
  {
    MarkingParts(s, M);
    assert NoBlackToWhite(s.heap, s.color, {});
    hide Good, Inv, Writes, Closed, MetatablesSettled, HeapClosed, Marks, Frame, Surrounds, NoBlackToWhite, KeysKnown,
      Rewrites;
    RewrittenBlacks(s, o, slots, hash, key, v);
    RewrittenMetatables(s, o, slots, hash, M);
  }

  lemma StoreTableMarks(s: State, o: Ref, slots: seq<Value>, hash: seq<Node>, key: Value, v: Value, M: set<Ref>)
    requires Good(s, M) && KeepInvariant(s) && TableStore(s, o, slots, hash, key, v, M)
    requires HeapClosed(Rewritten(s, o, slots, hash).heap) && Closed(Rewritten(s, o, slots, hash).heap, M)
    requires Writes(s, Rewritten(s, o, slots, hash))
    ensures var u := StoreTable(s, o, slots, hash, key, v);
            Inv(u, {}, MARKING.(within := M)) && KeysKnown(u.heap, u.color)
  {
    var t := Rewritten(s, o, slots, hash);
    var vs := Barriered(s.heap.objs[o].hash, key, v);
    TableIsReady(s, o, slots, hash, key, v, M);
    BarriersBackIs(t, o, vs);
    WhiteSameValues(s, t, vs);
    hide Good, Inv, Writes, Closed, HeapClosed, KeysKnown, SomeWhite, Rewrites, BarriersBack, TableReady, Barriered;
    if !IsColor(s.color, o, Black) {
      TableNotBlack(s, o, slots, hash, M);
    } else if SomeWhite(s, vs) {
      TableGoesBack(s, o, slots, hash, M);
    } else {
      TableStaysBlack(s, o, slots, hash, key, v, M);
    }
  }

  lemma HeldAllocated(s: State, v: Value, M: set<Ref>)
    requires Held(s, v, M)
    ensures v.Obj? ==> v.ref in s.heap.objs && v.ref in M
  {
  }

  lemma WhiteSameValues(s: State, t: State, vs: seq<Value>)
    requires t.color == s.color && t.heap.objs.Keys == s.heap.objs.Keys
    ensures SomeWhite(t, vs) == SomeWhite(s, vs)
  {
    assert forall v :: ValueIsWhite(t, v) == ValueIsWhite(s, v);
  }

  lemma RewrittenOther(s: State, o: Ref, slots: seq<Value>, hash: seq<Node>)
    requires o in s.heap.objs && s.heap.objs[o].Table? && KeysKnown(s.heap, s.color) && !IsColor(s.color, o, Black)
    ensures KeysKnown(Rewritten(s, o, slots, hash).heap, s.color)
  {
    var k := Rewritten(s, o, slots, hash).heap;
    forall p | IsBlackTable(k, s.color, p) ensures KeysNotWhite(s.color, k.objs[p].hash) {
      assert IsBlackTable(s.heap, s.color, p);
    }
  }

  lemma StoreTableColors(s: State, o: Ref, slots: seq<Value>, hash: seq<Node>, key: Value, v: Value)
    requires o in s.heap.objs && s.heap.objs[o].Table?
    ensures var u := StoreTable(s, o, slots, hash, key, v);
            && u == s.(heap := Rewritten(s, o, slots, hash).heap, color := u.color, grayagain := u.grayagain)
            && Writes(s, u) && Fades(s, u) && MarksRise(s.color, u.color)
            && (forall r :: IsString(s.heap, r) && IsColor(s.color, r, Gray) ==> IsColor(u.color, r, Gray))
            && Writes(s, Rewritten(s, o, slots, hash))
  {
    BarriersBackIs(Rewritten(s, o, slots, hash), o, Barriered(s.heap.objs[o].hash, key, v));
    hide SomeWhite, BarriersBack;
  }

  lemma FixedAreStrings(s: State, M: set<Ref>)
    requires Good(s, M)
    ensures forall r :: r in s.fixedgc ==> IsString(s.heap, r)
  {
  }

  /** A store into a table keeps the invariant, in every phase: if the table is black it becomes gray when needed. */
  lemma StoreTableGood(s: State, o: Ref, slots: seq<Value>, hash: seq<Node>, key: Value, v: Value, M: set<Ref>)
    requires Good(s, M) && ClosedUnderRefs(s.heap, M) && TableStore(s, o, slots, hash, key, v, M)
    ensures var u := StoreTable(s, o, slots, hash, key, v);
            Good(u, M) && ClosedUnderRefs(u.heap, M)
  {
    var t := Rewritten(s, o, slots, hash);
    var u := StoreTable(s, o, slots, hash, key, v);
    StoreTableColors(s, o, slots, hash, key, v);
    RewrittenHeld(s, o, slots, hash, key, v, u, M);
    RewrittenHeld(s, o, slots, hash, key, v, t, M);
    FixedAreStrings(s, M);
    hide Good, HeldStore, ClosedUnderRefs, Fades, MarksRise, StoreTable, RootOperands, LiveOperands, Closed, HeapClosed,
      KeysKnown, Inv, Writes;
    HeldClosed(s, u, M);
    if KeepInvariant(s) {
      HeldClosed(s, t, M);
      InvHeapClosed(s, M);
      StoreTableMarks(s, o, slots, hash, key, v, M);
      MarkingStore(s, u, M);
    } else {
      HeldSweeping(s, u, M);
    }
  }
}
