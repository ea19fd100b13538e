/** Marking: reallymarkobject and what every marking step keeps (lgc.c:235-283). */
module LuaMark {
  import opened LuaObjects

  ghost function Whites(s: State): set<Ref> {
    set r | r in s.color && IsWhite(s, r)
  }

  /** The measure of the marking loops: objects still white, and objects queued. */
  ghost function Work(s: State): nat {
    |Whites(s)| + |s.gray|
  }

  /** reallymarkobject. Its 'goto reentry' on a user value is the last call here. */
  function ReallyMark(s: State, o: Ref): (t: State)
    requires IsWhite(s, o)
    ensures Whites(t) < Whites(s) && Work(t) <= Work(s)
    ensures t == s.(color := t.color, gray := t.gray)
    ensures forall r :: Marked(s.color, r) ==> Marked(t.color, r)
    decreases Whites(s), 0
  {
    match s.heap.objs[o]
    case Str =>
      var t := s.(color := s.color[o := Black]);
      WhitesShrink(s, t, o);
      t
    case Userdata(m, u) =>
      var s1 := s.(color := s.color[o := Gray]);
      WhitesShrink(s, s1, o);
      var s2 := MarkValue(s1, m);
      var s3 := s2.(color := s2.color[o := Black]);
      assert Whites(s3) == Whites(s2);
      assert forall r :: Marked(s.color, r) ==> Marked(s1.color, r);
      assert forall r :: Marked(s2.color, r) ==> Marked(s3.color, r);
      MarkValue(s3, u)
    case _ =>
      var t := s.(color := s.color[o := Gray], gray := [o] + s.gray);
      WhitesShrink(s, t, o);
      t
  }

  /** markvalue, markobject and markobjectN. */
  function MarkValue(s: State, v: Value): (t: State)
    ensures Whites(t) <= Whites(s) && Work(t) <= Work(s)
    ensures t == s.(color := t.color, gray := t.gray)
    ensures forall r :: Marked(s.color, r) ==> Marked(t.color, r)
    decreases Whites(s), 1
  {
    if ValueIsWhite(s, v) then ReallyMark(s, v.ref) else s
  }

  lemma WhitesShrink(s: State, t: State, o: Ref)
    requires IsWhite(s, o) && t.heap == s.heap
    requires t.color == s.color[o := Black] || t.color == s.color[o := Gray]
    ensures Whites(t) < Whites(s) && |Whites(t)| + 1 == |Whites(s)|
  {
    assert Whites(t) == Whites(s) - {o};
  }

  /** Marks every value of vs, from left to right. */
  function MarkValues(s: State, vs: seq<Value>): (t: State)
    ensures Whites(t) <= Whites(s) && Work(t) <= Work(s)
    ensures t == s.(color := t.color, gray := t.gray)
    decreases |vs|
  {
    if vs == [] then s else MarkValues(MarkValue(s, vs[0]), vs[1..])
  }

  // ---------- What a marking step keeps ----------

  /** What a proof about marking fixes: whether this is the step that ends marking, which objects of the old
      'grayagain' list it has still to revisit, which all-weak tables were listed before that step, and a set that
      is to contain everything that gets marked. */
  datatype Context = Context(final: bool, pending: set<Ref>, stale: set<Ref>, within: set<Ref>)

  ghost predicate NoDup(q: seq<Ref>) {
    forall i, j :: 0 <= i < j < |q| ==> q[i] != q[j]
  }

  predicate Traversable(p: Payload) {
    !p.Str? && !p.Userdata?
  }

  /** While nothing is being freed every reference is to an allocated object. */
  ghost predicate HeapClosed(h: Heap) {
    forall o, r :: Refers(h, o, r) ==> r in h.objs
  }

  ghost predicate RefsMarked(h: Heap, color: map<Ref, Color>, o: Ref) {
    forall r :: Refers(h, o, r) ==> Marked(color, r)
  }

  /** The main invariant (lgc.h:19-20), except for the objects of X, which are being marked or traversed. */
  ghost predicate NoBlackToWhite(h: Heap, color: map<Ref, Color>, X: set<Ref>) {
    forall o :: o in h.objs && o !in X && IsColor(color, o, Black) ==> !h.objs[o].Thread? && RefsMarked(h, color, o)
  }

  ghost predicate GrayList(h: Heap, color: map<Ref, Color>, q: seq<Ref>) {
    NoDup(q) && forall r :: r in q ==> IsColor(color, r, Gray) && r in h.objs && Traversable(h.objs[r])
  }

  /** The gray lists hold gray objects, none twice and none on two lists: gclist can link an object only once. */
  ghost predicate Queues(s: State, c: Context) {
    && GrayList(s.heap, s.color, s.gray)
    && (!s.phase.InsideAtomic? ==>
          GrayList(s.heap, s.color, s.grayagain) && forall r :: r in s.grayagain ==> r !in s.gray && r !in s.allweak)
    && (forall r :: r in s.allweak ==> r !in s.gray)
    && (forall r :: r in c.pending ==>
          r !in s.gray && r !in s.allweak && IsColor(s.color, r, Gray) && r in s.heap.objs && Traversable(s.heap.objs[r]))
    && (c.final ==>
          && NoDup(s.ephemeron)
          && (forall r :: r in s.weak || r in s.ephemeron ==>
                r !in s.gray && r !in s.allweak && r !in c.pending && (!s.phase.InsideAtomic? ==> r !in s.grayagain)))
  }

  /** Object o is on none of the lists. */
  ghost predicate Unlisted(s: State, o: Ref, c: Context) {
    && o !in s.gray && o !in s.allweak && o !in c.pending
    && (!s.phase.InsideAtomic? ==> o !in s.grayagain)
    && (c.final ==> o !in s.weak && o !in s.ephemeron)
  }

  /** Where a gray object waits (lgc.h:21-23). In the step that ends marking one that waits nowhere is settled. */
  ghost predicate Waits(s: State, o: Ref, c: Context) {
    || o in s.gray
    || o in s.allweak
    || IsString(s.heap, o)
    || (!s.phase.InsideAtomic? && o in s.grayagain)
    || (c.final && (o in s.weak || o in s.ephemeron || o in c.pending || RefsMarked(s.heap, s.color, o)))
  }

  ghost predicate EveryGrayWaits(s: State, X: set<Ref>, c: Context) {
    forall o :: o in s.heap.objs && o !in X && IsColor(s.color, o, Gray) ==> Waits(s, o, c)
  }

  ghost predicate ValueSettled(color: map<Ref, Color>, v: Value) {
    v.Obj? ==> Marked(color, v.ref)
  }

  ghost predicate KeysSettled(color: map<Ref, Color>, ns: seq<Node>) {
    forall n :: n in ns && !n.val.Nil? ==> ValueSettled(color, n.key)
  }

  ghost predicate ValsSettled(color: map<Ref, Color>, ns: seq<Node>) {
    forall n :: n in ns ==> ValueSettled(color, n.val)
  }

  ghost predicate SlotsSettled(color: map<Ref, Color>, vs: seq<Value>) {
    forall v :: v in vs ==> ValueSettled(color, v)
  }

  ghost predicate GrayTable(h: Heap, color: map<Ref, Color>, o: Ref) {
    && IsColor(color, o, Gray)
    && o in h.objs && h.objs[o].Table?
    && ValueSettled(color, h.objs[o].metatable)
  }

  /** What is known of a table on 'allweak' that the atomic phase put there. */
  ghost predicate AllWeakTable(h: Heap, color: map<Ref, Color>, o: Ref) {
    GrayTable(h, color, o) &&
    match h.objs[o].mode
    case AllWeak => true
    case Ephemeron => SlotsSettled(color, h.objs[o].slots) && ValsSettled(color, h.objs[o].hash)
    case _ => false
  }

  /** What is known of a table on 'weak'. */
  ghost predicate WeakValueTable(h: Heap, color: map<Ref, Color>, o: Ref) {
    GrayTable(h, color, o) && h.objs[o].mode.WeakValue? && KeysSettled(color, h.objs[o].hash)
  }

  /** What is known of a table on 'ephemeron'. */
  ghost predicate EphemeronTable(h: Heap, color: map<Ref, Color>, o: Ref) {
    GrayTable(h, color, o) && h.objs[o].mode.Ephemeron? && SlotsSettled(color, h.objs[o].slots)
  }

  ghost predicate WeakLists(s: State, c: Context) {
    && (forall o :: o in s.allweak ==> GrayTable(s.heap, s.color, o))
    && (c.final ==>
          && (forall o :: o in s.allweak && o !in c.stale ==> AllWeakTable(s.heap, s.color, o))
          && (forall o :: o in s.weak ==> WeakValueTable(s.heap, s.color, o))
          && (forall o :: o in s.ephemeron ==> EphemeronTable(s.heap, s.color, o)))
  }

  predicate Allocated(h: Heap, v: Value) {
    v.Obj? ==> v.ref in h.objs
  }

  predicate ValueIn(v: Value, M: set<Ref>) {
    v.Obj? ==> v.ref in M
  }

  predicate StringIn(h: Heap, v: Value, M: set<Ref>) {
    v.Obj? && IsString(h, v.ref) ==> v.ref in M
  }

  /** The key keeps its entry: it is no object, or a string, or an object of M. */
  predicate Keeps(h: Heap, key: Value, M: set<Ref>) {
    key.Obj? && !IsString(h, key.ref) ==> key.ref in M
  }

  /** M contains everything the collector may mark because o is marked: the strong references of o, the values of
      ephemeron entries whose key stays, and the strings of weak entries, which count as values (lgc.c:132-146). */
  ghost predicate Follows(h: Heap, o: Ref, M: set<Ref>)
    requires o in h.objs
  {
    match h.objs[o]
    case Table(mode, m, a, ns) =>
      && ValueIn(m, M)
      && (match mode
          case Strong =>
            && (forall v :: v in a ==> ValueIn(v, M))
            && (forall n :: n in ns && !n.val.Nil? ==> ValueIn(n.key, M) && ValueIn(n.val, M))
          case WeakValue =>
            && (forall v :: v in a ==> StringIn(h, v, M))
            && (forall n :: n in ns && !n.val.Nil? ==> ValueIn(n.key, M) && StringIn(h, n.val, M))
          case Ephemeron =>
            && (forall v :: v in a ==> ValueIn(v, M))
            && (forall n :: n in ns && !n.val.Nil? ==>
                  && StringIn(h, n.key, M) && StringIn(h, n.val, M)
                  && (Keeps(h, n.key, M) ==> ValueIn(n.val, M)))
          case AllWeak =>
            && (forall v :: v in a ==> StringIn(h, v, M))
            && (forall n :: n in ns && !n.val.Nil? ==> StringIn(h, n.key, M) && StringIn(h, n.val, M)))
    case _ => forall r :: Refers(h, o, r) ==> r in M
  }

  ghost predicate Closed(h: Heap, M: set<Ref>) {
    forall o :: o in M && o in h.objs ==> Follows(h, o, M)
  }

  ghost predicate Within(color: map<Ref, Color>, M: set<Ref>) {
    forall r :: Marked(color, r) ==> r in M
  }

  ghost predicate Inv(s: State, X: set<Ref>, c: Context) {
    && s.color.Keys == s.heap.objs.Keys
    && HeapClosed(s.heap)
    && NoBlackToWhite(s.heap, s.color, X)
    && Queues(s, c)
    && EveryGrayWaits(s, X, c)
    && WeakLists(s, c)
    && Within(s.color, c.within) && Closed(s.heap, c.within)
  }

  /** Objects may have been marked, and nothing else has happened to their colours. */
  ghost predicate MarksGrow(a: map<Ref, Color>, b: map<Ref, Color>) {
    && a.Keys == b.Keys
    && (forall r :: r in a && !a[r].White? ==> b[r] == a[r])
    && (forall r :: r in a && b[r].White? ==> a[r] == b[r])
  }

  /** t is s after more objects have been marked; nothing else has changed but the gray list. */
  ghost predicate Grow(s: State, t: State) {
    && t == s.(color := t.color, gray := t.gray)
    && MarksGrow(s.color, t.color)
    && (forall r :: r in s.gray ==> r in t.gray)
    && (forall r :: r in t.gray ==> r in s.gray || IsWhite(s, r))
  }

  lemma GrowTransitive(s: State, t: State, u: State)
    requires Grow(s, t) && Grow(t, u)
    ensures Grow(s, u)
  {
  }

  lemma GrowSettled(s: State, t: State, v: Value)
    requires Grow(s, t) && ValueSettled(s.color, v)
    ensures ValueSettled(t.color, v)
  {
  }

  lemma GrowFrame(s: State, t: State)
    requires Grow(s, t)
    ensures t.heap == s.heap && t.phase == s.phase && t.white == s.white
    ensures forall x :: Marked(s.color, x) ==> Marked(t.color, x)
  {
  }

  /** Facts that ask only for marks survive every mark. */
  lemma WeakListsGrow(s: State, t: State, c: Context)
    requires WeakLists(s, c) && MarksGrow(s.color, t.color)
    requires t == s.(color := t.color, gray := t.gray)
    ensures WeakLists(t, c)
  {
  }

  lemma BlacksGrow(h: Heap, a: map<Ref, Color>, b: map<Ref, Color>, X: set<Ref>)
    requires NoBlackToWhite(h, a, X) && MarksGrow(a, b)
    requires forall r :: IsColor(b, r, Black) && r !in X ==> IsColor(a, r, Black) || (r in h.objs && h.objs[r].Str?)
    ensures NoBlackToWhite(h, b, X)
  {
  }

  lemma WaitersGrow(s: State, t: State, X: set<Ref>, c: Context)
    requires EveryGrayWaits(s, X, c) && MarksGrow(s.color, t.color)
    requires t == s.(color := t.color, gray := t.gray) && forall r :: r in s.gray ==> r in t.gray
    requires forall r :: IsColor(t.color, r, Gray) && r !in X ==> IsColor(s.color, r, Gray) || r in t.gray
    ensures EveryGrayWaits(t, X, c)
  {
    forall o | o in t.heap.objs && o !in X && IsColor(t.color, o, Gray) ensures Waits(t, o, c) {
      if o !in t.gray {
        assert Waits(s, o, c);
      }
    }
  }

  lemma LeafQueues(s: State, t: State, o: Ref, c: Context)
    requires Queues(s, c) && WeakLists(s, c) && IsWhite(s, o) && !s.heap.objs[o].Userdata?
    requires t == if s.heap.objs[o].Str? then s.(color := s.color[o := Black])
                  else s.(color := s.color[o := Gray], gray := [o] + s.gray)
    ensures Queues(t, c)
  {
  }

  /** Queueing a white object, or turning a white string black, keeps the invariant. */
  lemma MarkLeafKeeps(s: State, t: State, o: Ref, X: set<Ref>, c: Context)
    requires Inv(s, X, c) && IsWhite(s, o) && o in c.within && !s.heap.objs[o].Userdata?
    requires t == if s.heap.objs[o].Str? then s.(color := s.color[o := Black])
                  else s.(color := s.color[o := Gray], gray := [o] + s.gray)
    ensures Inv(t, X, c) && Grow(s, t)
  {
    WeakListsGrow(s, t, c);
    BlacksGrow(s.heap, s.color, t.color, X);
    WaitersGrow(s, t, X, c);
    LeafQueues(s, t, o, c);
    hide Queues, WeakLists, EveryGrayWaits, NoBlackToWhite, HeapClosed, Closed;
  }

  /** A white userdata turned gray is in flight until it is black and its user value is marked. */
  lemma FlightStarts(s: State, t: State, o: Ref, X: set<Ref>, c: Context)
    requires Inv(s, X, c) && IsWhite(s, o) && o in c.within
    requires t == s.(color := s.color[o := Gray])
    ensures Inv(t, X + {o}, c) && Grow(s, t)
  {
    WeakListsGrow(s, t, c);
    BlacksGrow(s.heap, s.color, t.color, X + {o});
    WaitersGrow(s, t, X + {o}, c);
  }

  lemma SameMarks(s: State, t: State, o: Ref, c: Context)
    requires Marked(s.color, o) && Marked(t.color, o)
    requires t == s.(color := s.color[o := t.color[o]])
    ensures forall p :: RefsMarked(s.heap, s.color, p) ==> RefsMarked(t.heap, t.color, p)
    ensures forall p :: Waits(s, p, c) ==> Waits(t, p, c)
    ensures Within(s.color, c.within) ==> Within(t.color, c.within)
    ensures WeakLists(s, c) && o !in s.allweak && (c.final ==> o !in s.weak && o !in s.ephemeron) ==> WeakLists(t, c)
  {
    assert forall r :: Marked(s.color, r) == Marked(t.color, r);
  }

  lemma QueuesRecolor(s: State, o: Ref, paint: Color, c: Context)
    requires Queues(s, c) && Unlisted(s, o, c)
    ensures Queues(s.(color := s.color[o := paint]), c)
  {
  }

  /** The colour of an object in flight that is on no list is free. */
  lemma FlightRecolors(s: State, o: Ref, paint: Color, X: set<Ref>, c: Context)
    requires Inv(s, X, c) && o in X && o in s.heap.objs && Marked(s.color, o) && !paint.White?
    requires Unlisted(s, o, c)
    ensures Inv(s.(color := s.color[o := paint]), X, c)
  {
    var t := s.(color := s.color[o := paint]);
    SameMarks(s, t, o, c);
    QueuesRecolor(s, o, paint, c);
    hide RefsMarked, Waits, WeakLists, Within, Queues;
  }

  lemma InvLists(s: State, X: set<Ref>, c: Context)
    requires Inv(s, X, c)
    ensures Queues(s, c) && WeakLists(s, c)
  {
  }

  lemma FlightStays(s: State, t: State, o: Ref, X: set<Ref>, c: Context)
    requires IsColor(s.color, o, Gray) && Grow(s, t) && o in s.heap.objs && s.heap.objs[o].Userdata?
    requires forall x :: x in X ==> Marked(s.color, x)
    requires Queues(t, c) && WeakLists(t, c)
    ensures IsColor(t.color, o, Gray) && t.heap == s.heap
    ensures forall x :: x in X ==> Marked(t.color[o := Black], x)
    ensures Whites(t.(color := t.color[o := Black])) <= Whites(t) <= Whites(s)
    ensures Unlisted(t, o, c)
  {
  }

  lemma FlightGrows(s: State, s2: State, s3: State, t: State, o: Ref)
    requires o in s.heap.objs && s.heap.objs[o].Userdata? && IsWhite(s, o)
    requires Grow(s.(color := s.color[o := Gray]), s2) && s3 == s2.(color := s2.color[o := Black]) && Grow(s3, t)
    requires ValueSettled(s2.color, s.heap.objs[o].meta) && ValueSettled(t.color, s.heap.objs[o].uservalue)
    ensures Grow(s, t) && IsColor(t.color, o, Black) && RefsMarked(t.heap, t.color, o)
    ensures t.heap == s.heap
  {
  }

  lemma FlightLands(s: State, o: Ref, X: set<Ref>, c: Context)
    requires Inv(s, X + {o}, c) && IsColor(s.color, o, Black) && RefsMarked(s.heap, s.color, o)
    requires o in s.heap.objs && s.heap.objs[o].Userdata?
    ensures Inv(s, X, c)
  {
    hide RefsMarked, Queues, WeakLists, Waits, HeapClosed, Closed, Within;
  }

  lemma {:induction false} ReallyMarkKeeps(s: State, o: Ref, X: set<Ref>, c: Context)
    requires Inv(s, X, c) && IsWhite(s, o) && o in c.within
    requires forall x :: x in X ==> Marked(s.color, x)
    ensures var t := ReallyMark(s, o);
            Inv(t, X, c) && Grow(s, t) && Marked(t.color, o)
    decreases Whites(s), 0
  {
    if s.heap.objs[o].Userdata? {
      UserdataFields(s, o, X, c);
      hide Inv, Grow, MarkValue;
      var m, u := s.heap.objs[o].meta, s.heap.objs[o].uservalue;
      var s1 := s.(color := s.color[o := Gray]);
      WhitesShrink(s, s1, o);
      FlightStarts(s, s1, o, X, c);
      MarkValueKeeps(s1, m, X + {o}, c);
      var s2 := MarkValue(s1, m);
      InvLists(s2, X + {o}, c);
      FlightStays(s1, s2, o, X + {o}, c);
      FlightRecolors(s2, o, Black, X + {o}, c);
      var s3 := s2.(color := s2.color[o := Black]);
      MarkValueKeeps(s3, u, X + {o}, c);
      FlightGrows(s, s2, s3, MarkValue(s3, u), o);
      FlightLands(MarkValue(s3, u), o, X, c);
    } else {
      MarkLeafKeeps(s, ReallyMark(s, o), o, X, c);
    }
  }

  lemma UserdataFields(s: State, o: Ref, X: set<Ref>, c: Context)
    requires Inv(s, X, c) && o in c.within && o in s.heap.objs && s.heap.objs[o].Userdata?
    ensures forall v :: v == s.heap.objs[o].meta || v == s.heap.objs[o].uservalue ==>
              ValueIn(v, c.within) && Allocated(s.heap, v)
  {
    assert forall r :: s.heap.objs[o].meta == Obj(r) || s.heap.objs[o].uservalue == Obj(r) ==> Refers(s.heap, o, r);
    assert Follows(s.heap, o, c.within);
  }

  lemma {:induction false} MarkValueKeeps(s: State, v: Value, X: set<Ref>, c: Context)
    requires Inv(s, X, c) && ValueIn(v, c.within)
    requires Allocated(s.heap, v)
    requires forall x :: x in X ==> Marked(s.color, x)
    ensures var t := MarkValue(s, v);
            Inv(t, X, c) && Grow(s, t) && ValueSettled(t.color, v)
    decreases Whites(s), 1
  {
    if ValueIsWhite(s, v) {
      ReallyMarkKeeps(s, v.ref, X, c);
    }
  }

  lemma {:induction false} MarkValuesKeeps(s: State, vs: seq<Value>, X: set<Ref>, c: Context)
    requires Inv(s, X, c)
    requires forall v :: v in vs ==> ValueIn(v, c.within) && Allocated(s.heap, v)
    requires forall x :: x in X ==> Marked(s.color, x)
    ensures var t := MarkValues(s, vs);
            Inv(t, X, c) && Grow(s, t) && SlotsSettled(t.color, vs)
    decreases |vs|
  {
    if vs != [] {
      var t := MarkValue(s, vs[0]);
      MarkValueKeeps(s, vs[0], X, c);
      MarkValuesKeeps(t, vs[1..], X, c);
    }
  }

  // ---------- What becomes of the marked objects ----------

  /** What was marked keeps its color; what is newly marked is black if it refers to nothing but fields of its own,
      and else gray and queued; the queue only grows at its front. */
  ghost predicate Darkened(s: State, t: State) {
    EndsWith(t.gray, s.gray) && forall r :: Marked(t.color, r) ==> DarkenedAt(s, t, r)
  }

  predicate DarkenedAt(s: State, t: State, r: Ref)
    requires r in t.color
  {
    if Marked(s.color, r) then t.color[r] == s.color[r]
    else r in s.heap.objs ==> if Traversable(s.heap.objs[r]) then t.color[r] == Gray && r in t.gray else t.color[r] == Black
  }

  predicate EndsWith(q: seq<Ref>, p: seq<Ref>) {
    |p| <= |q| && q[|q| - |p|..] == p
  }

  lemma EndsTrans(q: seq<Ref>, p: seq<Ref>, o: seq<Ref>)
    requires EndsWith(q, p) && EndsWith(p, o)
    ensures EndsWith(q, o) && forall r :: r in p ==> r in q
  {
    assert q == q[..|q| - |p|] + p;
    assert p == p[..|p| - |o|] + o;
  }

  /** reallymarkobject leaves its object, and what it marks on the way, with the right color and on the right list. */
  lemma {:induction false} ReallyMarkDarkens(s: State, o: Ref)
    requires IsWhite(s, o)
    ensures Darkened(s, ReallyMark(s, o)) && Marked(ReallyMark(s, o).color, o)
    decreases Whites(s), 0
  {
    var t := ReallyMark(s, o);
    if s.heap.objs[o].Userdata? {
      var m, u := s.heap.objs[o].meta, s.heap.objs[o].uservalue;
      var s1 := s.(color := s.color[o := Gray]);
      WhitesShrink(s, s1, o);
      MarkValueDarkens(s1, m);
      var s2 := MarkValue(s1, m);
      var s3 := s2.(color := s2.color[o := Black]);
      assert Whites(s3) <= Whites(s2);
      MarkValueDarkens(s3, u);
      UserdataDarkens(s, s2, t, o);
    } else {
      assert t.gray[|t.gray| - |s.gray|..] == s.gray;
    }
  }

  lemma UserdataDarkens(s: State, s2: State, t: State, o: Ref)
    requires IsWhite(s, o) && s.heap.objs[o].Userdata? && s2.heap == s.heap == t.heap
    requires Darkened(s.(color := s.color[o := Gray]), s2) && Darkened(s2.(color := s2.color[o := Black]), t)
    requires forall r :: Marked(s.color[o := Gray], r) ==> Marked(s2.color, r)
    requires forall r :: Marked(s2.color[o := Black], r) ==> Marked(t.color, r)
    ensures Darkened(s, t) && Marked(t.color, o)
  {
    EndsTrans(t.gray, s2.gray, s.gray);
    hide EndsWith;
    assert Marked(t.color, o) && t.color[o] == Black;
    forall r | Marked(t.color, r) ensures DarkenedAt(s, t, r) {
      if r != o && Marked(s2.color, r) {
        assert DarkenedAt(s.(color := s.color[o := Gray]), s2, r);
      }
      assert DarkenedAt(s2.(color := s2.color[o := Black]), t, r);
    }
  }

  lemma {:induction false} MarkValueDarkens(s: State, v: Value)
    ensures Darkened(s, MarkValue(s, v))
    decreases Whites(s), 1
  {
    if ValueIsWhite(s, v) { ReallyMarkDarkens(s, v.ref); }
  }
}
