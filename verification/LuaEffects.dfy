/** What each operation of a program changes, apart from colours and gray lists (lgc.h:118-132, lapi.c, lgc.c:194-219). */
module LuaEffects {
  import opened LuaObjects
  import opened LuaMark
  import opened LuaEvents
  import opened LuaInvariant
  import opened LuaPropagate
  import opened LuaMutator
  import opened LuaTableStore
  import opened LuaRun

  /** The event is an operation that neither moves objects between the lists nor is a step of the collector. */
  predicate IsMutation(e: Event) {
    !e.Step? && !e.RunFinalizer? && !e.Abandon? && !e.GiveFinalizer?
  }

  /** The payload of o is p; everything else on the heap is as before. */
  ghost predicate Changes(h: Heap, k: Heap, o: Ref, p: Payload) {
    k.cells == h.cells && k.objs == h.objs[o := p]
  }

  /** Object r is on top of the running stack; everything else on the heap is as before. */
  ghost predicate Pushes(s: State, h: Heap, k: Heap, r: Ref) {
    s.running in h.objs && h.objs[s.running].Thread? && Changes(h, k, s.running, Thread([Obj(r)] + h.objs[s.running].stack))
  }

  /** One field is v, and all others are as before. */
  ghost predicate FieldIs(p: Payload, q: Payload, f: Field, v: Value) {
    match p
    case Userdata(m, u) => q == (if f.Metatable? then Userdata(v, u) else Userdata(m, v))
    case Table(mode, m, vs, ns) => q == Table(mode, v, vs, ns)
    case CClosure(vs) => f.Upvalue? && f.up < |vs| && q == CClosure(vs[f.up := v])
    case Proto(vs) => f.Constant? && f.k < |vs| && q == Proto(vs[f.k := v])
    case _ => false
  }

  /** What a program finds on the heap after one of its operations. */
  ghost predicate HeapAfter(s: State, e: Event, k: Heap) {
    var h := s.heap;
    match e
    case New(p) => Pushes(s, Heap(h.objs[s.nextref := p], h.cells), k, s.nextref)
    case PutField(o, f, v) => o in h.objs && o in k.objs && FieldIs(h.objs[o], k.objs[o], f, v) && Changes(h, k, o, k.objs[o])
    case PutTable(o, vs, ns, _, _) => HasTable(s, o) && Changes(h, k, o, Table(h.objs[o].mode, h.objs[o].metatable, vs, ns))
    case PutCell(c, v) => k.objs == h.objs && k.cells == h.cells[c := v]
    case Join(o, i, c) =>
      && o in h.objs && h.objs[o].LClosure? && i < |h.objs[o].upvals|
      && Changes(h, k, o, LClosure(h.objs[o].proto, h.objs[o].upvals[i := c]))
    case PutStack(o, vs) => Changes(h, k, o, Thread(vs))
    case PutMode(o, mode) =>
      HasTable(s, o) && Changes(h, k, o, Table(mode, h.objs[o].metatable, h.objs[o].slots, h.objs[o].hash))
    case FindString(r) => Pushes(s, h, k, r)
    case _ => k == h
  }

  /** The lists of objects after one of a program's operations: only a new object, and fixing one, change them. */
  ghost predicate ListsAfter(s: State, e: Event, t: State) {
    && t.finobj == s.finobj && t.tobefnz == s.tobefnz && t.finalizable == s.finalizable
    && t.allgc == (if e.New? then [s.nextref] + s.allgc else if e.FixNewest? && s.allgc != [] then s.allgc[1..] else s.allgc)
    && t.fixedgc == (if e.FixNewest? && s.allgc != [] then [s.allgc[0]] + s.fixedgc else s.fixedgc)
    && t.nextref == (if e.New? then s.nextref + 1 else s.nextref)
  }

  /** The program's own roots, and the collector's phase. */
  ghost predicate RootsAfter(s: State, e: Event, t: State) {
    && t.mainthread == s.mainthread
    && t.registry == (if e.PutRegistry? then e.val else s.registry)
    && t.basicmt == (if e.PutBasicMetatables? then e.vals else s.basicmt)
    && t.running == (if e.Resume? then e.thread else s.running)
    && t.phase == s.phase && t.white == s.white && t.sweepgc == s.sweepgc
  }

  ghost predicate Does(s: State, e: Event, t: State) {
    HeapAfter(s, e, t.heap) && ListsAfter(s, e, t) && RootsAfter(s, e, t)
  }

  /** t is s after a write to the heap and the barrier that goes with it. */
  ghost predicate OnlyBarrier(s: State, t: State) {
    t == s.(heap := t.heap, color := t.color, gray := t.gray, grayagain := t.grayagain)
  }

  lemma BarrierDoes(s: State, t: State, e: Event)
    requires OnlyBarrier(s, t) && HeapAfter(s, e, t.heap)
    requires e.PutField? || e.PutTable? || e.PutCell? || e.Join? || e.PutStack? || e.PutMode? || e.FindString?
    ensures Does(s, e, t)
  {
    hide HeapAfter;
  }

  lemma NewDoes(s: State, p: Payload)
    requires IsThread(s, s.running) && s.nextref !in s.heap.objs
    ensures Does(s, New(p), Push(NewObject(s, p), s.nextref))
  {
  }

  lemma FieldDoes(s: State, o: Ref, f: Field, v: Value)
    requires o in s.heap.objs && HasField(s.heap.objs[o], f)
    ensures Does(s, PutField(o, f, v), StoreField(s, o, f, v))
  {
    var u := SetObject(s, o, WithField(s.heap.objs[o], f, v));
    var t := StoreField(s, o, f, v);
    assert HeapAfter(s, PutField(o, f, v), u.heap);
    assert t.heap == u.heap && OnlyBarrier(s, t) by { hide ReallyMark, WithField; }
    hide *;
    BarrierDoes(s, t, PutField(o, f, v));
  }

  lemma TableDoes(s: State, o: Ref, slots: seq<Value>, hash: seq<Node>, key: Value, v: Value)
    requires HasTable(s, o)
    ensures Does(s, PutTable(o, slots, hash, key, v), StoreTable(s, o, slots, hash, key, v))
  {
    StoreTableColors(s, o, slots, hash, key, v);
    hide StoreTable, Writes, Fades, MarksRise;
    BarrierDoes(s, StoreTable(s, o, slots, hash, key, v), PutTable(o, slots, hash, key, v));
  }

  lemma CellDoes(s: State, c: Cell, v: Value)
    ensures Does(s, PutCell(c, v), StoreCell(s, c, v))
  {
    hide MarkValue;
    BarrierDoes(s, StoreCell(s, c, v), PutCell(c, v));
  }

  lemma JoinDoes(s: State, o: Ref, i: nat, c: Cell)
    requires o in s.heap.objs && s.heap.objs[o].LClosure? && i < |s.heap.objs[o].upvals|
    ensures Does(s, Join(o, i, c), JoinCell(s, o, i, c))
  {
    hide MarkValue;
    BarrierDoes(s, JoinCell(s, o, i, c), Join(o, i, c));
  }

  lemma FindDoes(s: State, r: Ref)
    requires IsThread(s, s.running)
    ensures Does(s, FindString(r), Push(Intern(s, r), r))
  {
    BarrierDoes(s, Push(Intern(s, r), r), FindString(r));
  }

  lemma FixDoes(s: State)
    requires s.allgc != []
    ensures Does(s, FixNewest, Fix(s))
  {
  }

  lemma PlainDoes(s: State, e: Event)
    requires Enabled(s, e)
    requires e.PutStack? || e.PutMode? || e.PutRegistry? || e.PutBasicMetatables? || e.Resume?
    ensures Does(s, e, Apply(s, e))
  {
  }

  /** An operation of the program does what it says and nothing else, whatever its barrier does to the colours. */
  lemma MutationDoes(s: State, e: Event, M: set<Ref>)
    requires Fine(s, M) && Enabled(s, e) && IsMutation(e)
    ensures Does(s, e, Apply(s, e))
  {
    assert IsThread(s, s.running) && s.nextref !in s.heap.objs by {
      assert Frame(s);
    }
    hide Fine, Does, StoreField, StoreTable, StoreCell, JoinCell, Push, Intern, Fix, NewObject;
    match e
    case New(p) => NewDoes(s, p);
    case PutField(o, f, v) => FieldDoes(s, o, f, v);
    case PutTable(o, slots, hash, key, v) => TableDoes(s, o, slots, hash, key, v);
    case PutCell(c, v) => CellDoes(s, c, v);
    case Join(o, i, c) => JoinDoes(s, o, i, c);
    case FindString(r) => FindDoes(s, r);
    case FixNewest => FixDoes(s);
    case _ => PlainDoes(s, e);
  }

  /** GCTM: the first object of 'tobefnz' is the argument of its finalizer, back on 'allgc' and without a finalizer. */
  lemma CallDoes(s: State, M: set<Ref>)
    requires Fine(s, M) && s.tobefnz != []
    ensures var t := CallFinalizer(s); var o := s.tobefnz[0];
            && Pushes(s, s.heap, t.heap, o)
            && t == s.(heap := t.heap, color := t.color, tobefnz := s.tobefnz[1..], allgc := [o] + s.allgc,
                       finalizable := s.finalizable - {o})
  {
    assert IsThread(s, s.running) by { assert Frame(s); }
    hide Fine;
  }
}
