/** A program on the collector in its own form: every operation updates the global state in place, each store followed
    by its barrier (lgc.h:118-132, lapi.c, lfunc.c, ltable.c, lstring.c). */
module LuaProgram {
  import opened LuaObjects
  import opened LuaEvents
  import opened LuaRun
  import opened LuaCycle
  import opened LuaCollector

  // ---------- Stores with their barriers ----------

  method Write(c: Collector, o: Ref, p: Payload)
    modifies c
    ensures c.Snapshot() == SetObject(old(c.Snapshot()), o, p)
  {
    c.heap := c.heap.(objs := c.heap.objs[o := p]);
  }

  /** A field of object o is written, and then luaC_barrier or luaC_objbarrier is called. */
  method PutFieldOf(c: Collector, o: Ref, f: Field, v: Value)
    requires o in c.heap.objs && HasField(c.heap.objs[o], f)
    modifies c
    ensures c.Snapshot() == StoreField(old(c.Snapshot()), o, f, v)
  {
    hide Barrier;
    Write(c, o, WithField(c.heap.objs[o], f, v));
    c.ForwardBarrier(o, v);
  }

  /** A table is written, and then luaC_barrierback is called for a new key and for the value. */
  method PutTableOf(c: Collector, o: Ref, slots: seq<Value>, hash: seq<Node>, key: Value, v: Value)
    requires o in c.heap.objs && c.heap.objs[o].Table?
    modifies c
    ensures c.Snapshot() == StoreTable(old(c.Snapshot()), o, slots, hash, key, v)
  {
    hide BarrierBack;
    var p := c.heap.objs[o];
    Write(c, o, p.(slots := slots, hash := hash));
    ghost var s := c.Snapshot();
    BarriersAre(s, o, p.hash, key, v);
    if !HasKey(p.hash, key) {
      c.BackBarrier(o, key);
    }
    c.BackBarrier(o, v);
  }

  lemma BarriersAre(s: State, o: Ref, hash: seq<Node>, key: Value, v: Value)
    ensures BarriersBack(s, o, Barriered(hash, key, v)) ==
            BarrierBack(if HasKey(hash, key) then s else BarrierBack(s, o, key), o, v)
  {
    hide BarrierBack;
    if HasKey(hash, key) {
      assert [v][1..] == [];
    } else {
      var s1 := BarrierBack(s, o, key);
      assert [key, v][1..] == [v] && [v][1..] == [];
      assert BarriersBack(s1, o, [v]) == BarrierBack(s1, o, v);
    }
  }

  /** A closed upvalue is written, and then luaC_upvalbarrier is called. */
  method PutCellOf(c: Collector, cell: Cell, v: Value)
    modifies c
    ensures c.Snapshot() == StoreCell(old(c.Snapshot()), cell, v)
  {
    hide UpvalBarrier;
    c.heap := c.heap.(cells := c.heap.cells[cell := v]);
    c.UpvalueBarrier(v);
  }

  /** lua_upvaluejoin */
  method JoinCells(c: Collector, o: Ref, i: nat, cell: Cell)
    requires o in c.heap.objs && c.heap.objs[o].LClosure? && i < |c.heap.objs[o].upvals|
    modifies c
    ensures c.Snapshot() == JoinCell(old(c.Snapshot()), o, i, cell)
  {
    hide UpvalBarrier;
    var p := c.heap.objs[o];
    Write(c, o, p.(upvals := p.upvals[i := cell]));
    if cell in c.heap.cells {
      c.UpvalueBarrier(c.heap.cells[cell]);
    }
  }

  // ---------- Other operations ----------

  method Create(c: Collector, p: Payload)
    modifies c
    ensures c.Snapshot() == Push(NewObject(old(c.Snapshot()), p), old(c.nextref))
  {
    hide Push, NewObject;
    var o := c.NewObj(p);
    c.PushObject(o);
  }

  /** internshrstr, where it finds the string. */
  method Find(c: Collector, r: Ref)
    modifies c
    ensures c.Snapshot() == Push(Intern(old(c.Snapshot()), r), r)
  {
    hide Push;
    if IsDead(c.Snapshot(), r) {
      c.color := c.color[r := White(c.white)];
    }
    c.PushObject(r);
  }

  /** luaC_fix */
  method FixFirst(c: Collector)
    requires c.allgc != []
    modifies c
    ensures c.Snapshot() == Fix(old(c.Snapshot()))
  {
    var o := c.allgc[0];
    if IsWhite(c.Snapshot(), o) {
      c.color := c.color[o := Gray];
    }
    c.allgc := c.allgc[1..];
    c.fixedgc := [o] + c.fixedgc;
  }

  /** Writes without a barrier: to a stack, the registry, the metatables of basic types, a table's mode, and a switch
      to another thread. */
  predicate IsPlain(e: Event) {
    e.PutStack? || e.PutRegistry? || e.PutBasicMetatables? || e.Resume? || e.PutMode?
  }

  method PerformPlain(c: Collector, e: Event)
    requires IsPlain(e) && Enabled(c.Snapshot(), e)
    modifies c
    ensures c.Snapshot() == Apply(old(c.Snapshot()), e)
  {
    hide SetObject, ModeFits;
    match e
    case PutStack(o, stack) => Write(c, o, Thread(stack));
    case PutRegistry(v) => c.registry := v;
    case PutBasicMetatables(vs) => c.basicmt := vs;
    case Resume(o) => c.running := o;
    case PutMode(o, mode) => Write(c, o, c.heap.objs[o].(mode := mode));
  }

  method Perform(c: Collector, e: Event)
    requires Enabled(c.Snapshot(), e)
    modifies c
    ensures c.Snapshot() == Apply(old(c.Snapshot()), e)
  {
    hide StoreField, StoreTable, StoreCell, JoinCell, Fix, CheckFinalizer, SingleStep, CallFinalizer, EnterSweep;
    match e
    case New(p) => Create(c, p);
    case PutField(o, f, v) => PutFieldOf(c, o, f, v);
    case PutTable(o, slots, hash, key, v) => PutTableOf(c, o, slots, hash, key, v);
    case PutCell(cell, v) => PutCellOf(c, cell, v);
    case Join(o, i, cell) => JoinCells(c, o, i, cell);
    case GiveFinalizer(o) => c.GiveFinalizer(o);
    case FindString(r) => Find(c, r);
    case FixNewest => FixFirst(c);
    case Step(max, emergency) => c.OneStep(max, emergency);
    case RunFinalizer => c.CallOneFinalizer();
    case Abandon =>
      if KeepInvariant(c.Snapshot()) { c.EnterSweepPhase(); }
    case _ => PerformPlain(c, e);
  }

  // ---------- Runs ----------

  /** One operation, or one step of the collector, in place: the invariant is kept. */
  method PerformFine(c: Collector, e: Event, ghost M: set<Ref>)
    requires Fine(c.Snapshot(), M) && Allowed(c.Snapshot(), e)
    modifies c
    ensures c.Snapshot() == Apply(old(c.Snapshot()), e)
    ensures Fine(c.Snapshot(), Grown(M, old(c.Snapshot()), e))
  {
    hide Fine, Apply, Enabled, OperandsReached, IsUnsafe, Grown;
    EventFine(c.Snapshot(), e, M);
    Perform(c, e);
  }

  /** A program runs from a new state, with collector steps anywhere in between: at its end nothing that it can reach has
      been freed, or is about to be. */
  method RunProgram(main: Ref, es: seq<Event>) returns (c: Collector)
    requires AllowedRun(Initial(main), es)
    ensures c.Snapshot() == Final(Initial(main), es)
    ensures forall r :: Accessible(c.Snapshot(), r) ==> r in c.heap.objs && !IsDead(c.Snapshot(), r)
  {
    hide Fine, Apply, Allowed, Grown, Accessible, Initial;
    c := new Collector(main);
    InitialFine(main);
    assert es[0..] == es;
    var i := 0;
    ghost var M := {main};
    while i < |es|
      invariant 0 <= i <= |es| && Fine(c.Snapshot(), M) && AllowedRun(c.Snapshot(), es[i..])
      invariant Final(c.Snapshot(), es[i..]) == Final(Initial(main), es)
    {
      FirstAllowed(c.Snapshot(), es[i..]);
      ghost var N := Grown(M, c.Snapshot(), es[i]);
      RestOf(es, i);
      PerformFine(c, es[i], M);
      M := N;
      i := i + 1;
    }
    forall r | Accessible(c.Snapshot(), r) ensures r in c.heap.objs && !IsDead(c.Snapshot(), r) {
      ProgramsAreSafe(main, es, r);
    }
  }

  lemma RestOf(es: seq<Event>, i: nat)
    requires i < |es|
    ensures es[i..] != [] && es[i..][0] == es[i] && es[i..][1..] == es[i + 1..]
  {
  }
}
