/** The collector's single steps and the mutator's operations, as transitions of the global state. */
module LuaEvents {
  import opened LuaObjects
  import opened LuaMark
  import opened LuaTraverse
  import opened LuaAtomicStep
  import opened LuaSweep

  // ---------- Barriers (lgc.c:155-191, lgc.h:118-132) ----------

  /** luaC_barrier and luaC_objbarrier: mark the white object, or sweep the black one. */
  function Barrier(s: State, o: Ref, v: Value): State {
    if IsColor(s.color, o, Black) && ValueIsWhite(s, v) then
      if KeepInvariant(s) then ReallyMark(s, v.ref) else MakeWhite(s, o)
    else s
  }

  /** luaC_barrierback: the black table becomes gray again. */
  function BarrierBack(s: State, t: Ref, v: Value): State {
    if IsColor(s.color, t, Black) && ValueIsWhite(s, v) then
      s.(color := s.color[t := Gray], grayagain := [t] + s.grayagain)
    else s
  }

  /** luaC_upvalbarrier: nobody knows which closures share the upvalue, so its value is marked. */
  function UpvalBarrier(s: State, v: Value): State {
    if v.Obj? && KeepInvariant(s) then MarkValue(s, v) else s
  }

  // ---------- Mutator operations ----------

  function SetObject(s: State, o: Ref, p: Payload): State {
    s.(heap := s.heap.(objs := s.heap.objs[o := p]))
  }

  /** luaC_newobj: a new object is white and first on 'allgc'. */
  function NewObject(s: State, p: Payload): State {
    var o := s.nextref;
    SetObject(s, o, p).(color := s.color[o := White(s.white)], allgc := [o] + s.allgc, nextref := o + 1)
  }

  function BarriersBack(s: State, t: Ref, vs: seq<Value>): State
    decreases |vs|
  {
    if vs == [] then s else BarriersBack(BarrierBack(s, t, vs[0]), t, vs[1..])
  }

  /** A field that is written with a forward barrier (lapi.c:230, 861, 869, 892, 1248; lcode.c:335). */
  datatype Field = Metatable | UserValue | Upvalue(up: nat) | Constant(k: nat)

  predicate HasField(p: Payload, f: Field) {
    match f
    case Metatable => p.Userdata? || p.Table?
    case UserValue => p.Userdata?
    case Upvalue(i) => p.CClosure? && i < |p.upvalues|
    case Constant(i) => p.Proto? && i < |p.consts|
  }

  function WithField(p: Payload, f: Field, v: Value): Payload
    requires HasField(p, f)
  {
    match f
    case Metatable => if p.Userdata? then p.(meta := v) else p.(metatable := v)
    case UserValue => p.(uservalue := v)
    case Upvalue(i) => p.(upvalues := p.upvalues[i := v])
    case Constant(i) => p.(consts := p.consts[i := v])
  }

  /** A store followed by luaC_barrier. */
  function StoreField(s: State, o: Ref, f: Field, v: Value): State
    requires o in s.heap.objs && HasField(s.heap.objs[o], f)
  {
    Barrier(SetObject(s, o, WithField(s.heap.objs[o], f, v)), o, v)
  }

  /** luaH_newkey passes a new key to the barrier; the value always is. */
  function Barriered(hash: seq<Node>, key: Value, v: Value): seq<Value> {
    if HasKey(hash, key) then [v] else [key, v]
  }

  /** The new contents hold nothing but what the old ones did, and the stored pair: a store may move entries to the
      other part, or to another node, and drop empty ones. */
  ghost predicate Rewrites(p: Payload, slots: seq<Value>, hash: seq<Node>, key: Value, v: Value)
    requires p.Table?
  {
    && (forall r :: Obj(r) in slots || InEntries(hash, r) ==>
          Obj(r) in p.slots || InEntries(p.hash, r) || key == Obj(r) || v == Obj(r))
    && (forall n :: n in hash && n.key.Obj? ==> HasKey(p.hash, n.key) || n.key == key)
  }

  /** A store into a table, with any rearrangement of its contents, and luaC_barrierback. */
  function StoreTable(s: State, o: Ref, slots: seq<Value>, hash: seq<Node>, key: Value, v: Value): State
    requires o in s.heap.objs && s.heap.objs[o].Table?
  {
    var p := s.heap.objs[o];
    BarriersBack(SetObject(s, o, p.(slots := slots, hash := hash)), o, Barriered(p.hash, key, v))
  }

  /** A store into a closed upvalue, or closing an open one, and luaC_upvalbarrier (lapi.c:1249, lfunc.c:80-97). */
  function StoreCell(s: State, c: Cell, v: Value): State {
    UpvalBarrier(s.(heap := s.heap.(cells := s.heap.cells[c := v])), v)
  }

  /** lua_upvaluejoin: a closure gets an upvalue of another one. */
  function JoinCell(s: State, o: Ref, i: nat, c: Cell): State
    requires o in s.heap.objs && s.heap.objs[o].LClosure? && i < |s.heap.objs[o].upvals|
  {
    var p := s.heap.objs[o];
    var t := SetObject(s, o, p.(upvals := p.upvals[i := c]));
    if c in s.heap.cells then UpvalBarrier(t, s.heap.cells[c]) else t
  }

  /** The __mode that a table's metatable gives it changes. */
  function ChangeMode(s: State, o: Ref, mode: Mode): State
    requires o in s.heap.objs && s.heap.objs[o].Table?
  {
    SetObject(s, o, s.heap.objs[o].(mode := mode))
  }

  /** luaC_fix moves the newest object to 'fixedgc', gray for ever. */
  function Fix(s: State): State
    requires s.allgc != []
  {
    var o := s.allgc[0];
    s.(color := if IsWhite(s, o) then s.color[o := Gray] else s.color,
       allgc := s.allgc[1..], fixedgc := [o] + s.fixedgc)
  }

  function Without(q: seq<Ref>, o: Ref): seq<Ref> {
    if o in q then q[..IndexOf(q, o)] + q[IndexOf(q, o) + 1..] else q
  }

  /** luaC_checkfinalizer, for a metatable with a __gc field. */
  function CheckFinalizer(s: State, o: Ref): State {
    if o in s.finalizable then s
    else
      var s1 :=
        if !IsSweepPhase(s) then s
        else
          var w := MakeWhite(s, o);
          if w.sweepgc == After(o) then var (t, p) := SweepToLive(w, w.sweepgc); t.(sweepgc := p) else w;
      s1.(allgc := Without(s1.allgc, o), finobj := [o] + s1.finobj, finalizable := s1.finalizable + {o})
  }

  /** udata2finalize: the object goes back to 'allgc' and is normal again. */
  function ToFinalize(s: State): State
    requires s.tobefnz != []
  {
    var o := s.tobefnz[0];
    var s1 := s.(tobefnz := s.tobefnz[1..], allgc := [o] + s.allgc, finalizable := s.finalizable - {o});
    if IsSweepPhase(s1) then MakeWhite(s1, o) else s1
  }

  /** The object goes on the stack of the running thread, where the program finds it. */
  function Push(s: State, r: Ref): State {
    if s.running in s.heap.objs && s.heap.objs[s.running].Thread? then
      SetObject(s, s.running, Thread([Obj(r)] + s.heap.objs[s.running].stack))
    else s
  }

  /** GCTM: the object is pushed as the argument of its finalizer. An object whose metatable has lost its finalizer
      would not be pushed, and a finalizer that returns takes its argument off the stack again; here both are left to
      later events, so that a program holds more than it would, never less. */
  function CallFinalizer(s: State): State
    requires s.tobefnz != []
  {
    Push(ToFinalize(s), s.tobefnz[0])
  }

  /** internshrstr finds a string that is dead but not collected yet, and resurrects it (lstring.c:177-178). */
  function Intern(s: State, r: Ref): State {
    if IsDead(s, r) then s.(color := s.color[r := White(s.white)]) else s
  }

  // ---------- Collector steps (lgc.c:337-344, 960-967, 1032-1101) ----------

  /** What a cycle marks first. */
  function StartValues(s: State): seq<Value> {
    [Obj(s.mainthread), s.registry] + s.basicmt + ObjValues(s.tobefnz)
  }

  function Emptied(s: State): State {
    s.(gray := [], grayagain := [], weak := [], allweak := [], ephemeron := [])
  }

  /** restartcollection */
  function Restart(s: State): State {
    MarkValues(Emptied(s), StartValues(s)).(phase := Propagate)
  }

  /** entersweep */
  function EnterSweep(s: State): State {
    var (t, p) := SweepToLive(s.(phase := SweepAllGc), Head(AllGc));
    t.(sweepgc := p)
  }

  /** sweepstep, for a step that sweeps at most max objects. */
  function SweepStep(s: State, next: Phase, list: Cursor, max: nat): State {
    var (t, p) := if s.sweepgc == NoCursor then (s, NoCursor) else SweepList(s, s.sweepgc, max);
    if p != NoCursor then t.(sweepgc := p) else t.(phase := next, sweepgc := list)
  }

  /** singlestep. While objects wait for their finalizers, and it is no emergency, a step of the last phase calls one. */
  function SingleStep(s: State, max: nat, emergency: bool): State {
    match s.phase
    case Pause => Restart(s)
    case Propagate =>
      var t := if s.gray != [] then PropagateMark(s) else s;
      if t.gray == [] then t.(phase := Atomic) else t
    case Atomic => EnterSweep(AtomicStep(PropagateAll(s)))
    case SweepAllGc => SweepStep(s, SweepFinObj, Head(FinObj), max)
    case SweepFinObj => SweepStep(s, SweepToBeFnz, Head(ToBeFnz), max)
    case SweepToBeFnz => SweepStep(s, SweepEnd, NoCursor, max)
    case SweepEnd => MakeWhite(s, s.mainthread).(phase := CallFin)
    case CallFin => if s.tobefnz != [] && !emergency then CallFinalizer(s) else s.(phase := Pause)
    case InsideAtomic => s
  }

  /** What luaC_fullgc does first when there may be black objects: sweep everything, with no white changed. */
  function AbandonMarking(s: State): State {
    if KeepInvariant(s) then EnterSweep(s) else s
  }
}
