/** Collectable objects, tagged values and the collector's global state (lobject.h, lstate.h, lgc.h). */
module LuaObjects {

  type Ref = nat
  type Cell = nat

  /** A TValue. DeadKey is the tag that removeentry leaves in the key of an empty entry. */
  datatype Value = Nil | Prim(n: int) | Obj(ref: Ref) | DeadKey(dead: Ref)

  datatype Node = Node(key: Value, val: Value)

  /** What the __mode field of a table's metatable says at the moment. */
  datatype Mode = Strong | WeakValue | Ephemeron | AllWeak

  datatype Payload =
    | Str
    | Userdata(meta: Value, uservalue: Value)
    | Table(mode: Mode, metatable: Value, slots: seq<Value>, hash: seq<Node>)
    | LClosure(proto: Value, upvals: seq<Cell>)
    | CClosure(upvalues: seq<Value>)
    | Thread(stack: seq<Value>)
    | Proto(consts: seq<Value>)

  /** White carries which of the two whites the object wears; an object with no colour bit is gray. */
  datatype Color = White(bit: bool) | Gray | Black

  /** The order of gcstate in lgc.h; InsideAtomic is the internal state of the atomic phase. */
  datatype Phase =
    Propagate | Atomic | SweepAllGc | SweepFinObj | SweepToBeFnz | SweepEnd | CallFin | Pause | InsideAtomic

  datatype ListName = AllGc | FinObj | ToBeFnz

  /** sweepgc: a null pointer, the address of a list head, or the address of an object's next field. */
  datatype Cursor = NoCursor | Head(list: ListName) | After(ref: Ref)

  /** The allocated objects and the closed upvalues that closures share. */
  datatype Heap = Heap(objs: map<Ref, Payload>, cells: map<Cell, Value>)

  datatype State = State(
    heap: Heap,
    color: map<Ref, Color>,
    finalizable: set<Ref>,
    allgc: seq<Ref>, finobj: seq<Ref>, tobefnz: seq<Ref>, fixedgc: seq<Ref>,
    gray: seq<Ref>, grayagain: seq<Ref>, weak: seq<Ref>, allweak: seq<Ref>, ephemeron: seq<Ref>,
    phase: Phase,
    white: bool,
    sweepgc: Cursor,
    mainthread: Ref, running: Ref, registry: Value, basicmt: seq<Value>,
    nextref: Ref)

  predicate IsWhite(s: State, r: Ref) {
    r in s.heap.objs && r in s.color && s.color[r].White?
  }

  predicate ValueIsWhite(s: State, v: Value) {
    v.Obj? && IsWhite(s, v.ref)
  }

  predicate IsColor(color: map<Ref, Color>, r: Ref, c: Color) {
    r in color && color[r] == c
  }

  predicate Marked(color: map<Ref, Color>, r: Ref) {
    r in color && !color[r].White?
  }

  /** isdead: the object wears the white that is not current. */
  predicate IsDead(s: State, r: Ref) {
    IsColor(s.color, r, White(!s.white))
  }

  predicate Live(s: State, r: Ref) {
    r in s.heap.objs && r in s.color && !IsDead(s, r)
  }

  predicate KeepInvariant(s: State) {
    s.phase.Propagate? || s.phase.Atomic?
  }

  predicate IsSweepPhase(s: State) {
    s.phase.SweepAllGc? || s.phase.SweepFinObj? || s.phase.SweepToBeFnz? || s.phase.SweepEnd?
  }

  predicate IsString(h: Heap, r: Ref) {
    r in h.objs && h.objs[r].Str?
  }

  /** Some entry with a value holds r. The key of an empty entry is not a reference a program can read. */
  predicate InEntries(hash: seq<Node>, r: Ref) {
    exists n :: n in hash && !n.val.Nil? && (n.key == Obj(r) || n.val == Obj(r))
  }

  /** Some entry, perhaps an empty one, has this key. */
  predicate HasKey(hash: seq<Node>, key: Value) {
    exists n :: n in hash && n.key == key
  }

  /** No object is the key of an entry of ms that is not the key of an entry of ns. */
  ghost predicate KeysFrom(ns: seq<Node>, ms: seq<Node>) {
    forall n :: n in ms && n.key.Obj? ==> HasKey(ns, n.key)
  }

  predicate InCells(cells: map<Cell, Value>, upvals: seq<Cell>, r: Ref) {
    exists c :: c in upvals && c in cells && cells[c] == Obj(r)
  }

  /** Object o refers to object r, by a strong or a weak reference. */
  predicate Refers(h: Heap, o: Ref, r: Ref) {
    o in h.objs &&
    match h.objs[o]
    case Str => false
    case Userdata(m, u) => m == Obj(r) || u == Obj(r)
    case Table(_, m, a, ns) => m == Obj(r) || Obj(r) in a || InEntries(ns, r)
    case LClosure(f, ups) => f == Obj(r) || InCells(h.cells, ups, r)
    case CClosure(ups) => Obj(r) in ups
    case Thread(st) => Obj(r) in st
    case Proto(ks) => Obj(r) in ks
  }
}
