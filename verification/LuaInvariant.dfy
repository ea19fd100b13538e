/** What holds between any two steps of a run. */
module LuaInvariant {
  import opened LuaObjects
  import opened LuaMark
  import opened LuaTraverse
  import opened LuaKeys
  import opened LuaAtomicStep
  import opened LuaSweep
  /** The references the collector starts from: what the program can reach directly, and what it keeps itself. */
  predicate IsRoot(s: State, r: Ref) {
    r == s.mainthread || Obj(r) in RootValues(s) || r in s.tobefnz || r in s.fixedgc
  }

  /** M contains everything that its objects refer to, weakly or strongly. */
  ghost predicate ClosedUnderRefs(h: Heap, M: set<Ref>) {
    forall o, r :: o in M && Refers(h, o, r) ==> r in M
  }

  /** M contains the roots, the objects with finalizers, and everything the collector may mark because of these. */
  ghost predicate Surrounds(s: State, M: set<Ref>) {
    && Closed(s.heap, M)
    && (forall r :: IsRoot(s, r) || r in s.finobj ==> r in M)
  }

  ghost predicate IsThread(s: State, r: Ref) {
    r in s.heap.objs && s.heap.objs[r].Thread?
  }

  /** The parts of the state that no phase touches. */
  ghost predicate Frame(s: State) {
    && Listed(s)
    && IsThread(s, s.mainthread) && IsThread(s, s.running)
    && (forall r :: r in s.fixedgc ==> IsString(s.heap, r) && IsColor(s.color, r, Gray))
    && (forall r :: r in s.heap.objs ==> r < s.nextref)
    && KeysOld(s.heap, s.nextref)
  }

  /** No key of an entry, be it empty, names an object that is still to be allocated. */
  ghost predicate KeysOld(h: Heap, nextref: Ref) {
    forall o, n: Node :: o in h.objs && h.objs[o].Table? && n in h.objs[o].hash && n.key.Obj? ==> n.key.ref < nextref
  }

  /** While objects are being marked. */
  ghost predicate Marking(s: State, M: set<Ref>) {
    && Inv(s, {}, Context(false, {}, {}, M))
    && (forall v :: v in RootValues(s) ==> Allocated(s.heap, v))
    && (forall r :: !IsDead(s, r))
    && (forall r :: r in s.tobefnz ==> Marked(s.color, r))
    && Marked(s.color, s.mainthread)
    && s.weak == [] && s.ephemeron == [] && s.sweepgc == NoCursor
    && KeysKnown(s.heap, s.color)
    && (s.phase.Propagate? ==> s.gray != [])
  }

  /** The lists that later sweep phases visit. */
  function Later(s: State): seq<Ref> {
    match s.phase
    case SweepAllGc => s.finobj + s.tobefnz
    case SweepFinObj => s.tobefnz
    case _ => []
  }

  predicate Current(s: State, r: Ref) {
    IsColor(s.color, r, White(s.white))
  }

  /** Where the sweep cursor may be. While 'tobefnz' is swept it may also be in 'allgc', behind an object that was
      called last; then nothing of 'tobefnz' is left to sweep. */
  ghost predicate CursorInPlace(s: State) {
    match s.phase
    case SweepAllGc => InList(s, s.sweepgc, AllGc)
    case SweepFinObj => InList(s, s.sweepgc, FinObj)
    case SweepToBeFnz =>
      InList(s, s.sweepgc, ToBeFnz) || (InList(s, s.sweepgc, AllGc) && forall r :: r in s.tobefnz ==> Current(s, r))
    case _ => s.sweepgc == NoCursor
  }

  /** Objects that have not been swept, or need not be, aside: everything wears the current white. */
  ghost predicate RestIsWhite(s: State) {
    forall r :: r in s.heap.objs ==>
      || Current(s, r) || r in Todo(s, s.sweepgc) || r in Later(s) || r in s.fixedgc
      || (r == s.mainthread && IsSweepPhase(s))
  }

  /** What is dead has still to be swept, and is swept in the first sweep phase. */
  ghost predicate DeadInTodo(s: State) {
    forall r :: IsDead(s, r) ==> s.phase.SweepAllGc? && r in Todo(s, s.sweepgc)
  }

  /** Until the cycle is over, what lies outside M is dead. */
  ghost predicate OutsideDead(s: State, M: set<Ref>) {
    !s.phase.Pause? ==> forall r :: r in s.heap.objs && r !in M ==> IsDead(s, r)
  }

  /** While objects are being swept, and while nothing is. */
  ghost predicate Sweeping(s: State, M: set<Ref>) {
    && LiveClosed(s)
    && (forall r :: IsRoot(s, r) ==> Live(s, r))
    && DeadAreOrdinary(s)
    && CursorInPlace(s)
    && RestIsWhite(s)
    && DeadInTodo(s)
    && OutsideDead(s, M)
  }

  /** The invariant of every run, for a set M that surrounds the program's data. */
  ghost predicate Good(s: State, M: set<Ref>) {
    && Frame(s) && Surrounds(s, M)
    && !s.phase.InsideAtomic?
    && (if KeepInvariant(s) then Marking(s, M) else Sweeping(s, M))
  }
}
