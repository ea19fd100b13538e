/** Parsing expressions and what they match (lpeg.html; Ford's parsing expression grammars). */
module LpegSemantics {
  import opened Basics
  import opened LpegMachine

  /** The patterns a program can write without captures, grammars and look-behind. */
  datatype Peg =
    | Empty | Never
    | Any(n: nat) | NotAny(n: nat) | Char(c: Byte) | Set(cs: set<Byte>)
    | Seq(a: Peg, b: Peg) | Or(a: Peg, b: Peg) | Minus(a: Peg, b: Peg)
    | Not(a: Peg) | And(a: Peg)
    | AtLeast(a: Peg, n: nat) | AtMost(a: Peg, n: nat)

  /** A match that ends at j, no match, or a repetition that goes on for ever without consuming anything. */
  datatype Outcome = Ok(j: int) | No | Loop

  function Sem(e: Peg, s: seq<Byte>, i: int): (r: Outcome)
    ensures r.Ok? && 0 <= i <= |s| ==> i <= r.j <= |s|
    decreases e, 0, 0
  {
    match e
    case Empty => Ok(i)
    case Never => No
    case Any(n) => if n <= |s| - i then Ok(i + n) else No
    case NotAny(n) => if n <= |s| - i then No else Ok(i)
    case Char(c) => if 0 <= i < |s| && s[i] == c then Ok(i + 1) else No
    case Set(cs) => if 0 <= i < |s| && s[i] in cs then Ok(i + 1) else No
    case Seq(a, b) => (match Sem(a, s, i) case Ok(j) => Sem(b, s, j) case r => r)
    case Or(a, b) => (match Sem(a, s, i) case No => Sem(b, s, i) case r => r)
    case Minus(a, b) => (match Sem(b, s, i) case Ok(_) => No case No => Sem(a, s, i) case Loop => Loop)
    case Not(a) => (match Sem(a, s, i) case Ok(_) => No case No => Ok(i) case Loop => Loop)
    case And(a) => (match Sem(a, s, i) case Ok(_) => Ok(i) case r => r)
    case AtLeast(a, n) => SemAtLeast(a, n, s, i)
    case AtMost(a, n) => SemAtMost(a, n, s, i)
  }

  /** n matches of a, and then as many as possible. */
  function SemAtLeast(a: Peg, n: nat, s: seq<Byte>, i: int): (r: Outcome)
    ensures r.Ok? && 0 <= i <= |s| ==> i <= r.j <= |s|
    decreases a, 1, n + (if i <= |s| then |s| - i else 0)
  {
    match Sem(a, s, i)
    case No => if n == 0 then Ok(i) else No
    case Loop => Loop
    case Ok(j) =>
      if n > 0 then (if 0 <= i <= |s| then SemAtLeast(a, n - 1, s, j) else Loop)
      else if 0 <= i < j <= |s| then SemAtLeast(a, 0, s, j)
      else Loop
  }

  /** At most n matches of a. */
  function SemAtMost(a: Peg, n: nat, s: seq<Byte>, i: int): (r: Outcome)
    ensures r.Ok? && 0 <= i <= |s| ==> i <= r.j <= |s|
    decreases a, 1, n
  {
    if n == 0 then Ok(i)
    else match Sem(a, s, i)
         case No => Ok(i)
         case Loop => Loop
         case Ok(j) => SemAtMost(a, n - 1, s, j)
  }

  /** The code does at position i what the outcome says; it leaves the stack as it was. Nothing is said of the case
      in which a repetition never ends. */
  ghost predicate Does(code: seq<Instr>, s: seq<Byte>, i: int, r: Outcome) {
    match r
    case Ok(j) => Reaches(code, s, Run(0, i, []), Run(|code|, j, []))
    case No => Reaches(code, s, Run(0, i, []), Failing([]))
    case Loop => true
  }

  /** The code matches what e matches, at every position of every subject. */
  ghost predicate Implements(code: seq<Instr>, e: Peg) {
    forall s: seq<Byte>, i :: 0 <= i <= |s| ==> Does(code, s, i, Sem(e, s, i))
  }

  /** A piece of code somewhere in a program, above any stack, does what it does alone. */
  lemma PieceDoes(P: seq<Instr>, b: nat, code: seq<Instr>, s: seq<Byte>, i: int, r: Outcome, stk: seq<Entry>)
    requires Embedded(P, b, code) && Does(code, s, i, r)
    ensures r.Ok? ==> Reaches(P, s, Run(b, i, stk), Run(b + |code|, r.j, stk))
    ensures r.No? ==> Reaches(P, s, Run(b, i, stk), Failing(stk))
  {
    ShiftParts([], b, stk);
    hide Shift;
    assert Lift(Run(0, i, []), b, stk) == Run(b, i, stk);
    if r.Ok? {
      LiftReaches(P, b, code, s, Run(0, i, []), Run(|code|, r.j, []), stk);
      assert Lift(Run(|code|, r.j, []), b, stk) == Run(b + |code|, r.j, stk);
    }
    if r.No? {
      LiftReaches(P, b, code, s, Run(0, i, []), Failing([]), stk);
      assert Lift(Failing([]), b, stk) == Failing(stk);
    }
  }

  lemma ImplementsDoes(code: seq<Instr>, e: Peg, s: seq<Byte>, i: int)
    requires Implements(code, e) && 0 <= i <= |s|
    ensures Does(code, s, i, Sem(e, s, i))
  {
    hide Does, Sem;
  }

  /** What a machine ends with tells the outcome, if the outcome is not an endless repetition. */
  lemma DoesOnly(code: seq<Instr>, s: seq<Byte>, i: int, r: Outcome)
    requires Does(code, s, i, r)
    ensures Reaches(code, s, Run(0, i, []), Failing([])) ==> r.No? || r.Loop?
    ensures forall j :: Reaches(code, s, Run(0, i, []), Run(|code|, j, [])) ==> r == Ok(j) || r.Loop?
  {
    hide Reaches;
    if Reaches(code, s, Run(0, i, []), Failing([])) && r.Ok? {
      ReachesUnique(code, s, Run(0, i, []), Failing([]), Run(|code|, r.j, []));
    }
    forall j | Reaches(code, s, Run(0, i, []), Run(|code|, j, [])) ensures r == Ok(j) || r.Loop? {
      if r.No? {
        ReachesUnique(code, s, Run(0, i, []), Failing([]), Run(|code|, j, []));
      } else if r.Ok? {
        ReachesUnique(code, s, Run(0, i, []), Run(|code|, r.j, []), Run(|code|, j, []));
      }
    }
  }

  // ---------- Code that starts with a check ----------

  /** The check of the first instruction, and what the rest of the code does after it. */
  lemma SplitCheck(code: seq<Instr>, e: Peg, s: seq<Byte>, i: int)
    requires Implements(code, e) && code != [] && IsCheck(code[0]) && JumpsInside(code) && FrontFree(code)
    requires 0 <= i <= |s|
    ensures if Passes(code[0], s, i) then Does(code[1..], s, i + OpStep(code[0]), Sem(e, s, i))
            else Sem(e, s, i).No? || Sem(e, s, i).Loop?
  {
    var c := Run(0, i, []);
    var r := Sem(e, s, i);
    ImplementsDoes(code, e, s, i);
    hide Implements, Sem, JumpsInside, FrontFree;
    if Passes(code[0], s, i) {
      var d := Run(1, i + OpStep(code[0]), []);
      assert Step(code, s, c) == d;
      ShiftParts([], -1, []);
      if r.Ok? {
        ReachesAfter(code, s, c, Run(|code|, r.j, []));
        TailReaches(code, s, i + OpStep(code[0]), Run(|code|, r.j, []));
        assert Unlift(Run(|code|, r.j, [])) == Run(|code[1..]|, r.j, []);
      } else if r.No? {
        ReachesAfter(code, s, c, Failing([]));
        TailReaches(code, s, i + OpStep(code[0]), Failing([]));
        assert Unlift(Failing([])) == Failing([]);
      }
    } else {
      assert Step(code, s, c) == Failing([]);
      ReachesStep(code, s, c);
      DoesOnly(code, s, i, r);
    }
  }
}
