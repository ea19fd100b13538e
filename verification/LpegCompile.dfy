/** From expressions to code: what the combinators build, when they refuse, and that the code is right
    (lpeg.c:215-221, 1043-1052, 1239-1422, 1572-1684). */
module LpegCompile {
  import opened Basics
  import opened LpegMachine
  import opened LpegSemantics
  import opened LpegBuild
  import opened LpegCorrect
  import opened LpegVerify
  import opened LpegChecked
  import opened LpegSplit
  import opened LpegRepeat
  import opened LpegJumps
  import opened LpegGood

  // ---------- The verdict of verify ----------

  /** verify returns 1: the body of a loop consumes. */
  ghost predicate Accepts(p: seq<Instr>) {
    Walks(p, At(0, []), Back([]))
  }

  /** verify returns 0. */
  ghost predicate Rejects(p: seq<Instr>) {
    Walks(p, At(0, []), At(|p|, []))
  }

  /** verify raises the error "too many pending calls/choices". */
  ghost predicate GivesUp(p: seq<Instr>) {
    Walks(p, At(0, []), TooDeep)
  }

  /** The verdict of a walk that ends: it is given up exactly if it has more choices pending than the array holds. */
  lemma WalkEnds(p: seq<Instr>, v: bool, h: nat)
    requires WalkDoes(p, v, h)
    ensures (if v then Rejects(p) else Accepts(p)) || GivesUp(p)
    ensures h <= MAXBACKVER ==> if v then Rejects(p) else Accepts(p)
  {
    var c := At(0, []);
    var d := if v then At(|p|, []) else Back([]);
    var n: nat :| FreeExec(p, c, n) == d && Low(p, c, n, h);
    assert Height(c) == 0;
    hide FreeExec, WalkExec, Height;
    if Low(p, c, n, MAXBACKVER) {
      WalkIsFree(p, c, n);
    } else {
      WalkGivenUp(p, c, n);
    }
  }

  /** Two places where a walk stops cannot both be reached. */
  lemma WalksUnique(p: seq<Instr>, c: Walk, d: Walk, e: Walk)
    requires Walks(p, c, d) && Walks(p, c, e)
    requires WalkStep(p, d).Lost? && WalkStep(p, e).Lost? && !d.Lost? && !e.Lost?
    ensures d == e
  {
    var n: nat :| WalkExec(p, c, n) == d;
    var m: nat :| WalkExec(p, c, m) == e;
    if n < m {
      WalkMore(p, c, n, m - n);
      WalkLost(p, m - n - 1);
    } else if m < n {
      WalkMore(p, c, m, n - m);
      WalkLost(p, n - m - 1);
    }
  }

  /** The walk through a pattern always ends, with one verdict; if that is 1, and the walk met no blind spot, every match
      of the pattern consumes something. The condition goes one way: what the walk has not seen behind a blind spot may
      consume or never match, and to tell which would take a test whether an expression matches anything at all. */
  lemma VerdictSound(p: seq<Instr>, e: Peg)
    requires Checked(p, e)
    ensures Accepts(p) || Rejects(p) || GivesUp(p)
    ensures !(Accepts(p) && Rejects(p)) && !(Accepts(p) && GivesUp(p)) && !(Rejects(p) && GivesUp(p))
    ensures Accepts(p) && !MeetsBlindSpot(p) ==> Advances(e)
  {
    var c := At(0, []);
    var v, h := TakeWalk(p, e);
    WalkEnds(p, v, h);
    if Accepts(p) && !MeetsBlindSpot(p) {
      AcceptedSure(p);
      if v { NotAccepted(p, h); }
    }
    hide Walks, Unsure, Advances;
    if Accepts(p) && Rejects(p) { WalksUnique(p, c, Back([]), At(|p|, [])); }
    if Accepts(p) && GivesUp(p) { WalksUnique(p, c, Back([]), TooDeep); }
    if Rejects(p) && GivesUp(p) { WalksUnique(p, c, At(|p|, []), TooDeep); }
  }

  lemma AcceptedLow(p: seq<Instr>) returns (n: nat)
    requires Accepts(p)
    ensures FreeExec(p, At(0, []), n) == Back([]) && Low(p, At(0, []), n, MAXBACKVER)
  {
    var c := At(0, []);
    n :| WalkExec(p, c, n) == Back([]);
    if !Low(p, c, n, MAXBACKVER) {
      WalkGivenUp(p, c, n);
      WalksUnique(p, c, Back([]), TooDeep);
    }
    WalkIsFree(p, c, n);
  }

  lemma AcceptedSure(p: seq<Instr>)
    requires Accepts(p) && !MeetsBlindSpot(p)
    ensures !Unsure(p, At(0, []))
  {
    var c := At(0, []);
    var n := AcceptedLow(p);
    forall k: nat ensures !AtBlindSpot(p, FreeExec(p, c, k)) {
      hide AtBlindSpot, Height;
      if k <= n {
        assert Low(p, c, k, MAXBACKVER);
        WalkIsFree(p, c, k);
        assert !AtBlindSpot(p, WalkExec(p, c, k));
      } else {
        FreeMore(p, c, n, k - n);
        AfterBack(p, k - n);
      }
    }
  }

  lemma AfterBack(p: seq<Instr>, m: nat)
    requires m > 0
    ensures FreeExec(p, Back([]), m) == Lost && !AtBlindSpot(p, Lost)
  {
    FreeLost(p, m - 1);
  }

  /** A walk that goes through the code is not accepted. */
  lemma NotAccepted(p: seq<Instr>, h: nat)
    requires WalkDoes(p, true, h)
    ensures !Accepts(p)
  {
    var c := At(0, []);
    var m: nat :| FreeExec(p, c, m) == At(|p|, []) && Low(p, c, m, h);
    if Accepts(p) {
      var n := AcceptedLow(p);
      hide Low;
      FreeMore(p, c, n, if m > n then m - n else 0);
      FreeMore(p, c, m, if n > m then n - m else 0);
      if n < m { AfterBack(p, m - n); } else if m < n { FreeLost(p, n - m - 1); }
    }
  }

  /** An empty loop body is refused. */
  lemma EmptyRejected()
    ensures Rejects([])
  {
    assert WalkExec([], At(0, []), 0) == At(0, []);
  }

  // ---------- Compiling ----------

  datatype Result = Code(code: seq<Instr>) | PatternTooBig | EmptyLoopBody | TooManyPending

  /** sizei: a set takes its bitmap along. */
  function CellsOf(p: Instr): nat {
    if p.ISet? || p.ISpan? then CHARSETINSTSIZE else 1
  }

  function Cells(p: seq<Instr>): nat {
    if p == [] then 0 else CellsOf(p[0]) + Cells(p[1..])
  }

  /** newpatt refuses long patterns. */
  function Bounded(p: seq<Instr>): Result {
    if Cells(p) >= MAXPATTSIZE - 1 then PatternTooBig else Code(p)
  }

  /** star_l for n >= 0 */
  ghost function Star(p: seq<Instr>, n: nat): Result {
    if ToCharset(p).IsCharset? then Bounded(RepeatCharset(p, ToCharset(p).cs, n))
    else if IsHeadFail(p) then Bounded(OptJumps(RepeatHeadFail(p, n)))
    else if Bounded(Repeats(p, n)).PatternTooBig? then PatternTooBig
    else if GivesUp(p) then TooManyPending
    else if !Accepts(p) then EmptyLoopBody
    else Code(OptJumps(Repeats(p, n)))
  }

  /** star_l for -n */
  function Optionally(p: seq<Instr>, n: nat): Result
    requires n > 0
  {
    if IsHeadFail(p) then Bounded(OptionalHeadFail(p, n)) else Bounded(Optionals(p, n))
  }

  /** A program can write the expression: the number 0 is the empty pattern, and p^0 is no optional match. */
  predicate Written(e: Peg) {
    match e
    case Any(n) => n > 0
    case NotAny(n) => n > 0
    case Seq(a, b) => Written(a) && Written(b)
    case Or(a, b) => Written(a) && Written(b)
    case Minus(a, b) => Written(a) && Written(b)
    case Not(a) => Written(a)
    case And(a) => Written(a)
    case AtLeast(a, _) => Written(a)
    case AtMost(a, n) => Written(a) && n > 0
    case _ => true
  }

  ghost function Compile(e: Peg): Result
    requires Written(e)
  {
    match e
    case Empty => Code([])
    case Never => Code([IFail])
    case Any(n) => Bounded(AnyCode(n))
    case NotAny(n) => Bounded(NotAnyCode(n))
    case Char(c) => Code([IChar(c, 0)])
    case Set(cs) => Code([ISet(cs, 0)])
    case Seq(a, b) => Both(Compile(a), Compile(b), Concats)
    case Or(a, b) => Both(Compile(a), Compile(b), Unites)
    case Minus(a, b) => Both(Compile(a), Compile(b), Differs)
    case Not(a) => (match Compile(a) case Code(p) => Bounded(Unm(p)) case r => r)
    case And(a) => (match Compile(a) case Code(p) => Bounded(PattAnd(p)) case r => r)
    case AtLeast(a, n) => (match Compile(a) case Code(p) => Star(p, n) case r => r)
    case AtMost(a, n) => (match Compile(a) case Code(p) => Optionally(p, n) case r => r)
  }

  /** The combinators of two patterns. */
  datatype Join = Concats | Unites | Differs

  function Joined(p: seq<Instr>, q: seq<Instr>, j: Join): seq<Instr> {
    match j
    case Concats => Concat(p, q)
    case Unites => Union(p, q)
    case Differs => Diff(p, q)
  }

  function Both(r: Result, q: Result, j: Join): Result {
    if !r.Code? then r else if !q.Code? then q else Bounded(Joined(r.code, q.code, j))
  }

  // ---------- Which expressions are compiled right ----------

  /** No part of the expression takes an optional 'any' for a plain one, or goes back to a choice with the wrong
      distance. */
  ghost predicate Clean(e: Peg)
    requires Written(e)
  {
    match e
    case Seq(a, b) =>
      Clean(a) && Clean(b) && (Compile(a).Code? && Compile(b).Code? ==> !BadConcat(Compile(a).code, Compile(b).code))
    case Or(a, b) =>
      Clean(a) && Clean(b) && (Compile(a).Code? && Compile(b).Code? ==> !BadUnion(Compile(a).code, Compile(b).code))
    case Minus(a, b) => Clean(a) && Clean(b)
    case Not(a) => Clean(a)
    case And(a) => Clean(a)
    case AtLeast(a, _) => Clean(a)
    case AtMost(a, _) => Clean(a)
    case _ => true
  }

  /** verify meets no blind spot in the body of any loop. */
  ghost predicate Clear(e: Peg)
    requires Written(e)
  {
    match e
    case Seq(a, b) => Clear(a) && Clear(b)
    case Or(a, b) => Clear(a) && Clear(b)
    case Minus(a, b) => Clear(a) && Clear(b)
    case Not(a) => Clear(a)
    case And(a) => Clear(a)
    case AtLeast(a, _) => Clear(a) && (Compile(a).Code? ==> !MeetsBlindSpot(Compile(a).code))
    case AtMost(a, _) => Clear(a)
    case _ => true
  }

  ghost predicate Built(e: Peg)
    requires Written(e)
  {
    Compile(e).Code? ==> Good(Compile(e).code, e)
  }

  lemma StarGood(p: seq<Instr>, e: Peg, n: nat)
    requires Good(p, e) && Star(p, n).Code?
    ensures Good(Star(p, n).code, AtLeast(e, n))
  {
    if ToCharset(p).IsCharset? {
      hide Good;
      RepeatCharsetGood(p, e, n);
    } else if IsHeadFail(p) {
      hide Good;
      RepeatHeadFailGood(p, e, n);
    } else {
      VerdictSound(p, e);
      EmptyRejected();
      hide Good, OptJumps, Repeats;
      RepeatsGood(p, e, n);
    }
  }

  /** The code of every pattern the combinators build matches what its expression matches. */
  lemma {:induction false} CompileGood(e: Peg)
    requires Written(e) && Clean(e)
    ensures Built(e)
  {
    hide Good, Concat, Union, Diff, Unm, PattAnd, Star, Bounded, BadConcat, BadUnion, Optionally;
    match e {
      case Empty => EmptyGood();
      case Never => NeverGood();
      case Any(n) => AnyGood(n); BoundedIs(AnyCode(n));
      case NotAny(n) => NotAnyGood(n); BoundedIs(NotAnyCode(n));
      case Char(c) => CheckGood(IChar(c, 0));
      case Set(cs) => CheckGood(ISet(cs, 0));
      case Seq(a, b) => SeqBuilt(a, b);
      case Or(a, b) => OrBuilt(a, b);
      case Minus(a, b) => MinusBuilt(a, b);
      case Not(a) =>
        CompileGood(a);
        if Compile(e).Code? { UnmAllGood(Compile(a).code, a); BoundedIs(Unm(Compile(a).code)); }
      case And(a) =>
        CompileGood(a);
        if Compile(e).Code? { AndAllGood(Compile(a).code, a); BoundedIs(PattAnd(Compile(a).code)); }
      case AtLeast(a, n) =>
        CompileGood(a);
        if Compile(e).Code? { StarGood(Compile(a).code, a, n); }
      case AtMost(a, n) =>
        CompileGood(a);
        if Compile(e).Code? { OptionallyGood(Compile(a).code, a, n); }
    }
  }

  lemma BoundedIs(p: seq<Instr>)
    ensures Bounded(p).Code? ==> Bounded(p).code == p
  {
  }

  lemma OptionallyGood(p: seq<Instr>, e: Peg, n: nat)
    requires Good(p, e) && n > 0 && Optionally(p, n).Code?
    ensures Good(Optionally(p, n).code, AtMost(e, n))
  {
    if IsHeadFail(p) { OptionalHeadGood(p, e, n); } else { OptionalsGood(p, e, n); }
  }

  lemma {:induction false} SeqBuilt(a: Peg, b: Peg)
    requires Written(Peg.Seq(a, b)) && Clean(Peg.Seq(a, b))
    ensures Built(Peg.Seq(a, b))
    decreases Peg.Seq(a, b), 0
  {
    hide Good, Concat, Bounded;
    CompileGood(a);
    CompileGood(b);
    if Compile(a).Code? && Compile(b).Code? {
      ConcatAllGood(Compile(a).code, Compile(b).code, a, b);
      BoundedIs(Concat(Compile(a).code, Compile(b).code));
    }
  }

  lemma {:induction false} OrBuilt(a: Peg, b: Peg)
    requires Written(Peg.Or(a, b)) && Clean(Peg.Or(a, b))
    ensures Built(Peg.Or(a, b))
    decreases Peg.Or(a, b), 0
  {
    hide Good, Union, Bounded;
    CompileGood(a);
    CompileGood(b);
    if Compile(a).Code? && Compile(b).Code? {
      UnionGood(Compile(a).code, Compile(b).code, a, b);
      BoundedIs(Union(Compile(a).code, Compile(b).code));
    }
  }

  lemma {:induction false} MinusBuilt(a: Peg, b: Peg)
    requires Written(Peg.Minus(a, b)) && Clean(Peg.Minus(a, b))
    ensures Built(Peg.Minus(a, b))
    decreases Peg.Minus(a, b), 0
  {
    hide Good, Diff, Bounded;
    CompileGood(a);
    CompileGood(b);
    if Compile(a).Code? && Compile(b).Code? {
      DiffAllGood(Compile(a).code, Compile(b).code, a, b);
      BoundedIs(Diff(Compile(a).code, Compile(b).code));
    }
  }

  // ---------- Termination ----------

  lemma {:induction false} AtLeastEnds(a: Peg, n: nat, s: seq<Byte>, i: int)
    requires Total(a) && Advances(a) && 0 <= i <= |s|
    ensures SemAtLeast(a, n, s, i) != Loop
    decreases n + |s| - i
  {
    var r := Sem(a, s, i);
    if r.Ok? { AtLeastEnds(a, if n > 0 then n - 1 else 0, s, r.j); }
  }

  lemma {:induction false} AtMostEnds(a: Peg, n: nat, s: seq<Byte>, i: int)
    requires Total(a) && 0 <= i <= |s|
    ensures SemAtMost(a, n, s, i) != Loop
    decreases n
  {
    var r := Sem(a, s, i);
    if n > 0 && r.Ok? { AtMostEnds(a, n - 1, s, r.j); }
  }

  /** The body of a loop that star_l builds consumes. */
  lemma BodyAdvances(p: seq<Instr>, e: Peg, n: nat)
    requires Good(p, e) && Star(p, n).Code? && !MeetsBlindSpot(p)
    ensures Advances(e)
  {
    if ToCharset(p).IsCharset? || IsHeadFail(p) {
      assert !IsBackAt(p, 1) by { if |p| > 1 { assert IsNoFail(p[1]); } }
      CheckFirst(p, e);
    } else {
      hide Good, Repeats, MeetsBlindSpot, Advances, Walks;
      assert Checked(p, e) by { GoodChecked(p, e); }
      VerdictSound(p, e);
    }
  }

  lemma GoodChecked(p: seq<Instr>, e: Peg)
    requires Good(p, e)
    ensures Checked(p, e) && Implements(p, e) && Shaped(p)
  {
  }

  /** Every pattern that star_l accepted for its loops comes to an end on every subject. */
  lemma {:induction false} CompileTotal(e: Peg)
    requires Written(e) && Clean(e) && Clear(e) && Compile(e).Code?
    ensures Total(e)
  {
    hide Good, Concat, Union, Diff, Unm, PattAnd, Star, Bounded, BadConcat, BadUnion, MeetsBlindSpot, Optionally;
    match e {
      case Seq(a, b) => CompileTotal(a); CompileTotal(b); SeqTotal(a, b);
      case Or(a, b) => CompileTotal(a); CompileTotal(b); ChoiceTotal(a, b);
      case Minus(a, b) => CompileTotal(a); CompileTotal(b); MinusTotal(a, b);
      case Not(a) => CompileTotal(a); PredicatesTotal(a);
      case And(a) => CompileTotal(a); PredicatesTotal(a);
      case AtLeast(a, n) =>
        CompileTotal(a);
        CompileGood(a);
        BodyAdvances(Compile(a).code, a, n);
        forall s: seq<Byte>, i | 0 <= i <= |s| ensures Sem(e, s, i) != Loop { AtLeastEnds(a, n, s, i); }
      case AtMost(a, n) =>
        CompileTotal(a);
        forall s: seq<Byte>, i | 0 <= i <= |s| ensures Sem(e, s, i) != Loop { AtMostEnds(a, n, s, i); }
      case _ =>
    }
  }

  lemma SeqTotal(a: Peg, b: Peg)
    requires Total(a) && Total(b)
    ensures Total(Peg.Seq(a, b))
  {
    forall s: seq<Byte>, i | 0 <= i <= |s| ensures Sem(Peg.Seq(a, b), s, i) != Loop {
      var r := Sem(a, s, i);
      assert r.Ok? ==> Sem(b, s, r.j) != Loop;
    }
  }

  lemma ChoiceTotal(a: Peg, b: Peg)
    requires Total(a) && Total(b)
    ensures Total(Peg.Or(a, b))
  {
    forall s: seq<Byte>, i | 0 <= i <= |s| ensures Sem(Peg.Or(a, b), s, i) != Loop {
      assert Sem(a, s, i) != Loop && Sem(b, s, i) != Loop;
    }
  }

  lemma MinusTotal(a: Peg, b: Peg)
    requires Total(a) && Total(b)
    ensures Total(Peg.Minus(a, b))
  {
    forall s: seq<Byte>, i | 0 <= i <= |s| ensures Sem(Peg.Minus(a, b), s, i) != Loop {
      assert Sem(a, s, i) != Loop && Sem(b, s, i) != Loop;
    }
  }

  lemma PredicatesTotal(a: Peg)
    requires Total(a)
    ensures Total(Peg.Not(a)) && Total(Peg.And(a))
  {
    forall s: seq<Byte>, i | 0 <= i <= |s| ensures Sem(Peg.Not(a), s, i) != Loop && Sem(Peg.And(a), s, i) != Loop {
      assert Sem(a, s, i) != Loop;
    }
  }

  /** Compiled code does on every subject what the expression says, and comes to an end. */
  lemma CompiledMatches(e: Peg, s: seq<Byte>, i: int)
    requires Written(e) && Clean(e) && Clear(e) && Compile(e).Code? && 0 <= i <= |s|
    ensures var p := Compile(e).code; var r := Sem(e, s, i);
            || (r.Ok? && i <= r.j <= |s| && Reaches(p, s, Run(0, i, []), Run(|p|, r.j, [])))
            || (r.No? && Reaches(p, s, Run(0, i, []), Failing([])))
  {
    CompileGood(e);
    CompileTotal(e);
    GoodChecked(Compile(e).code, e);
    ImplementsDoes(Compile(e).code, e, s, i);
  }
}
