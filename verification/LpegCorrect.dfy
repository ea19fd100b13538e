/** The code of each combinator does what its parsing expression says: what is common to them, and concatenation
    (lpeg.c:1333-1351). */
module LpegCorrect {
  import opened Basics
  import opened LpegMachine
  import opened LpegSemantics
  import opened LpegBuild

  /** A jump backwards, which only the loop of a head-fail pattern has. */
  predicate IsBackJmp(p: Instr) {
    p.IJmp? && p.off <= 0
  }

  /** The instruction that ends the body of a loop. */
  predicate EndsLoop(p: Instr) {
    (p.IJmp? || p.IPartialCommit?) && p.off <= 0
  }

  /** Instruction k keeps the rules of code: a check consumes something, a test jumps forward, a jump stays inside and
      neither goes back to a check at the front nor to a jump backwards. */
  predicate Fits(code: seq<Instr>, k: nat)
    requires k < |code|
  {
    && (IsFixCheckOp(code[k]) ==> OpStep(code[k]) >= 1 && code[k].off >= 0)
    && (IsJump(code[k]) ==>
          var t := k + code[k].off;
          && 0 <= t <= |code| && (t == 0 ==> !IsCheck(code[0]))
          && (t < |code| ==> !IsBackJmp(code[t]))
          && (EndsLoop(code[k]) ==> t < |code| && !code[t].IJmp?))
  }

  /** Only code with a test has a plain jump. */
  predicate JmpsHaveTests(code: seq<Instr>) {
    (exists k :: 0 <= k < |code| && code[k].IJmp?) ==> exists k :: 0 <= k < |code| && IsTest(code[k])
  }

  /** What is true of the code of every pattern. */
  ghost predicate Shaped(code: seq<Instr>) {
    && (forall k :: 0 <= k < |code| ==> Fits(code, k))
    && JmpsHaveTests(code) && (code != [] ==> !code[0].IJmp?)
  }

  lemma ShapedBasics(code: seq<Instr>)
    requires Shaped(code)
    ensures JumpsInside(code) && FrontFree(code)
    ensures forall k :: 0 <= k < |code| && IsFixCheckOp(code[k]) ==> OpStep(code[k]) >= 1 && code[k].off >= 0
  {
    forall k | 0 <= k < |code|
      ensures IsFixCheckOp(code[k]) ==> OpStep(code[k]) >= 1 && code[k].off >= 0
      ensures IsJump(code[k]) ==> 0 <= k + code[k].off <= |code| && (IsCheck(code[0]) ==> k + code[k].off != 0)
    {
      assert Fits(code, k);
    }
  }

  lemma ShapedFrom(code: seq<Instr>)
    requires (forall k :: 0 <= k < |code| ==> Fits(code, k)) && JmpsHaveTests(code) && (code != [] ==> !code[0].IJmp?)
    ensures Shaped(code)
  {
  }

  predicate BackJmpAt(P: seq<Instr>, k: nat) {
    k < |P| && IsBackJmp(P[k])
  }

  /** Instruction k of a piece that stands at b in code P; what stands behind the piece is no jump backwards. */
  lemma PieceFits(P: seq<Instr>, b: nat, piece: seq<Instr>, k: nat)
    requires Shaped(piece) && k < |piece| && Embedded(P, b, piece) && !BackJmpAt(P, b + |piece|)
    ensures Fits(P, b + k)
  {
    assert Fits(piece, k);
    assert P[b + k] == P[b..b + |piece|][k];
    assert P[b] == P[b..b + |piece|][0];
    if IsJump(piece[k]) {
      var t := k + piece[k].off;
      if 0 <= t < |piece| {
        assert P[b + t] == P[b..b + |piece|][t];
      }
    }
  }

  /** The same for a piece whose first instruction, a check, has been replaced. */
  lemma TailFits(P: seq<Instr>, b: nat, piece: seq<Instr>, k: nat)
    requires Shaped(piece) && 0 < k < |piece| && IsCheck(piece[0]) && Embedded(P, b + 1, piece[1..])
    requires !BackJmpAt(P, b + |piece|) && (b == 0 ==> !IsCheck(P[0]))
    ensures Fits(P, b + k)
  {
    var Q := P[b + 1..b + 1 + |piece[1..]|];
    assert Fits(piece, k);
    assert P[b + k] == Q[k - 1] == piece[k];
    if IsJump(piece[k]) {
      var t := k + piece[k].off;
      assert t != 0;
      if 0 < t < |piece| {
        assert P[b + t] == Q[t - 1] == piece[t];
      }
    }
  }

  lemma HasTest(P: seq<Instr>, k: nat)
    requires k < |P| && IsTest(P[k])
    ensures JmpsHaveTests(P)
  {
  }

  /** Pieces with jumps bring their tests. */
  lemma TestOf(P: seq<Instr>, b: nat, piece: seq<Instr>, k: nat)
    requires Shaped(piece) && Embedded(P, b, piece) && k < |piece| && P[b + k].IJmp?
    ensures JmpsHaveTests(P)
  {
    assert P[b + k] == P[b..b + |piece|][k];
    var j :| 0 <= j < |piece| && IsTest(piece[j]);
    assert P[b + j] == P[b..b + |piece|][j];
  }

  lemma StepTo(P: seq<Instr>, s: seq<Byte>, c: Config, d: Config, e: Config)
    requires Step(P, s, c) == d && Reaches(P, s, d, e)
    ensures Reaches(P, s, c, e)
  {
    ReachesThen(P, s, c, e);
  }

  lemma OneStep(P: seq<Instr>, s: seq<Byte>, c: Config, d: Config)
    requires Step(P, s, c) == d
    ensures Reaches(P, s, c, d)
  {
    ReachesStep(P, s, c);
  }

  lemma PlaceOf(P: seq<Instr>, a: seq<Instr>, b: seq<Instr>, c: seq<Instr>)
    requires P == a + b + c
    ensures Embedded(P, |a|, b)
  {
  }

  // ---------- Primitive patterns ----------

  lemma EmptyCode()
    ensures Implements([], Empty) && Shaped([])
  {
    forall s: seq<Byte>, i | 0 <= i <= |s| ensures Does([], s, i, Sem(Empty, s, i)) {
      ReachesRefl([], s, Run(0, i, []));
    }
  }

  lemma NeverCode()
    ensures Implements([IFail], Never) && Shaped([IFail])
  {
    forall s: seq<Byte>, i | 0 <= i <= |s| ensures Does([IFail], s, i, Sem(Never, s, i)) {
      OneStep([IFail], s, Run(0, i, []), Failing([]));
    }
  }

  /** What a single check matches. */
  function CheckPeg(p: Instr): Peg
    requires IsFixCheckOp(p)
  {
    match p
    case IAny(n, _) => Any(n)
    case IChar(c, _) => Char(c)
    case ISet(cs, _) => Set(cs)
  }

  lemma CheckCode(p: Instr)
    requires IsCheck(p)
    ensures Implements([p], CheckPeg(p)) && (OpStep(p) >= 1 ==> Shaped([p]))
  {
    forall s: seq<Byte>, i | 0 <= i <= |s| ensures Does([p], s, i, Sem(CheckPeg(p), s, i)) {
      OneStep([p], s, Run(0, i, []), Step([p], s, Run(0, i, [])));
    }
  }

  // ---------- Concatenation ----------

  lemma ConcatDoes(p1: seq<Instr>, p2: seq<Instr>, a: Peg, b: Peg)
    requires Implements(p1, a) && Implements(p2, b)
    ensures Implements(p1 + p2, Seq(a, b))
  {
    var P := p1 + p2;
    forall s: seq<Byte>, i | 0 <= i <= |s| ensures Does(P, s, i, Sem(Seq(a, b), s, i)) {
      ImplementsDoes(p1, a, s, i);
      assert Embedded(P, 0, p1) && Embedded(P, |p1|, p2);
      var r := Sem(a, s, i);
      PieceDoes(P, 0, p1, s, i, r, []);
      if r.Ok? {
        ImplementsDoes(p2, b, s, r.j);
        var q := Sem(b, s, r.j);
        PieceDoes(P, |p1|, p2, s, r.j, q, []);
        hide Reaches, Implements, Does;
        if q.Ok? {
          ReachesTrans(P, s, Run(0, i, []), Run(|p1|, r.j, []), Run(|P|, q.j, []));
        } else if q.No? {
          ReachesTrans(P, s, Run(0, i, []), Run(|p1|, r.j, []), Failing([]));
        }
      }
    }
  }

  lemma ConcatShaped(p1: seq<Instr>, p2: seq<Instr>)
    requires Shaped(p1) && Shaped(p2) && p1 != []
    ensures Shaped(p1 + p2)
  {
    var P := p1 + p2;
    assert Embedded(P, 0, p1) && Embedded(P, |p1|, p2);
    assert p2 != [] ==> P[|p1|] == p2[0];
    assert P[0] == p1[0];
    hide Fits, JmpsHaveTests, Embedded;
    forall k | 0 <= k < |P| ensures Fits(P, k) {
      if k < |p1| { PieceFits(P, 0, p1, k); } else { PieceFits(P, |p1|, p2, k - |p1|); }
    }
    if k :| 0 <= k < |P| && P[k].IJmp? {
      if k < |p1| { TestOf(P, 0, p1, k); } else { TestOf(P, |p1|, p2, k - |p1|); }
    } else {
      NoJmps(P);
    }
  }

  lemma NoJmps(P: seq<Instr>)
    requires forall k :: 0 <= k < |P| ==> !P[k].IJmp?
    ensures JmpsHaveTests(P)
  {
  }

  lemma FailAtOnce(p: seq<Instr>, e: Peg, s: seq<Byte>, i: int)
    requires Implements(p, e) && StartsWithFail(p) && 0 <= i <= |s|
    ensures Sem(e, s, i).No? || Sem(e, s, i).Loop?
  {
    ImplementsDoes(p, e, s, i);
    OneStep(p, s, Run(0, i, []), Failing([]));
    DoesOnly(p, s, i, Sem(e, s, i));
  }

  lemma NothingMatches(e: Peg, s: seq<Byte>, i: int)
    requires Implements([], e) && 0 <= i <= |s|
    ensures Sem(e, s, i) == Ok(i) || Sem(e, s, i).Loop?
  {
    ImplementsDoes([], e, s, i);
    ReachesRefl([], s, Run(0, i, []));
    DoesOnly([], s, i, Sem(e, s, i));
  }

  lemma {:induction false} AnyCodeDoes(n: nat)
    requires n > 0
    ensures Implements(AnyCode(n), Any(n)) && Shaped(AnyCode(n))
    ensures forall k :: 0 <= k < |AnyCode(n)| ==> AnyCode(n)[k].IAny? && AnyCode(n)[k].off == 0
    decreases n
  {
    if n > UCHAR_MAX {
      AnyCodeDoes(n - UCHAR_MAX);
      CheckCode(IAny(UCHAR_MAX, 0));
      ConcatDoes([IAny(UCHAR_MAX, 0)], AnyCode(n - UCHAR_MAX), Any(UCHAR_MAX), Any(n - UCHAR_MAX));
      ConcatShaped([IAny(UCHAR_MAX, 0)], AnyCode(n - UCHAR_MAX));
      SameSem(AnyCode(n), Seq(Any(UCHAR_MAX), Any(n - UCHAR_MAX)), Any(n));
    } else {
      CheckCode(IAny(n, 0));
    }
  }

  lemma SameSem(code: seq<Instr>, a: Peg, b: Peg)
    requires Implements(code, a)
    requires forall s: seq<Byte>, i :: 0 <= i <= |s| ==> Sem(b, s, i) == Loop || Sem(b, s, i) == Sem(a, s, i)
    ensures Implements(code, b)
  {
    hide Does, Sem;
    forall s: seq<Byte>, i | 0 <= i <= |s| ensures Does(code, s, i, Sem(b, s, i)) {
      ImplementsDoes(code, a, s, i);
      assert Does(code, s, i, Loop) by { LoopDoes(code, s, i); }
    }
  }

  lemma LoopDoes(code: seq<Instr>, s: seq<Byte>, i: int)
    ensures Does(code, s, i, Loop)
  {
  }

  /** concat_l takes an optional 'any', which is a single test, for a plain one. It goes wrong exactly then, except
      when the optional one comes first and is not the longer one. */
  predicate BadConcat(p1: seq<Instr>, p2: seq<Instr>) {
    IsSingleAny(p1) && IsSingleAny(p2) && (p2[0].off != 0 || (p1[0].off != 0 && p2[0].n < p1[0].n))
  }

  /** The outcome of a single IAny instruction: a plain one can fail, an optional one goes on where it is. */
  lemma SingleAny(p: seq<Instr>, e: Peg, s: seq<Byte>, i: int)
    requires IsSingleAny(p) && Shaped(p) && Implements(p, e) && 0 <= i <= |s|
    ensures || Sem(e, s, i) == Loop
            || Sem(e, s, i) == (if p[0].n <= |s| - i then Ok(i + p[0].n) else if p[0].off == 0 then No else Ok(i))
  {
    ImplementsDoes(p, e, s, i);
    OneStep(p, s, Run(0, i, []), Step(p, s, Run(0, i, [])));
    assert Fits(p, 0);
    DoesOnly(p, s, i, Sem(e, s, i));
  }

  lemma ConcatAnys(p1: seq<Instr>, p2: seq<Instr>, a: Peg, b: Peg)
    requires Implements(p1, a) && Implements(p2, b) && Shaped(p1) && Shaped(p2) && !BadConcat(p1, p2)
    requires IsSingleAny(p1) && IsSingleAny(p2)
    ensures Implements(Concat(p1, p2), Seq(a, b)) && Shaped(Concat(p1, p2))
  {
    var e := Seq(a, b);
    var m, n := p1[0].n, p2[0].n;
    assert Fits(p1, 0) && Fits(p2, 0);
    AnyCodeDoes(m + n);
    forall s: seq<Byte>, i | 0 <= i <= |s| ensures Sem(e, s, i) == Loop || Sem(e, s, i) == Sem(Any(m + n), s, i) {
      SingleAny(p1, a, s, i);
      if Sem(a, s, i).Ok? { SingleAny(p2, b, s, Sem(a, s, i).j); }
    }
    SameSem(AnyCode(m + n), Any(m + n), e);
  }

  /** Concatenation is right, unless it takes an optional 'any' for a plain one. */
  lemma ConcatGood(p1: seq<Instr>, p2: seq<Instr>, a: Peg, b: Peg)
    requires Implements(p1, a) && Implements(p2, b) && Shaped(p1) && Shaped(p2) && !BadConcat(p1, p2)
    ensures Implements(Concat(p1, p2), Seq(a, b)) && Shaped(Concat(p1, p2))
  {
    if StartsWithFail(p1) || p2 == [] || StartsWithFail(p2) || p1 == [] {
      ConcatTrivial(p1, p2, a, b);
    } else if IsSingleAny(p1) && IsSingleAny(p2) {
      ConcatAnys(p1, p2, a, b);
    } else {
      ConcatDoes(p1, p2, a, b);
      ConcatShaped(p1, p2);
    }
  }

  function AnyPeg(p: seq<Instr>): Peg
    requires IsSingleAny(p)
  {
    if p[0].off == 0 then Any(p[0].n) else AtMost(Any(p[0].n), 1)
  }

  lemma OptionalAny(n: nat, s: seq<Byte>, i: int)
    ensures Sem(AtMost(Any(n), 1), s, i) == if n <= |s| - i then Ok(i + n) else Ok(i)
  {
    assert SemAtMost(Any(n), 0, s, i + n) == Ok(i + n);
    assert Sem(Any(n), s, i) == if n <= |s| - i then Ok(i + n) else No;
    assert SemAtMost(Any(n), 1, s, i) == if n <= |s| - i then SemAtMost(Any(n), 0, s, i + n) else Ok(i);
  }

  lemma AnyPegDoes(p: seq<Instr>)
    requires IsSingleAny(p) && Shaped(p)
    ensures Implements(p, AnyPeg(p))
  {
    assert Fits(p, 0);
    forall s: seq<Byte>, i | 0 <= i <= |s| ensures Does(p, s, i, Sem(AnyPeg(p), s, i)) {
      OptionalAny(p[0].n, s, i);
      OneStep(p, s, Run(0, i, []), Step(p, s, Run(0, i, [])));
    }
  }

  lemma Zeros(k: nat) returns (s: seq<Byte>)
    ensures |s| == k
  {
    s := seq(k, i => 0);
  }

  /** In every bad case there is a subject on which the concatenation fails and should match. */
  lemma ConcatBreaks(p1: seq<Instr>, p2: seq<Instr>)
    requires Shaped(p1) && Shaped(p2) && BadConcat(p1, p2)
    ensures Implements(p1, AnyPeg(p1)) && Implements(p2, AnyPeg(p2))
    ensures !Implements(Concat(p1, p2), Seq(AnyPeg(p1), AnyPeg(p2)))
  {
    AnyPegDoes(p1);
    AnyPegDoes(p2);
    hide Implements;
    ConcatFails(p1, p2);
  }

  lemma ConcatFails(p1: seq<Instr>, p2: seq<Instr>)
    requires Shaped(p1) && Shaped(p2) && BadConcat(p1, p2)
    ensures !Implements(Concat(p1, p2), Seq(AnyPeg(p1), AnyPeg(p2)))
  {
    var e := Seq(AnyPeg(p1), AnyPeg(p2));
    var m, n := p1[0].n, p2[0].n;
    assert Fits(p1, 0) && Fits(p2, 0);
    var code := AnyCode(m + n);
    var s := Zeros(if p1[0].off == 0 then m else if p2[0].off == 0 then n else 0);
    AnyCodeDoes(m + n);
    ImplementsDoes(code, Any(m + n), s, 0);
    assert Sem(Any(m + n), s, 0) == No;
    DoesOnly(code, s, 0, No);
    OptionalAny(m, s, 0);
    assert Sem(AnyPeg(p1), s, 0) == if p1[0].off == 0 then Ok(m) else Ok(0);
    OptionalAny(n, s, |s|);
    assert Sem(e, s, 0) == Ok(|s|);
    assert !Does(code, s, 0, Ok(|s|));
    if Implements(code, e) {
      ImplementsDoes(code, e, s, 0);
      assert false;
    }
  }

  lemma ConcatTrivial(p1: seq<Instr>, p2: seq<Instr>, a: Peg, b: Peg)
    requires Implements(p1, a) && Implements(p2, b)
    requires StartsWithFail(p1) || p2 == [] || StartsWithFail(p2) || p1 == []
    ensures Implements(Concat(p1, p2), Seq(a, b))
  {
    var e := Seq(a, b);
    if StartsWithFail(p1) {
      forall s: seq<Byte>, i | 0 <= i <= |s| ensures Sem(e, s, i) == Loop || Sem(e, s, i) == Sem(a, s, i) {
        FailAtOnce(p1, a, s, i);
      }
      SameSem(p1, a, e);
    } else if p2 == [] {
      forall s: seq<Byte>, i | 0 <= i <= |s| ensures Sem(e, s, i) == Loop || Sem(e, s, i) == Sem(a, s, i) {
        if Sem(a, s, i).Ok? { NothingMatches(b, s, Sem(a, s, i).j); }
      }
      SameSem(p1, a, e);
    } else if StartsWithFail(p2) {
      forall s: seq<Byte>, i | 0 <= i <= |s| ensures Sem(e, s, i) == Loop || (Sem(e, s, i) == No) {
        if Sem(a, s, i).Ok? { FailAtOnce(p2, b, s, Sem(a, s, i).j); }
      }
      FailsEverywhere(p2, e);
    } else {
      forall s: seq<Byte>, i | 0 <= i <= |s| ensures Sem(e, s, i) == Loop || Sem(e, s, i) == Sem(b, s, i) {
        NothingMatches(a, s, i);
      }
      SameSem(p2, b, e);
    }
  }

  lemma FailsEverywhere(p: seq<Instr>, e: Peg)
    requires StartsWithFail(p) && forall s: seq<Byte>, i :: 0 <= i <= |s| ==> Sem(e, s, i) == Loop || Sem(e, s, i) == No
    ensures Implements(p, e)
  {
    hide Sem;
    forall s: seq<Byte>, i | 0 <= i <= |s| ensures Does(p, s, i, Sem(e, s, i)) {
      OneStep(p, s, Run(0, i, []), Failing([]));
    }
  }
}
