/** Difference and the predicates (lpeg.c:1354-1422). */
module LpegPredicates {
  import opened Basics
  import opened LpegMachine
  import opened LpegSemantics
  import opened LpegBuild
  import opened LpegCorrect
  import opened LpegChoice

  lemma SingleCheck(p: seq<Instr>, e: Peg, s: seq<Byte>, i: int)
    requires |p| == 1 && IsCheck(p[0]) && Implements(p, e) && 0 <= i <= |s|
    ensures Sem(e, s, i) == Loop || Sem(e, s, i) == Sem(CheckPeg(p[0]), s, i)
  {
    ImplementsDoes(p, e, s, i);
    OneStep(p, s, Run(0, i, []), Step(p, s, Run(0, i, [])));
    DoesOnly(p, s, i, Sem(e, s, i));
  }

  /** A pattern that tocharset takes for a set matches exactly one character of that set. */
  lemma CharsetSem(p: seq<Instr>, e: Peg, s: seq<Byte>, i: int)
    requires ToCharset(p).IsCharset? && Implements(p, e) && 0 <= i <= |s|
    ensures Sem(e, s, i) == Loop || Sem(e, s, i) == (if i < |s| && s[i] in ToCharset(p).cs then Ok(i + 1) else No)
  {
    SingleCheck(p, e, s, i);
  }

  /** Where tocharset knows the valid starts, the pattern fails at every other character. */
  lemma StartsSem(p: seq<Instr>, e: Peg, s: seq<Byte>, i: int)
    requires !ToCharset(p).NoInfo? && Implements(p, e) && Shaped(p) && 0 <= i <= |s|
    requires i >= |s| || s[i] !in ToCharset(p).cs
    ensures Sem(e, s, i).No? || Sem(e, s, i).Loop?
  {
    ShapedBasics(p);
    SplitCheck(p, e, s, i);
  }

  lemma {:induction false} NoFailExec(code: seq<Instr>, s: seq<Byte>, c: Config, n: nat)
    requires forall k :: 0 <= k < |code| ==> IsNoFail(code[k])
    requires c.Stuck? || (c.Run? && c.stk == [])
    ensures !Exec(code, s, c, n).Failing?
    decreases n
  {
    if n > 0 { NoFailExec(code, s, Step(code, s, c), n - 1); }
  }

  /** A head-fail pattern whose check passes does not fail. */
  lemma HeadFailSem(p: seq<Instr>, e: Peg, s: seq<Byte>, i: int)
    requires IsHeadFail(p) && Implements(p, e) && Shaped(p) && 0 <= i <= |s|
    ensures Passes(p[0], s, i) ==> !Sem(e, s, i).No?
    ensures !Passes(p[0], s, i) ==> Sem(e, s, i).No? || Sem(e, s, i).Loop?
  {
    ShapedBasics(p);
    SplitCheck(p, e, s, i);
    if Passes(p[0], s, i) && Sem(e, s, i).No? {
      var tail, c := p[1..], Run(0, i + OpStep(p[0]), []);
      var n: nat :| Exec(tail, s, c, n) == Failing([]);
      NoFailExec(tail, s, c, n);
    }
  }

  // ---------- diff_l ----------

  lemma DiffCharsets(p1: seq<Instr>, p2: seq<Instr>, a: Peg, b: Peg)
    requires Implements(p1, a) && Implements(p2, b) && ToCharset(p1).IsCharset? && ToCharset(p2).IsCharset?
    ensures Implements(Diff(p1, p2), Minus(a, b)) && Shaped(Diff(p1, p2))
  {
    var cs := ToCharset(p1).cs - ToCharset(p2).cs;
    CheckCode(ISet(cs, 0));
    forall s: seq<Byte>, i | 0 <= i <= |s|
      ensures Sem(Minus(a, b), s, i) == Loop || Sem(Minus(a, b), s, i) == Sem(Set(cs), s, i)
    {
      CharsetSem(p1, a, s, i);
      CharsetSem(p2, b, s, i);
    }
    SameSem([ISet(cs, 0)], Set(cs), Minus(a, b));
  }

  lemma HeadFailTestSteps(p: seq<Instr>, off: int, rest: seq<Instr>, s: seq<Byte>, i: int)
    requires IsHeadFail(p) && off != 0
    ensures var P := ToTest(p, off) + rest;
            && Step(P, s, Run(0, i, [])) == (if Passes(p[0], s, i) then Run(1, i + OpStep(p[0]), []) else Run(off, i, []))
            && Embedded(P, 1, p[1..]) && Embedded(P, |p|, rest)
  {
    var P := ToTest(p, off) + rest;
    assert P == [WithOff(p[0], off)] + p[1..] + rest;
    PlaceOf(P, [WithOff(p[0], off)], p[1..], rest);
    assert P[0] == WithOff(p[0], off);
  }

  /** A head-fail pattern whose check has become a test: it matches, or it jumps. */
  lemma HeadFailTest(p: seq<Instr>, e: Peg, off: int, rest: seq<Instr>, s: seq<Byte>, i: int)
    requires IsHeadFail(p) && Implements(p, e) && Shaped(p) && 0 <= i <= |s| && off != 0
    ensures var P := ToTest(p, off) + rest; var r := Sem(e, s, i);
            && (r.Ok? ==> Reaches(P, s, Run(0, i, []), Run(|p|, r.j, [])))
            && (r.No? ==> Reaches(P, s, Run(0, i, []), Run(off, i, [])))
  {
    var P := ToTest(p, off) + rest;
    var r := Sem(e, s, i);
    var k := i + OpStep(p[0]);
    HeadFailSem(p, e, s, i);
    ShapedBasics(p);
    SplitCheck(p, e, s, i);
    HeadFailTestSteps(p, off, rest, s, i);
    if Passes(p[0], s, i) {
      PieceDoes(P, 1, p[1..], s, k, r, []);
      hide Reaches, Implements, Does, Sem, Step, Shaped;
      if r.Ok? {
        StepTo(P, s, Run(0, i, []), Run(1, k, []), Run(|p|, r.j, []));
      }
    } else {
      OneStep(P, s, Run(0, i, []), Run(off, i, []));
    }
  }

  lemma ToTestParts(p: seq<Instr>, x: Instr, tail: seq<Instr>)
    requires p != [] && IsCheck(p[0])
    ensures var P := ToTest(p, |p| + 1) + [x] + tail;
            && |P| == |p| + 1 + |tail| && P[0] == WithOff(p[0], |p| + 1) && P[|p|] == x
            && Embedded(P, |p| + 1, tail) && Embedded(P, 1, p[1..])
  {
    var P := ToTest(p, |p| + 1) + [x] + tail;
    assert P == [WithOff(p[0], |p| + 1)] + p[1..] + ([x] + tail);
  }

  lemma ToTestFits(p: seq<Instr>, x: Instr, tail: seq<Instr>, k: nat)
    requires Shaped(p) && p != [] && IsCheck(p[0]) && Shaped(tail) && (x.IFail? || (x.IJmp? && x.off == |tail| + 1))
    requires k < |p| + 1 + |tail|
    ensures Fits(ToTest(p, |p| + 1) + [x] + tail, k)
  {
    var L := |p| + 1;
    var P := ToTest(p, L) + [x] + tail;
    ToTestParts(p, x, tail);
    hide ToTest;
    assert Fits(p, 0);
    assert !BackJmpAt(P, L) by { if tail != [] { assert P[L] == P[L..L + |tail|][0]; } }
    if k >= L {
      PieceFits(P, L, tail, k - L);
    } else if 0 < k < |p| {
      TailFits(P, 0, p, k);
    }
  }

  lemma ToTestShaped(p: seq<Instr>, x: Instr, tail: seq<Instr>)
    requires Shaped(p) && p != [] && IsCheck(p[0]) && Shaped(tail) && (x.IFail? || (x.IJmp? && x.off == |tail| + 1))
    ensures Shaped(ToTest(p, |p| + 1) + [x] + tail)
  {
    var P := ToTest(p, |p| + 1) + [x] + tail;
    ToTestParts(p, x, tail);
    hide ToTest, Fits, JmpsHaveTests, Shaped, Embedded;
    HasTest(P, 0);
    forall k | 0 <= k < |P| ensures Fits(P, k) {
      ToTestFits(p, x, tail, k);
    }
    ShapedFrom(P);
  }

  /** The code of e1 - e2, once e2 has been tried: it fails behind e2, or goes on with e1 at the same position. */
  lemma MinusDoes(P: seq<Instr>, L: nat, p1: seq<Instr>, a: Peg, b: Peg, s: seq<Byte>, i: int, c: Config)
    requires Implements(p1, a) && 0 <= i <= |s| && Embedded(P, L, p1) && L + |p1| == |P|
    requires Sem(b, s, i).Ok? ==> Reaches(P, s, Run(0, i, []), c) && Step(P, s, c) == Failing([])
    requires Sem(b, s, i).No? ==> Reaches(P, s, Run(0, i, []), Run(L, i, []))
    ensures Does(P, s, i, Sem(Minus(a, b), s, i))
  {
    ImplementsDoes(p1, a, s, i);
    var r, q := Sem(b, s, i), Sem(a, s, i);
    PieceDoes(P, L, p1, s, i, q, []);
    hide Reaches, Implements, Step;
    if r.Ok? {
      OneStep(P, s, c, Failing([]));
      ReachesTrans(P, s, Run(0, i, []), c, Failing([]));
    } else if r.No? {
      if q.Ok? {
        ReachesTrans(P, s, Run(0, i, []), Run(L, i, []), Run(|P|, q.j, []));
      } else if q.No? {
        ReachesTrans(P, s, Run(0, i, []), Run(L, i, []), Failing([]));
      }
    }
  }

  lemma DiffHeadFail(p1: seq<Instr>, p2: seq<Instr>, a: Peg, b: Peg)
    requires Implements(p1, a) && Implements(p2, b) && Shaped(p1) && Shaped(p2) && IsHeadFail(p2)
    ensures var P := ToTest(p2, |p2| + 1) + [IFail] + p1; Implements(P, Minus(a, b)) && Shaped(P)
  {
    var L := |p2| + 1;
    var rest := [IFail] + p1;
    var P := ToTest(p2, L) + rest;
    assert P == ToTest(p2, L) + [IFail] + p1;
    assert Embedded(P, L, p1);
    assert P[|p2|] == IFail;
    ToTestShaped(p2, IFail, p1);
    hide Shaped, Reaches, IsHeadFail;
    forall s: seq<Byte>, i | 0 <= i <= |s| ensures Does(P, s, i, Sem(Minus(a, b), s, i)) {
      HeadFailTest(p2, b, L, rest, s, i);
      var j := if Sem(b, s, i).Ok? then Sem(b, s, i).j else 0;
      MinusDoes(P, L, p1, a, b, s, i, Run(|p2|, j, []));
    }
  }

  lemma DiffChoice(p1: seq<Instr>, p2: seq<Instr>, a: Peg, b: Peg)
    requires Implements(p1, a) && Implements(p2, b) && Shaped(p1) && Shaped(p2)
    ensures var P := Guarded(p2, |p2| + 2, [IFailTwice] + p1); Implements(P, Minus(a, b)) && Shaped(P)
  {
    var L := |p2| + 2;
    var rest := [IFailTwice] + p1;
    var P := Guarded(p2, L, rest);
    GuardedIs(p2, L, rest);
    GuardedEnd(p2, L, rest, 0);
    assert Embedded(P, L, p1);
    GuardedShaped(p2, IFailTwice, p1);
    hide Shaped, Reaches, Guarded;
    forall s: seq<Byte>, i | 0 <= i <= |s| ensures Does(P, s, i, Sem(Minus(a, b), s, i)) {
      GuardedDoes(p2, b, L, rest, s, i);
      var j := if Sem(b, s, i).Ok? then Sem(b, s, i).j else 0;
      MinusDoes(P, L, p1, a, b, s, i, Run(1 + |p2|, j, [Entry(L, i)]));
    }
  }

  lemma DiffGood(p1: seq<Instr>, p2: seq<Instr>, a: Peg, b: Peg)
    requires Implements(p1, a) && Implements(p2, b) && Shaped(p1) && Shaped(p2)
    ensures Implements(Diff(p1, p2), Minus(a, b)) && Shaped(Diff(p1, p2))
  {
    if ToCharset(p1).IsCharset? && ToCharset(p2).IsCharset? {
      DiffCharsets(p1, p2, a, b);
    } else if IsHeadFail(p2) {
      DiffHeadFail(p1, p2, a, b);
    } else {
      DiffChoice(p1, p2, a, b);
      assert [IChoice(|p2| + 2, 0)] + p2 + [IFailTwice] + p1 == [IChoice(|p2| + 2, 0)] + p2 + ([IFailTwice] + p1);
    }
  }

  // ---------- unm_l and pattand_l ----------

  lemma UnmGood(p: seq<Instr>, e: Peg)
    requires Implements(p, e) && Shaped(p)
    ensures Implements(Unm(p), Not(e)) && Shaped(Unm(p))
  {
    if StartsWithFail(p) {
      EmptyCode();
      forall s: seq<Byte>, i | 0 <= i <= |s| ensures Sem(Not(e), s, i) == Loop || Sem(Not(e), s, i) == Sem(Empty, s, i) {
        FailAtOnce(p, e, s, i);
      }
      SameSem([], Empty, Not(e));
    } else if p == [] {
      NeverCode();
      forall s: seq<Byte>, i | 0 <= i <= |s| ensures Sem(Not(e), s, i) == Loop || Sem(Not(e), s, i) == Sem(Never, s, i) {
        NothingMatches(e, s, i);
      }
      SameSem([IFail], Never, Not(e));
    } else {
      EmptyCode();
      DiffGood([], p, Empty, e);
      SameSem(Diff([], p), Minus(Empty, e), Not(e));
    }
  }

  lemma AndCharset(p: seq<Instr>, e: Peg)
    requires Implements(p, e) && Shaped(p) && ToCharset(p).IsCharset?
    ensures Implements(p + [IBack(1)], And(e)) && Shaped(p + [IBack(1)])
  {
    var P := p + [IBack(1)];
    assert Shaped(P) by {
      assert P[0] == p[0] && P[1] == IBack(1) && Fits(p, 0);
      assert forall k :: 0 <= k < |P| ==> Fits(P, k);
      NoJmps(P);
    }
    forall s: seq<Byte>, i | 0 <= i <= |s| ensures Does(P, s, i, Sem(And(e), s, i)) {
      CharsetSem(p, e, s, i);
      assert P[0] == p[0] && P[1] == IBack(1);
      if Sem(e, s, i).Ok? {
        assert Step(P, s, Run(0, i, [])) == Run(1, i + 1, []) && Step(P, s, Run(1, i + 1, [])) == Run(2, i, []);
        OneStep(P, s, Run(1, i + 1, []), Run(2, i, []));
        StepTo(P, s, Run(0, i, []), Run(1, i + 1, []), Run(2, i, []));
      } else if Sem(e, s, i).No? {
        OneStep(P, s, Run(0, i, []), Failing([]));
      }
    }
  }

  lemma AndChoice(p: seq<Instr>, e: Peg)
    requires Implements(p, e) && Shaped(p)
    ensures var P := [IChoice(|p| + 2, 0)] + p + [IBackCommit(2), IFail]; Implements(P, And(e)) && Shaped(P)
  {
    var L := |p| + 2;
    var P := [IChoice(L, 0)] + p + [IBackCommit(2), IFail];
    forall s: seq<Byte>, i | 0 <= i <= |s| ensures Does(P, s, i, Sem(And(e), s, i)) {
      PlainChoiceDoes(p, e, L, [IBackCommit(2), IFail], s, i, P);
      assert P[1 + |p|] == IBackCommit(2) && P[L] == IFail;
      var r := Sem(e, s, i);
      if r.Ok? {
        OneStep(P, s, Run(1 + |p|, r.j, [Entry(L, i)]), Run(L + 1, i, []));
        ReachesTrans(P, s, Run(0, i, []), Run(1 + |p|, r.j, [Entry(L, i)]), Run(L + 1, i, []));
      } else if r.No? {
        OneStep(P, s, Run(L, i, []), Failing([]));
        ReachesTrans(P, s, Run(0, i, []), Run(L, i, []), Failing([]));
      }
    }
    AndShaped(p);
  }

  lemma AndShaped(p: seq<Instr>)
    requires Shaped(p)
    ensures Shaped([IChoice(|p| + 2, 0)] + p + [IBackCommit(2), IFail])
  {
    var P := [IChoice(|p| + 2, 0)] + p + [IBackCommit(2), IFail];
    assert Embedded(P, 1, p);
    assert P[0] == IChoice(|p| + 2, 0) && P[1 + |p|] == IBackCommit(2) && P[2 + |p|] == IFail;
    forall k | 0 <= k < |P| ensures Fits(P, k) {
      if 1 <= k <= |p| { PieceFits(P, 1, p, k - 1); }
    }
    hide Fits, JmpsHaveTests, Shaped, Embedded;
    if k :| 0 <= k < |P| && P[k].IJmp? {
      TestOf(P, 1, p, k - 1);
    } else {
      NoJmps(P);
    }
    ShapedFrom(P);
  }

  lemma AndGood(p: seq<Instr>, e: Peg)
    requires Implements(p, e) && Shaped(p)
    ensures Implements(PattAnd(p), And(e)) && Shaped(PattAnd(p))
  {
    if StartsWithFail(p) {
      forall s: seq<Byte>, i | 0 <= i <= |s| ensures Sem(And(e), s, i) == Loop || Sem(And(e), s, i) == Sem(e, s, i) {
        FailAtOnce(p, e, s, i);
      }
      SameSem(p, e, And(e));
    } else if p == [] {
      forall s: seq<Byte>, i | 0 <= i <= |s| ensures Sem(And(e), s, i) == Loop || Sem(And(e), s, i) == Sem(e, s, i) {
        NothingMatches(e, s, i);
      }
      SameSem(p, e, And(e));
    } else if ToCharset(p).IsCharset? {
      AndCharset(p, e);
    } else {
      AndChoice(p, e);
    }
  }
}
