/** Choices: the plain form, and the form in which a check has moved in front of the choice (lpeg.c:919-929, 1354-1381, 1507-1535). */
module LpegChoice {
  import opened Basics
  import opened LpegMachine
  import opened LpegSemantics
  import opened LpegBuild
  import opened LpegCorrect

  /** choice L; p; rest, with the check of p in front of the choice if there is one. */
  function Guarded(p: seq<Instr>, L: int, rest: seq<Instr>): seq<Instr> {
    OptimizeChoice([IChoice(L, 0)] + p + rest)
  }

  predicate Hoisted(p: seq<Instr>) {
    p != [] && IsCheck(p[0])
  }

  lemma GuardedIs(p: seq<Instr>, L: int, rest: seq<Instr>)
    requires rest != [] && !IsFixCheckOp(rest[0])
    ensures Guarded(p, L, rest) ==
            if Hoisted(p) then [WithOff(p[0], L), IChoice(L - 1, OpStep(p[0]))] + p[1..] + rest
            else [IChoice(L, 0)] + p + rest
    ensures |Guarded(p, L, rest)| == 1 + |p| + |rest|
  {
    var q := [IChoice(L, 0)] + p + rest;
    if p == [] {
      assert q[1] == rest[0];
    } else {
      assert q[1] == p[0];
      assert q[2..] == p[1..] + rest;
    }
  }

  /** The body of a choice runs with an entry on the stack that leads to L and to the position of the choice. */
  lemma GuardedDoes(p: seq<Instr>, e: Peg, L: int, rest: seq<Instr>, s: seq<Byte>, i: int)
    requires Implements(p, e) && Shaped(p) && rest != [] && !IsFixCheckOp(rest[0]) && 0 <= i <= |s| && L != 0
    ensures var P := Guarded(p, L, rest); var r := Sem(e, s, i);
            && (r.Ok? ==> Reaches(P, s, Run(0, i, []), Run(1 + |p|, r.j, [Entry(L, i)])))
            && (r.No? ==> Reaches(P, s, Run(0, i, []), Run(L, i, [])))
  {
    var P := Guarded(p, L, rest);
    GuardedIs(p, L, rest);
    if Hoisted(p) {
      HoistedDoes(p, e, L, rest, s, i, P);
    } else {
      PlainChoiceDoes(p, e, L, rest, s, i, P);
    }
  }

  lemma PlainChoiceDoes(p: seq<Instr>, e: Peg, L: int, rest: seq<Instr>, s: seq<Byte>, i: int, P: seq<Instr>)
    requires Implements(p, e) && 0 <= i <= |s| && P == [IChoice(L, 0)] + p + rest
    ensures var r := Sem(e, s, i);
            && (r.Ok? ==> Reaches(P, s, Run(0, i, []), Run(1 + |p|, r.j, [Entry(L, i)])))
            && (r.No? ==> Reaches(P, s, Run(0, i, []), Run(L, i, [])))
  {
    var stk := [Entry(L, i)];
    var r := Sem(e, s, i);
    assert Step(P, s, Run(0, i, [])) == Run(1, i, stk);
    assert Step(P, s, Failing(stk)) == Run(L, i, []);
    assert Embedded(P, 1, p) by { PlaceOf(P, [IChoice(L, 0)], p, rest); }
    ImplementsDoes(p, e, s, i);
    PieceDoes(P, 1, p, s, i, r, stk);
    hide Reaches, Implements, Does, Sem, Step;
    if r.Ok? {
      StepTo(P, s, Run(0, i, []), Run(1, i, stk), Run(1 + |p|, r.j, stk));
    } else if r.No? {
      OneStep(P, s, Failing(stk), Run(L, i, []));
      ReachesTrans(P, s, Run(1, i, stk), Failing(stk), Run(L, i, []));
      StepTo(P, s, Run(0, i, []), Run(1, i, stk), Run(L, i, []));
    }
  }

  lemma HoistedSteps(p: seq<Instr>, L: int, rest: seq<Instr>, s: seq<Byte>, i: int, P: seq<Instr>)
    requires Hoisted(p) && P == [WithOff(p[0], L), IChoice(L - 1, OpStep(p[0]))] + p[1..] + rest && L != 0
    ensures if Passes(p[0], s, i) then
              && Step(P, s, Run(0, i, [])) == Run(1, i + OpStep(p[0]), [])
              && Step(P, s, Run(1, i + OpStep(p[0]), [])) == Run(2, i + OpStep(p[0]), [Entry(L, i)])
            else Step(P, s, Run(0, i, [])) == Run(L, i, [])
    ensures Embedded(P, 2, p[1..]) && Step(P, s, Failing([Entry(L, i)])) == Run(L, i, [])
  {
    assert P[0] == WithOff(p[0], L) && P[1] == IChoice(L - 1, OpStep(p[0]));
    PlaceOf(P, [WithOff(p[0], L), IChoice(L - 1, OpStep(p[0]))], p[1..], rest);
  }

  lemma HoistedDoes(p: seq<Instr>, e: Peg, L: int, rest: seq<Instr>, s: seq<Byte>, i: int, P: seq<Instr>)
    requires Implements(p, e) && Shaped(p) && Hoisted(p) && 0 <= i <= |s| && L != 0
    requires P == [WithOff(p[0], L), IChoice(L - 1, OpStep(p[0]))] + p[1..] + rest
    ensures var r := Sem(e, s, i);
            && (r.Ok? ==> Reaches(P, s, Run(0, i, []), Run(1 + |p|, r.j, [Entry(L, i)])))
            && (r.No? ==> Reaches(P, s, Run(0, i, []), Run(L, i, [])))
  {
    var stk := [Entry(L, i)];
    var r := Sem(e, s, i);
    var k := i + OpStep(p[0]);
    HoistedSteps(p, L, rest, s, i, P);
    ShapedBasics(p);
    SplitCheck(p, e, s, i);
    if Passes(p[0], s, i) {
      PieceDoes(P, 2, p[1..], s, k, r, stk);
      hide Reaches, Implements, Does, Sem, Step, Shaped;
      if r.Ok? {
        StepTo(P, s, Run(1, k, []), Run(2, k, stk), Run(1 + |p|, r.j, stk));
        StepTo(P, s, Run(0, i, []), Run(1, k, []), Run(1 + |p|, r.j, stk));
      } else if r.No? {
        OneStep(P, s, Failing(stk), Run(L, i, []));
        ReachesTrans(P, s, Run(2, k, stk), Failing(stk), Run(L, i, []));
        StepTo(P, s, Run(1, k, []), Run(2, k, stk), Run(L, i, []));
        StepTo(P, s, Run(0, i, []), Run(1, k, []), Run(L, i, []));
      }
    } else {
      OneStep(P, s, Run(0, i, []), Run(L, i, []));
    }
  }

  lemma GuardedEnd(p: seq<Instr>, L: int, rest: seq<Instr>, k: nat)
    requires rest != [] && !IsFixCheckOp(rest[0]) && k < |rest|
    ensures Guarded(p, L, rest)[1 + |p| + k] == rest[k]
    ensures Embedded(Guarded(p, L, rest), 1 + |p|, rest)
  {
    GuardedIs(p, L, rest);
    var P := Guarded(p, L, rest);
    if Hoisted(p) {
      var front := [WithOff(p[0], L), IChoice(L - 1, OpStep(p[0]))] + p[1..];
      assert P == front + rest && |front| == 1 + |p|;
    } else {
      var front := [IChoice(L, 0)] + p;
      assert P == front + rest && |front| == 1 + |p|;
    }
  }

  /** What a choice is followed by: the instruction that ends its body, and the alternative. */
  predicate Ends(x: Instr, n: nat) {
    x.IFailTwice? || (x.ICommit? && x.off == n + 1)
  }

  /** The parts of a choice with its ending instruction and its alternative. */
  lemma GuardedParts(p: seq<Instr>, x: Instr, tail: seq<Instr>)
    requires Ends(x, |tail|)
    ensures var P := Guarded(p, |p| + 2, [x] + tail);
            && |P| == |p| + 2 + |tail| && P[|p| + 1] == x && Embedded(P, |p| + 2, tail)
            && (if Hoisted(p) then
                  P[0] == WithOff(p[0], |p| + 2) && P[1] == IChoice(|p| + 1, OpStep(p[0])) && Embedded(P, 2, p[1..])
                else P[0] == IChoice(|p| + 2, 0) && Embedded(P, 1, p))
  {
    var L := |p| + 2;
    var P := Guarded(p, L, [x] + tail);
    GuardedIs(p, L, [x] + tail);
    hide Guarded, WithOff, OpStep;
    if Hoisted(p) {
      FourParts(P, [WithOff(p[0], L), IChoice(L - 1, OpStep(p[0]))], p[1..], x, tail);
    } else {
      FourParts(P, [IChoice(L, 0)], p, x, tail);
    }
  }

  lemma FourParts(P: seq<Instr>, front: seq<Instr>, body: seq<Instr>, x: Instr, tail: seq<Instr>)
    requires P == front + body + ([x] + tail)
    ensures |P| == |front| + |body| + 1 + |tail| && P[|front| + |body|] == x
    ensures Embedded(P, |front|, body) && Embedded(P, |front| + |body| + 1, tail)
    ensures forall k :: 0 <= k < |front| ==> P[k] == front[k]
  {
    assert P == front + body + [x] + tail;
  }

  lemma GuardedFits(p: seq<Instr>, x: Instr, tail: seq<Instr>, k: nat)
    requires Shaped(p) && Shaped(tail) && Ends(x, |tail|) && k < |p| + 2 + |tail|
    ensures var P := Guarded(p, |p| + 2, [x] + tail); |P| == |p| + 2 + |tail| && Fits(P, k)
  {
    var L := |p| + 2;
    var P := Guarded(p, L, [x] + tail);
    GuardedParts(p, x, tail);
    hide Guarded;
    assert !BackJmpAt(P, L) by { if tail != [] { assert P[L] == P[L..L + |tail|][0]; } }
    if k >= L {
      PieceFits(P, L, tail, k - L);
    } else if k == |p| + 1 || k == 0 {
      if p != [] { assert Fits(p, 0); }
    } else if Hoisted(p) {
      if k > 1 { TailFits(P, 1, p, k - 1); }
    } else {
      PieceFits(P, 1, p, k - 1);
    }
  }

  lemma GuardedShaped(p: seq<Instr>, x: Instr, tail: seq<Instr>)
    requires Shaped(p) && Shaped(tail) && Ends(x, |tail|)
    ensures Shaped(Guarded(p, |p| + 2, [x] + tail))
    ensures var P := Guarded(p, |p| + 2, [x] + tail); P[0].IChoice? || IsTest(P[0])
  {
    var L := |p| + 2;
    var P := Guarded(p, L, [x] + tail);
    GuardedParts(p, x, tail);
    hide Guarded, Fits, JmpsHaveTests, Shaped, Embedded;
    forall k | 0 <= k < |P| ensures Fits(P, k) {
      GuardedFits(p, x, tail, k);
    }
    if k :| 0 <= k < |P| && P[k].IJmp? {
      if k >= L {
        TestOf(P, L, tail, k - L);
      } else if Hoisted(p) {
        HasTest(P, 0);
      } else {
        TestOf(P, 1, p, k - 1);
      }
    } else {
      NoJmps(P);
    }
    ShapedFrom(P);
  }
}
