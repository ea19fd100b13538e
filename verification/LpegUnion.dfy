/** Ordered choice (lpeg.c:1507-1568). */
module LpegUnion {
  import opened Basics
  import opened LpegMachine
  import opened LpegSemantics
  import opened LpegBuild
  import opened LpegCorrect
  import opened LpegChoice
  import opened LpegPredicates

  /** Where e does not loop it matches what a matches. */
  ghost predicate Same(a: Peg, e: Peg) {
    forall s: seq<Byte>, i :: 0 <= i <= |s| ==> Sem(e, s, i) == Loop || Sem(e, s, i) == Sem(a, s, i)
  }

  // ---------- The three forms of an alternative in front of the others ----------

  /** choice L1; M; commit L2; L1: rest; L2: */
  function ChoiceForm(M: seq<Instr>, rest: seq<Instr>): seq<Instr> {
    Guarded(M, |M| + 2, [ICommit(|rest| + 1)] + rest)
  }

  /** test M L1; jump L2; L1: rest; L2: */
  function TestForm(M: seq<Instr>, rest: seq<Instr>): seq<Instr>
    requires M != []
  {
    ToTest(M, |M| + 1) + [IJmp(|rest| + 1)] + rest
  }

  /** test L1; choice L1; M; commit L2; L1: rest; L2: with a fixed distance of 1 for the choice. */
  function LooseForm(M: seq<Instr>, rest: seq<Instr>): seq<Instr>
    requires M != []
  {
    [WithOff(M[0], |M| + 2), IChoice(|M| + 1, 1)] + M[1..] + [ICommit(|rest| + 1)] + rest
  }

  /** choice L1; q; partialcommit; q; ...; commit L2; L1: rest; L2: */
  function OptionalForm(q: seq<Instr>, n: nat, rest: seq<Instr>): seq<Instr>
    requires n > 0
  {
    OptimizeChoice([IChoice(1 + n * (|q| + 1), 0)] + OptionalBodies(q, n, |rest| + 1) + rest)
  }

  /** The alternative behind has been entered at position k, after whatever went before. */
  lemma RestDoes(P: seq<Instr>, L: nat, rest: seq<Instr>, b: Peg, s: seq<Byte>, c: Config, k: int)
    requires Implements(rest, b) && 0 <= k <= |s| && Embedded(P, L, rest) && L + |rest| == |P|
    requires Reaches(P, s, c, Run(L, k, []))
    ensures Sem(b, s, k).Ok? ==> Reaches(P, s, c, Run(|P|, Sem(b, s, k).j, []))
    ensures Sem(b, s, k).No? ==> Reaches(P, s, c, Failing([]))
  {
    var r := Sem(b, s, k);
    ImplementsDoes(rest, b, s, k);
    PieceDoes(P, L, rest, s, k, r, []);
    hide Reaches, Implements;
    if r.Ok? {
      ReachesTrans(P, s, c, Run(L, k, []), Run(|P|, r.j, []));
    } else if r.No? {
      ReachesTrans(P, s, c, Run(L, k, []), Failing([]));
    }
  }

  lemma ChoiceFormDoes(M: seq<Instr>, rest: seq<Instr>, a: Peg, b: Peg)
    requires Implements(M, a) && Shaped(M) && Implements(rest, b) && Shaped(rest)
    ensures Implements(ChoiceForm(M, rest), Or(a, b)) && Shaped(ChoiceForm(M, rest))
  {
    var P := ChoiceForm(M, rest);
    var L := |M| + 2;
    var x := ICommit(|rest| + 1);
    GuardedParts(M, x, rest);
    GuardedShaped(M, x, rest);
    hide Shaped, Guarded, ChoiceForm;
    forall s: seq<Byte>, i | 0 <= i <= |s| ensures Does(P, s, i, Sem(Or(a, b), s, i)) {
      GuardedDoes(M, a, L, [x] + rest, s, i);
      hide Reaches;
      var r := Sem(a, s, i);
      if r.Ok? {
        var c := Run(1 + |M|, r.j, [Entry(L, i)]);
        OneStep(P, s, c, Run(|P|, r.j, []));
        ReachesTrans(P, s, Run(0, i, []), c, Run(|P|, r.j, []));
      } else if r.No? {
        RestDoes(P, L, rest, b, s, Run(0, i, []), i);
      }
    }
  }

  /** Where the check of M passes and M fails, the alternatives fail as well. */
  ghost predicate Exclude(M: seq<Instr>, a: Peg, b: Peg)
    requires M != [] && IsCheck(M[0])
  {
    forall s: seq<Byte>, i :: 0 <= i <= |s| && Passes(M[0], s, i) && Sem(a, s, i).No? ==>
      Sem(b, s, i).No? || Sem(b, s, i).Loop?
  }

  lemma TestFormDoes(M: seq<Instr>, rest: seq<Instr>, a: Peg, b: Peg)
    requires Implements(M, a) && Shaped(M) && Implements(rest, b) && Shaped(rest)
    requires M != [] && IsCheck(M[0]) && Exclude(M, a, b)
    ensures Implements(TestForm(M, rest), Or(a, b)) && Shaped(TestForm(M, rest))
  {
    var P := TestForm(M, rest);
    ToTestParts(M, IJmp(|rest| + 1), rest);
    ToTestShaped(M, IJmp(|rest| + 1), rest);
    hide TestForm, Exclude;
    forall s: seq<Byte>, i | 0 <= i <= |s| ensures Does(P, s, i, Sem(Or(a, b), s, i)) {
      if Passes(M[0], s, i) {
        TestPasses(M, rest, a, b, s, i);
      } else {
        ShapedBasics(M);
        SplitCheck(M, a, s, i);
        hide Shaped;
        OneStep(P, s, Run(0, i, []), Run(|M| + 1, i, []));
        RestDoes(P, |M| + 1, rest, b, s, Run(0, i, []), i);
      }
    }
  }

  lemma TestPasses(M: seq<Instr>, rest: seq<Instr>, a: Peg, b: Peg, s: seq<Byte>, i: int)
    requires Implements(M, a) && Shaped(M) && M != [] && IsCheck(M[0]) && Exclude(M, a, b)
    requires 0 <= i <= |s| && Passes(M[0], s, i)
    ensures Does(TestForm(M, rest), s, i, Sem(Or(a, b), s, i))
  {
    var P := TestForm(M, rest);
    var k := i + OpStep(M[0]);
    var r := Sem(a, s, i);
    ToTestParts(M, IJmp(|rest| + 1), rest);
    ShapedBasics(M);
    SplitCheck(M, a, s, i);
    PieceDoes(P, 1, M[1..], s, k, r, []);
    assert Step(P, s, Run(0, i, [])) == Run(1, k, []);
    hide Reaches, Implements, Shaped, TestForm;
    if r.Ok? {
      OneStep(P, s, Run(|M|, r.j, []), Run(|P|, r.j, []));
      ReachesTrans(P, s, Run(1, k, []), Run(|M|, r.j, []), Run(|P|, r.j, []));
      StepTo(P, s, Run(0, i, []), Run(1, k, []), Run(|P|, r.j, []));
    } else if r.No? {
      StepTo(P, s, Run(0, i, []), Run(1, k, []), Failing([]));
    }
  }

  lemma LooseParts(M: seq<Instr>, rest: seq<Instr>)
    requires M != [] && IsCheck(M[0])
    ensures var P := LooseForm(M, rest);
            && |P| == |M| + 2 + |rest| && P[0] == WithOff(M[0], |M| + 2) && P[1] == IChoice(|M| + 1, 1)
            && P[|M| + 1] == ICommit(|rest| + 1) && Embedded(P, 2, M[1..]) && Embedded(P, |M| + 2, rest)
  {
    var P := LooseForm(M, rest);
    var front := [WithOff(M[0], |M| + 2), IChoice(|M| + 1, 1)];
    assert P == front + M[1..] + ([ICommit(|rest| + 1)] + rest);
  }

  lemma LooseShaped(M: seq<Instr>, rest: seq<Instr>)
    requires Shaped(M) && M != [] && IsCheck(M[0]) && Shaped(rest)
    ensures Shaped(LooseForm(M, rest))
  {
    var P := LooseForm(M, rest);
    LooseParts(M, rest);
    hide LooseForm;
    assert Fits(M, 0);
    assert !BackJmpAt(P, |M| + 2) by { if rest != [] { assert P[|M| + 2] == P[|M| + 2..|P|][0]; } }
    HasTest(P, 0);
    forall k | 0 <= k < |P| ensures Fits(P, k) {
      if k >= |M| + 2 {
        PieceFits(P, |M| + 2, rest, k - |M| - 2);
      } else if 1 < k <= |M| {
        TailFits(P, 1, M, k - 1);
      }
    }
    hide Fits, JmpsHaveTests;
  }

  /** What the loose form matches: where the check passes and M fails, the alternatives are tried one character before
      the end of the check. */
  function LooseOutcome(M: seq<Instr>, a: Peg, b: Peg, s: seq<Byte>, i: int): Outcome
    requires M != [] && IsCheck(M[0])
  {
    match Sem(a, s, i)
    case No => Sem(b, s, if Passes(M[0], s, i) then i + OpStep(M[0]) - 1 else i)
    case r => r
  }

  lemma LooseRuns(M: seq<Instr>, rest: seq<Instr>, a: Peg, b: Peg, s: seq<Byte>, i: int)
    requires Implements(M, a) && Shaped(M) && M != [] && IsCheck(M[0]) && Implements(rest, b) && 0 <= i <= |s|
    ensures Does(LooseForm(M, rest), s, i, LooseOutcome(M, a, b, s, i))
  {
    var P := LooseForm(M, rest);
    LooseParts(M, rest);
    if Passes(M[0], s, i) {
      LoosePasses(M, rest, a, b, s, i);
    } else {
      ShapedBasics(M);
      SplitCheck(M, a, s, i);
      hide Shaped, IsHeadFail, LooseForm;
      OneStep(P, s, Run(0, i, []), Run(|M| + 2, i, []));
      RestDoes(P, |M| + 2, rest, b, s, Run(0, i, []), i);
    }
  }

  lemma LoosePasses(M: seq<Instr>, rest: seq<Instr>, a: Peg, b: Peg, s: seq<Byte>, i: int)
    requires Implements(M, a) && Shaped(M) && M != [] && IsCheck(M[0]) && Implements(rest, b)
    requires 0 <= i <= |s| && Passes(M[0], s, i)
    ensures Does(LooseForm(M, rest), s, i, LooseOutcome(M, a, b, s, i))
  {
    var P := LooseForm(M, rest);
    var k := i + OpStep(M[0]);
    var stk := [Entry(|M| + 2, k - 1)];
    var c := Run(0, i, []);
    var r := Sem(a, s, i);
    LooseParts(M, rest);
    ShapedBasics(M);
    SplitCheck(M, a, s, i);
    PieceDoes(P, 2, M[1..], s, k, r, stk);
    assert Step(P, s, c) == Run(1, k, []);
    assert Step(P, s, Run(1, k, [])) == Run(2, k, stk);
    hide Reaches, Implements, Shaped, LooseForm, IsHeadFail;
    if r.Ok? {
      OneStep(P, s, Run(|M| + 1, r.j, stk), Run(|P|, r.j, []));
      ReachesTrans(P, s, Run(2, k, stk), Run(|M| + 1, r.j, stk), Run(|P|, r.j, []));
      StepTo(P, s, Run(1, k, []), Run(2, k, stk), Run(|P|, r.j, []));
      StepTo(P, s, c, Run(1, k, []), Run(|P|, r.j, []));
    } else if r.No? {
      var d := Run(|M| + 2, k - 1, []);
      OneStep(P, s, Failing(stk), d);
      ReachesTrans(P, s, Run(2, k, stk), Failing(stk), d);
      StepTo(P, s, Run(1, k, []), Run(2, k, stk), d);
      StepTo(P, s, c, Run(1, k, []), d);
      RestDoes(P, |M| + 2, rest, b, s, c, k - 1);
    }
  }

  /** On some subject the check of M passes, and M fails all the same. */
  ghost predicate FailsBehind(M: seq<Instr>)
    requires M != [] && IsCheck(M[0])
  {
    exists s: seq<Byte>, i :: 0 <= i <= |s| && Passes(M[0], s, i) && Reaches(M, s, Run(0, i, []), Failing([]))
  }

  /** Where the check of M passes, a does not fail. */
  ghost predicate SureBehind(M: seq<Instr>, a: Peg)
    requires M != [] && IsCheck(M[0])
  {
    forall s: seq<Byte>, i :: 0 <= i <= |s| && Passes(M[0], s, i) ==> !Sem(a, s, i).No?
  }

  lemma NoWayBehind(M: seq<Instr>, a: Peg)
    requires Implements(M, a) && M != [] && IsCheck(M[0]) && !FailsBehind(M)
    ensures SureBehind(M, a)
  {
    hide Sem, Passes, Does, Implements;
    forall s: seq<Byte>, i | 0 <= i <= |s| && Passes(M[0], s, i) ensures !Sem(a, s, i).No? {
      ImplementsDoes(M, a, s, i);
      if Sem(a, s, i).No? { DoesFail(M, s, i); }
    }
  }

  lemma DoesFail(M: seq<Instr>, s: seq<Byte>, i: int)
    requires Does(M, s, i, No)
    ensures Reaches(M, s, Run(0, i, []), Failing([]))
  {
  }

  /** The distance does not matter if M cannot fail behind its check. */
  lemma LooseFormDoes(M: seq<Instr>, rest: seq<Instr>, a: Peg, b: Peg)
    requires Implements(M, a) && Shaped(M) && Implements(rest, b) && Shaped(rest)
    requires M != [] && IsCheck(M[0]) && SureBehind(M, a)
    ensures Implements(LooseForm(M, rest), Or(a, b)) && Shaped(LooseForm(M, rest))
  {
    var P := LooseForm(M, rest);
    LooseShaped(M, rest);
    hide LooseForm, Shaped, Implements;
    forall s: seq<Byte>, i | 0 <= i <= |s| ensures Does(P, s, i, Sem(Or(a, b), s, i)) {
      LooseRuns(M, rest, a, b, s, i);
    }
  }

  /** The alternatives match the same from the wrong place. */
  ghost predicate SameFromBehind(M: seq<Instr>, a: Peg, b: Peg)
    requires M != [] && IsCheck(M[0])
  {
    forall s: seq<Byte>, i :: 0 <= i <= |s| && Sem(a, s, i).No? && Passes(M[0], s, i) ==>
      Sem(b, s, i + OpStep(M[0]) - 1) == Sem(b, s, i)
  }

  /** The loose form is a choice exactly if the alternatives match the same from the wrong place. */
  lemma LooseFormExact(M: seq<Instr>, rest: seq<Instr>, a: Peg, b: Peg)
    requires Implements(M, a) && Shaped(M) && M != [] && IsCheck(M[0]) && Implements(rest, b)
    requires forall s: seq<Byte>, i :: 0 <= i <= |s| ==> Sem(a, s, i) != Loop && Sem(b, s, i) != Loop
    ensures Implements(LooseForm(M, rest), Or(a, b)) <==> SameFromBehind(M, a, b)
  {
    var P := LooseForm(M, rest);
    forall s: seq<Byte>, i | 0 <= i <= |s|
      ensures Does(P, s, i, Sem(Or(a, b), s, i)) <==> LooseOutcome(M, a, b, s, i) == Sem(Or(a, b), s, i)
    {
      ShapedBasics(M);
      LooseRuns(M, rest, a, b, s, i);
      DoesOnly(P, s, i, LooseOutcome(M, a, b, s, i));
      assert Sem(Or(a, b), s, i) == (match Sem(a, s, i) case No => Sem(b, s, i) case r => r);
      assert 0 <= i + OpStep(M[0]) - 1;
      assert Passes(M[0], s, i) ==> i + OpStep(M[0]) - 1 <= |s|;
    }
    hide LooseForm, Passes, IsCheck, Sem, Does, Shaped;
    if Implements(P, Or(a, b)) {
      forall s: seq<Byte>, i | 0 <= i <= |s| && Sem(a, s, i).No? && Passes(M[0], s, i)
        ensures Sem(b, s, i + OpStep(M[0]) - 1) == Sem(b, s, i)
      {
        OrSem(a, b, s, i);
        assert Does(P, s, i, Sem(Or(a, b), s, i));
      }
      assert SameFromBehind(M, a, b);
    } else {
      var s: seq<Byte>, i :| 0 <= i <= |s| && !Does(P, s, i, Sem(Or(a, b), s, i));
      OrSem(a, b, s, i);
      assert Sem(a, s, i).No? && Passes(M[0], s, i);
      assert Sem(b, s, i + OpStep(M[0]) - 1) != Sem(b, s, i);
      assert !SameFromBehind(M, a, b);
    }
  }

  lemma OrSem(a: Peg, b: Peg, s: seq<Byte>, i: int)
    ensures Sem(Or(a, b), s, i) == match Sem(a, s, i) case No => Sem(b, s, i) case r => r
  {
  }
}
