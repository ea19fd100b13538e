/** Joining a new alternative to code that is itself a choice (lpeg.c:1460-1504, 1538-1587). */
module LpegSplit {
  import opened Basics
  import opened LpegMachine
  import opened LpegSemantics
  import opened LpegBuild
  import opened LpegCorrect
  import opened LpegChoice
  import opened LpegPredicates
  import opened LpegUnion
  import opened LpegOptional
  import opened LpegVerify
  import opened LpegChecked

  /** How code that firstpart takes apart has been put together, from the body of its first part. */
  datatype Form =
    | Choice(M: seq<Instr>, a: Peg, b: Peg)
    | Test(M: seq<Instr>, a: Peg, b: Peg)
    | Loose(M: seq<Instr>, a: Peg, b: Peg)
    | Optional(q: seq<Instr>, x: Peg, n: nat, b: Peg)

  ghost predicate FormOf(p: seq<Instr>, sp: nat, rest: seq<Instr>, e: Peg, f: Form) {
    match f
    case Choice(M, a, b) =>
      p == ChoiceForm(M, rest) && sp == |M| + 2 && Implements(M, a) && Shaped(M) && Checked(M, a)
      && Same(Or(a, b), e)
    case Test(M, a, b) =>
      && M != [] && IsCheck(M[0]) && p == TestForm(M, rest) && sp == |M| + 1 && Implements(M, a) && Shaped(M)
      && Checked(M, a) && Same(Or(a, b), e) && Exclude(M, a, b)
    case Loose(M, a, b) =>
      && M != [] && IsCheck(M[0]) && SureBehind(M, a) && p == LooseForm(M, rest) && sp == |M| + 2 && Implements(M, a)
      && Shaped(M) && Checked(M, a) && Same(Or(a, b), e)
    case Optional(q, x, n, b) =>
      && n > 0 && p == OptionalForm(q, n, rest) && sp == 1 + n * (|q| + 1) && Implements(q, x) && Shaped(q)
      && Checked(q, x) && b.Empty? && EmptyTail(rest) && Same(AtMost(x, n), e)
  }

  ghost predicate SplitBy(p: seq<Instr>, e: Peg, f: Form)
    requires FirstPart(p) > 0
    decreases |p|, 0
  {
    var rest := p[FirstPart(p)..];
    && FormOf(p, FirstPart(p), rest, e, f) && Implements(rest, f.b) && Shaped(rest) && Checked(rest, f.b)
    && Splits(rest, f.b)
  }

  /** Code that firstpart takes apart is a choice, and its parts are the alternatives. */
  ghost predicate Splits(p: seq<Instr>, e: Peg)
    decreases |p|, 1
  {
    FirstPart(p) > 0 ==> exists f: Form :: SplitBy(p, e, f)
  }

  lemma SameSame(a: Peg, e: Peg, g: Peg)
    requires Same(a, e) && Same(e, g)
    ensures Same(a, g)
  {
    hide Sem;
    forall s: seq<Byte>, i | 0 <= i <= |s| ensures Sem(g, s, i) == Loop || Sem(g, s, i) == Sem(a, s, i) {
    }
  }

  lemma FormSame(p: seq<Instr>, sp: nat, rest: seq<Instr>, e: Peg, g: Peg, f: Form)
    requires FormOf(p, sp, rest, e, f) && Same(e, g)
    ensures FormOf(p, sp, rest, g, f)
  {
    hide Same, Implements, Shaped, Checked, EmptyTail, Exclude, SureBehind, ChoiceForm, TestForm, LooseForm, OptionalForm;
    match f {
      case Choice(M, a, b) => SameSame(Or(a, b), e, g);
      case Test(M, a, b) => SameSame(Or(a, b), e, g);
      case Loose(M, a, b) => SameSame(Or(a, b), e, g);
      case Optional(q, x, n, b) => SameSame(AtMost(x, n), e, g);
    }
  }

  lemma SplitsSame(p: seq<Instr>, e: Peg, g: Peg)
    requires Splits(p, e) && Same(e, g)
    ensures Splits(p, g)
  {
    hide Same, Implements, Shaped, Checked, FormOf;
    if FirstPart(p) > 0 {
      var f :| SplitBy(p, e, f);
      FormSame(p, FirstPart(p), p[FirstPart(p)..], e, g, f);
      assert SplitBy(p, g, f);
    }
  }

  // ---------- firstpart finds the parts ----------

  lemma ChoicePart(M: seq<Instr>, rest: seq<Instr>)
    ensures FirstPart(ChoiceForm(M, rest)) == |M| + 2 && ChoiceForm(M, rest)[|M| + 2..] == rest
    ensures ChoiceForm(M, rest)[|M| + 1] == ICommit(|rest| + 1)
  {
    GuardedParts(M, ICommit(|rest| + 1), rest);
  }

  lemma TestPart(M: seq<Instr>, rest: seq<Instr>)
    requires M != [] && IsCheck(M[0])
    ensures FirstPart(TestForm(M, rest)) == |M| + 1 && TestForm(M, rest)[|M| + 1..] == rest
    ensures TestForm(M, rest)[|M|] == IJmp(|rest| + 1) && TestForm(M, rest)[0] == WithOff(M[0], |M| + 1)
  {
    ToTestParts(M, IJmp(|rest| + 1), rest);
  }

  lemma LoosePart(M: seq<Instr>, rest: seq<Instr>)
    requires M != [] && IsCheck(M[0])
    ensures FirstPart(LooseForm(M, rest)) == |M| + 2 && LooseForm(M, rest)[|M| + 2..] == rest
    ensures LooseForm(M, rest)[|M| + 1] == ICommit(|rest| + 1)
  {
    LooseParts(M, rest);
  }

  lemma {:induction false} LastBody(q: seq<Instr>, n: nat, last: int)
    requires n > 0
    ensures var all := OptionalBodies(q, n, last); all[|all| - 1] == ICommit(last)
    ensures forall other: int :: OptionalBodies(q, n, other) ==
              OptionalBodies(q, n, last)[..|OptionalBodies(q, n, last)| - 1] + [ICommit(other)]
    decreases n
  {
    if n > 1 {
      LastBody(q, n - 1, last);
      var tail := OptionalBodies(q, n - 1, last);
      forall other: int ensures OptionalBodies(q, n, other) ==
          OptionalBodies(q, n, last)[..|OptionalBodies(q, n, last)| - 1] + [ICommit(other)] {
        assert OptionalBodies(q, n - 1, other) == tail[..|tail| - 1] + [ICommit(other)];
      }
    }
  }

  /** Up to the last commit the code does not depend on what follows it. */
  lemma OptionalEnds(q: seq<Instr>, n: nat, rest: seq<Instr>, more: seq<Instr>)
    requires n > 0
    ensures var P := OptionalForm(q, n, rest); var sp := 1 + n * (|q| + 1);
            && |P| == sp + |rest| && P[sp..] == rest && P[sp - 1] == ICommit(|rest| + 1)
            && OptionalForm(q, n, more) == P[..sp - 1] + [ICommit(|more| + 1)] + more
  {
    var sp := 1 + n * (|q| + 1);
    var last, other := |rest| + 1, |more| + 1;
    var all := OptionalBodies(q, n, last);
    BodiesLength(q, n, last);
    LastBody(q, n, last);
    var front := all[..|all| - 1];
    assert all == front + [ICommit(last)] && OptionalBodies(q, n, other) == front + [ICommit(other)];
    hide OptionalBodies, OptimizeChoice;
    OptimizeSame([IChoice(sp, 0)] + front, ICommit(last), rest, ICommit(other), more);
    assert [IChoice(sp, 0)] + all + rest == [IChoice(sp, 0)] + front + [ICommit(last)] + rest;
    assert [IChoice(sp, 0)] + OptionalBodies(q, n, other) + more == [IChoice(sp, 0)] + front + [ICommit(other)] + more;
  }

  lemma OptionalPart(q: seq<Instr>, n: nat, rest: seq<Instr>, more: seq<Instr>)
    requires n > 0
    ensures var P := OptionalForm(q, n, rest); var sp := 1 + n * (|q| + 1);
            && FirstPart(P) == sp && sp <= |P| && P[sp..] == rest && P[sp - 1] == ICommit(|rest| + 1)
            && OptionalForm(q, n, more) == P[..sp - 1] + [ICommit(|more| + 1)] + more
  {
    OptionalEnds(q, n, rest, more);
    OptionalIs(q, n, rest);
    hide OptionalForm, Guarded;
  }

  /** optimizechoice looks at two instructions only. */
  lemma OptimizeFront(front: seq<Instr>, tail: seq<Instr>)
    requires front != [] && front[0].IChoice? && tail != [] && !IsFixCheckOp(tail[0])
    ensures |OptimizeChoice(front)| == |front| && OptimizeChoice(front + tail) == OptimizeChoice(front) + tail
  {
    var p := front + tail;
    assert p[0] == front[0] && p[1] == (if |front| > 1 then front[1] else tail[0]);
    if |front| > 1 && IsCheck(front[1]) {
      var q := [WithOff(front[1], front[0].off), IChoice(front[0].off - 1, OpStep(front[1]))];
      assert p[2..] == front[2..] + tail;
      assert OptimizeChoice(front) == q + front[2..];
      hide OptimizeChoice, WithOff, OpStep;
      assert q + (front[2..] + tail) == q + front[2..] + tail;
    }
  }

  lemma OptimizeSame(front: seq<Instr>, x: Instr, rest: seq<Instr>, y: Instr, more: seq<Instr>)
    requires front != [] && front[0].IChoice? && !IsFixCheckOp(x) && !IsFixCheckOp(y)
    ensures var P := OptimizeChoice(front + [x] + rest);
            && |P| == |front| + 1 + |rest| && P[|front|] == x && P[|front| + 1..] == rest
            && OptimizeChoice(front + [y] + more) == P[..|front|] + [y] + more
  {
    hide OptimizeChoice;
    OptimizeFront(front, [x] + rest);
    OptimizeFront(front, [y] + more);
    assert front + [x] + rest == front + ([x] + rest) && front + [y] + more == front + ([y] + more);
    var P := OptimizeChoice(front) + ([x] + rest);
    assert P[..|front|] == OptimizeChoice(front);
  }

  // ---------- Two alternatives ----------

  lemma ChoiceSplits(M: seq<Instr>, rest: seq<Instr>, a: Peg, b: Peg, e: Peg)
    requires Implements(M, a) && Shaped(M) && Implements(rest, b) && Shaped(rest) && Splits(rest, b) && Same(Or(a, b), e)
    requires Checked(M, a) && Checked(rest, b)
    ensures var P := ChoiceForm(M, rest); Implements(P, e) && Shaped(P) && Splits(P, e) && Checked(P, e)
  {
    var P := ChoiceForm(M, rest);
    ChoiceFormDoes(M, rest, a, b);
    ChoicePart(M, rest);
    ChoiceFormChecked(M, rest, a, b);
    hide Checked, Implements, Shaped, ChoiceForm, Sem;
    assert SplitBy(P, e, Choice(M, a, b));
    CheckedSame(P, Or(a, b), e);
    SameSem(P, Or(a, b), e);
  }

  lemma TestSplits(M: seq<Instr>, rest: seq<Instr>, a: Peg, b: Peg, e: Peg)
    requires Implements(M, a) && Shaped(M) && Implements(rest, b) && Shaped(rest) && Splits(rest, b) && Same(Or(a, b), e)
    requires Checked(M, a) && Checked(rest, b)
    requires M != [] && IsCheck(M[0]) && Exclude(M, a, b)
    ensures var P := TestForm(M, rest); Implements(P, e) && Shaped(P) && Splits(P, e) && Checked(P, e)
  {
    var P := TestForm(M, rest);
    TestFormDoes(M, rest, a, b);
    TestPart(M, rest);
    TestFormChecked(M, rest, a, b);
    hide Checked, Implements, Shaped, TestForm, Sem, Exclude;
    assert SplitBy(P, e, Test(M, a, b));
    CheckedSame(P, Or(a, b), e);
    SameSem(P, Or(a, b), e);
  }

  lemma LooseSplits(M: seq<Instr>, rest: seq<Instr>, a: Peg, b: Peg, e: Peg)
    requires Implements(M, a) && Shaped(M) && Implements(rest, b) && Shaped(rest) && Splits(rest, b) && Same(Or(a, b), e)
    requires Checked(M, a) && Checked(rest, b)
    requires M != [] && IsCheck(M[0]) && SureBehind(M, a)
    ensures var P := LooseForm(M, rest); Implements(P, e) && Shaped(P) && Splits(P, e) && Checked(P, e)
  {
    var P := LooseForm(M, rest);
    LooseFormDoes(M, rest, a, b);
    LoosePart(M, rest);
    LooseFormChecked(M, rest, a, b);
    hide Checked, Implements, Shaped, LooseForm, SureBehind, Sem;
    assert SplitBy(P, e, Loose(M, a, b));
    CheckedSame(P, Or(a, b), e);
    SameSem(P, Or(a, b), e);
  }

  lemma OptionalSplits(q: seq<Instr>, n: nat, rest: seq<Instr>, x: Peg, e: Peg)
    requires n > 0 && Implements(q, x) && Shaped(q) && Implements(rest, Empty) && Shaped(rest) && Splits(rest, Empty)
    requires Same(AtMost(x, n), e) && Checked(q, x) && Checked(rest, Empty) && EmptyTail(rest)
    ensures var P := OptionalForm(q, n, rest); Implements(P, e) && Shaped(P) && Splits(P, e) && Checked(P, e)
  {
    var P := OptionalForm(q, n, rest);
    OptionalFormDoes(q, x, n, rest);
    OptionalShaped(q, n, rest);
    OptionalPart(q, n, rest, rest);
    OptionalFormChecked(q, n, rest, x, e);
    hide Checked, EmptyTail, Implements, Shaped, OptionalForm, Sem;
    assert SplitBy(P, e, Optional(q, x, n, Empty));
    SameSem(P, AtMost(x, n), e);
  }

  lemma SameRefl(e: Peg)
    ensures Same(e, e)
  {
  }

  lemma NotSplit(p: seq<Instr>, e: Peg)
    requires FirstPart(p) == 0
    ensures Splits(p, e)
  {
  }

  lemma UnionCharsets(p1: seq<Instr>, p2: seq<Instr>, a: Peg, b: Peg)
    requires Implements(p1, a) && Implements(p2, b) && ToCharset(p1).IsCharset? && ToCharset(p2).IsCharset?
    ensures var P := BasicUnion(p1, p2);
            Implements(P, Or(a, b)) && Shaped(P) && Splits(P, Or(a, b)) && Checked(P, Or(a, b))
  {
    var cs := ToCharset(p1).cs + ToCharset(p2).cs;
    CheckCode(ISet(cs, 0));
    forall s: seq<Byte>, i | 0 <= i <= |s| ensures Sem(Or(a, b), s, i) == Loop || Sem(Or(a, b), s, i) == Sem(Set(cs), s, i) {
      CharsetSem(p1, a, s, i);
      CharsetSem(p2, b, s, i);
    }
    SameSem([ISet(cs, 0)], Set(cs), Or(a, b));
    CheckAdvances(ISet(cs, 0));
    CheckChecked(ISet(cs, 0), Set(cs));
    CheckedSame([ISet(cs, 0)], Set(cs), Or(a, b));
    NotSplit([ISet(cs, 0)], Or(a, b));
  }

  /** A check that passes shows a character of its valid starts. */
  lemma PassesStart(p: Instr, s: seq<Byte>, i: int)
    requires IsFixCheckOp(p) && OpStep(p) >= 1 && 0 <= i <= |s| && Passes(p, s, i)
    ensures i < |s| && s[i] in FillCharset(p)
  {
  }

  lemma UnionExcludes(p1: seq<Instr>, p2: seq<Instr>, a: Peg, b: Peg)
    requires Implements(p1, a) && Shaped(p1) && Implements(p2, b) && Shaped(p2)
    requires Exclusive(ToCharset(p1), ToCharset(p2)) || IsHeadFail(p1)
    ensures p1 != [] && IsCheck(p1[0]) && Exclude(p1, a, b)
  {
    ShapedBasics(p1);
    forall s: seq<Byte>, i | 0 <= i <= |s| && Passes(p1[0], s, i) && Sem(a, s, i).No?
      ensures Sem(b, s, i).No? || Sem(b, s, i).Loop?
    {
      if IsHeadFail(p1) {
        HeadFailSem(p1, a, s, i);
      } else {
        PassesStart(p1[0], s, i);
        StartsSem(p2, b, s, i);
      }
    }
  }

  lemma BasicUnionGood(p1: seq<Instr>, p2: seq<Instr>, a: Peg, b: Peg)
    requires Implements(p1, a) && Shaped(p1) && Implements(p2, b) && Shaped(p2) && Splits(p2, b)
    requires Checked(p1, a) && Checked(p2, b)
    ensures var P := BasicUnion(p1, p2);
            Implements(P, Or(a, b)) && Shaped(P) && Splits(P, Or(a, b)) && Checked(P, Or(a, b))
  {
    SameRefl(Or(a, b));
    if ToCharset(p1).IsCharset? && ToCharset(p2).IsCharset? {
      UnionCharsets(p1, p2, a, b);
    } else if Exclusive(ToCharset(p1), ToCharset(p2)) || IsHeadFail(p1) {
      UnionExcludes(p1, p2, a, b);
      TestSplits(p1, p2, a, b, Or(a, b));
    } else {
      ChoiceSplits(p1, p2, a, b, Or(a, b));
      assert [IChoice(|p1| + 2, 0)] + p1 + [ICommit(|p2| + 1)] + p2 == [IChoice(|p1| + 2, 0)] + p1 + ([ICommit(|p2| + 1)] + p2);
    }
  }

  // ---------- separateparts and union_l ----------

  /** The first instruction of a part that starts with a test, as the check it was. */
  function FirstBody(p: seq<Instr>, sp: nat): seq<Instr>
    requires 1 < sp <= |p|
  {
    [WithOff(p[0], 0)] + p[1..sp - 1]
  }

  /** Going back to a choice, separateparts takes for granted that the test consumes one character. It is wrong where
      the test consumes more and the part can fail behind it. */
  ghost predicate BadUnion(p1: seq<Instr>, p2: seq<Instr>)
    decreases |p1|
  {
    var sp := FirstPart(p1);
    sp > 0 &&
    (|| (&& !p1[sp - 1].ICommit? && Interfere(p1[0], ToCharset(p2))
         && OpStep(p1[0]) != 1 && FailsBehind(FirstBody(p1, sp)))
     || BadUnion(p1[sp..], p2))
  }

  lemma OrAssoc(a: Peg, b: Peg, e1: Peg, e2: Peg)
    requires Same(Or(a, b), e1)
    ensures Same(Or(a, Or(b, e2)), Or(e1, e2))
  {
    forall s: seq<Byte>, i | 0 <= i <= |s|
      ensures Sem(Or(e1, e2), s, i) == Loop || Sem(Or(e1, e2), s, i) == Sem(Or(a, Or(b, e2)), s, i)
    {
      assert Sem(e1, s, i) == Loop || Sem(e1, s, i) == Sem(Or(a, b), s, i);
    }
  }

  lemma NeverFailing(x: Peg, n: nat, e1: Peg, e2: Peg)
    requires Same(AtMost(x, n), e1)
    ensures Same(AtMost(x, n), Or(e1, e2))
  {
    forall s: seq<Byte>, i | 0 <= i <= |s|
      ensures Sem(Or(e1, e2), s, i) == Loop || Sem(Or(e1, e2), s, i) == Sem(AtMost(x, n), s, i)
    {
      AtMostMatches(x, n, s, i);
    }
  }

  lemma EmptyOr(e2: Peg)
    ensures Same(Or(Empty, e2), Empty)
  {
  }

  lemma NoInterference(M: seq<Instr>, p2: seq<Instr>, a: Peg, b: Peg, e2: Peg)
    requires M != [] && IsCheck(M[0]) && Shaped(M) && Exclude(M, a, b) && Implements(p2, e2) && Shaped(p2)
    requires !Interfere(WithOff(M[0], |M| + 1), ToCharset(p2))
    ensures Exclude(M, a, Or(b, e2))
  {
    ShapedBasics(M);
    forall s: seq<Byte>, i | 0 <= i <= |s| && Passes(M[0], s, i) && Sem(a, s, i).No?
      ensures Sem(Or(b, e2), s, i).No? || Sem(Or(b, e2), s, i).Loop?
    {
      PassesStart(M[0], s, i);
      StartsSem(p2, e2, s, i);
    }
  }

  lemma BodyOf(M: seq<Instr>, rest: seq<Instr>)
    requires M != [] && IsCheck(M[0])
    ensures FirstBody(TestForm(M, rest), |M| + 1) == M
  {
    var P := TestForm(M, rest);
    ToTestParts(M, IJmp(|rest| + 1), rest);
    assert P[1..|M|] == P[1..1 + |M[1..]|] == M[1..];
    assert WithOff(P[0], 0) == M[0];
    assert M == [M[0]] + M[1..];
  }

  /** What separateparts makes of a test form that interferes. */
  lemma BackToChoice(M: seq<Instr>, rest: seq<Instr>, more: seq<Instr>)
    requires M != [] && IsCheck(M[0])
    ensures var P := TestForm(M, rest); var sp := |M| + 1;
            [WithOff(P[0], P[0].off + 1), IChoice(sp, 1)] + P[1..sp - 1] + [ICommit(|more| + 1)] + more == LooseForm(M, more)
    ensures OpStep(M[0]) == 1 ==> LooseForm(M, more) == ChoiceForm(M, more)
  {
    var P := TestForm(M, rest);
    ToTestParts(M, IJmp(|rest| + 1), rest);
    assert P[1..|M|] == P[1..1 + |M[1..]|] == M[1..];
    GuardedIs(M, |M| + 2, [ICommit(|more| + 1)] + more);
    assert LooseForm(M, more) ==
           [WithOff(M[0], |M| + 2), IChoice(|M| + 1, 1)] + M[1..] + ([ICommit(|more| + 1)] + more);
  }

  /** The first part stays as it is, up to the jump that ends it. */
  lemma SameChoicePart(M: seq<Instr>, rest: seq<Instr>, more: seq<Instr>)
    ensures var P := ChoiceForm(M, rest); var sp := |M| + 2;
            P[..sp - 1] + [WithOff(P[sp - 1], |more| + 1)] + more == ChoiceForm(M, more)
  {
    ChoiceFormIs(M, rest);
    ChoiceFormIs(M, more);
    hide ChoiceForm, OptimizeChoice;
    OptimizeSame([IChoice(|M| + 2, 0)] + M, ICommit(|rest| + 1), rest, ICommit(|more| + 1), more);
  }

  lemma ChoiceFormIs(M: seq<Instr>, rest: seq<Instr>)
    ensures ChoiceForm(M, rest) == OptimizeChoice([IChoice(|M| + 2, 0)] + M + [ICommit(|rest| + 1)] + rest)
  {
    assert [IChoice(|M| + 2, 0)] + M + [ICommit(|rest| + 1)] + rest == [IChoice(|M| + 2, 0)] + M + ([ICommit(|rest| + 1)] + rest);
    hide OptimizeChoice;
  }

  lemma SameTestPart(M: seq<Instr>, rest: seq<Instr>, more: seq<Instr>)
    requires M != [] && IsCheck(M[0])
    ensures var P := TestForm(M, rest); var sp := |M| + 1;
            P[..sp - 1] + [WithOff(P[sp - 1], |more| + 1)] + more == TestForm(M, more)
  {
    var front := ToTest(M, |M| + 1);
    assert TestForm(M, rest)[..|M|] == front;
    assert TestForm(M, rest)[|M|] == IJmp(|rest| + 1);
  }

  lemma SameLoosePart(M: seq<Instr>, rest: seq<Instr>, more: seq<Instr>)
    requires M != [] && IsCheck(M[0])
    ensures var P := LooseForm(M, rest); var sp := |M| + 2;
            P[..sp - 1] + [WithOff(P[sp - 1], |more| + 1)] + more == LooseForm(M, more)
  {
    var loose := [WithOff(M[0], |M| + 2), IChoice(|M| + 1, 1)] + M[1..];
    assert LooseForm(M, rest)[..|M| + 1] == loose;
    assert LooseForm(M, rest)[|M| + 1] == ICommit(|rest| + 1);
  }

  ghost predicate Good(p: seq<Instr>, e: Peg) {
    Implements(p, e) && Shaped(p) && Splits(p, e) && Checked(p, e)
  }

  lemma JoinChoice(p1: seq<Instr>, p2: seq<Instr>, e1: Peg, e2: Peg, M: seq<Instr>, a: Peg, b: Peg, more: seq<Instr>)
    requires FirstPart(p1) > 0 && SplitBy(p1, e1, Choice(M, a, b))
    requires more == SeparateParts(p1[FirstPart(p1)..], p2) && Good(more, Or(b, e2))
    ensures Good(SeparateParts(p1, p2), Or(e1, e2))
  {
    var rest := p1[FirstPart(p1)..];
    hide Checked, Implements, Shaped, Splits, Same, ChoiceForm;
    ChoicePart(M, rest);
    SameChoicePart(M, rest, more);
    OrAssoc(a, b, e1, e2);
    ChoiceSplits(M, more, a, Or(b, e2), Or(e1, e2));
  }

  lemma JoinLoose(p1: seq<Instr>, p2: seq<Instr>, e1: Peg, e2: Peg, M: seq<Instr>, a: Peg, b: Peg, more: seq<Instr>)
    requires FirstPart(p1) > 0 && SplitBy(p1, e1, Loose(M, a, b))
    requires more == SeparateParts(p1[FirstPart(p1)..], p2) && Good(more, Or(b, e2))
    ensures Good(SeparateParts(p1, p2), Or(e1, e2))
  {
    var rest := p1[FirstPart(p1)..];
    hide Checked, Implements, Shaped, Splits, Same, LooseForm, SureBehind;
    LoosePart(M, rest);
    SameLoosePart(M, rest, more);
    OrAssoc(a, b, e1, e2);
    LooseSplits(M, more, a, Or(b, e2), Or(e1, e2));
  }

  lemma JoinOptionalIs(p1: seq<Instr>, p2: seq<Instr>, q: seq<Instr>, n: nat, rest: seq<Instr>)
    requires n > 0 && p1 == OptionalForm(q, n, rest)
    ensures FirstPart(p1) == 1 + n * (|q| + 1) && p1[FirstPart(p1)..] == rest
    ensures SeparateParts(p1, p2) == OptionalForm(q, n, SeparateParts(rest, p2))
  {
    OptionalPart(q, n, rest, SeparateParts(rest, p2));
    hide OptionalForm, Interfere;
  }

  lemma EmptyTailJoined(rest: seq<Instr>, p2: seq<Instr>)
    requires EmptyTail(rest)
    ensures EmptyTail(SeparateParts(rest, p2))
  {
    if rest == [] {
      assert [IChoice(2, 0)] + [] + [ICommit(|p2| + 1)] + p2 == [IChoice(2, 0)] + [] + ([ICommit(|p2| + 1)] + p2);
      assert SeparateParts(rest, p2) == ChoiceForm([], p2);
    } else {
      var more :| rest == ChoiceForm([], more);
      var joined := SeparateParts(more, p2);
      ChoicePart([], more);
      SameChoicePart([], more, joined);
      assert SeparateParts(rest, p2) == ChoiceForm([], joined);
    }
  }

  lemma JoinOptional(p1: seq<Instr>, p2: seq<Instr>, e1: Peg, e2: Peg, q: seq<Instr>, x: Peg, n: nat, more: seq<Instr>)
    requires FirstPart(p1) > 0 && SplitBy(p1, e1, Optional(q, x, n, Empty))
    requires more == SeparateParts(p1[FirstPart(p1)..], p2) && Good(more, Or(Empty, e2))
    ensures Good(SeparateParts(p1, p2), Or(e1, e2))
  {
    hide Checked, Implements, Shaped, Splits, Same, OptionalForm, SeparateParts, FirstPart;
    JoinOptionalIs(p1, p2, q, n, p1[FirstPart(p1)..]);
    EmptyOr(e2);
    SplitsSame(more, Or(Empty, e2), Empty);
    EmptyJoined(more, e2);
    EmptyTailJoined(p1[FirstPart(p1)..], p2);
    CheckedSame(more, Or(Empty, e2), Empty);
    NeverFailing(x, n, e1, e2);
    OptionalSplits(q, n, more, x, Or(e1, e2));
  }

  /** The new code, from the code of the remaining alternatives with the new one behind them. */
  lemma JoinGood(p1: seq<Instr>, p2: seq<Instr>, e1: Peg, e2: Peg, f: Form, more: seq<Instr>)
    requires Good(p2, e2) && !BadUnion(p1, p2) && FirstPart(p1) > 0 && SplitBy(p1, e1, f)
    requires more == SeparateParts(p1[FirstPart(p1)..], p2) && Good(more, Or(f.b, e2))
    ensures Good(SeparateParts(p1, p2), Or(e1, e2))
  {
    hide Good, SeparateParts, BadUnion;
    match f
    case Choice(M, a, b) => JoinChoice(p1, p2, e1, e2, M, a, b, more);
    case Test(M, a, b) =>
      OrAssoc(a, b, e1, e2);
      JoinTest(p1, p2, e1, e2, M, a, b, more);
    case Loose(M, a, b) => JoinLoose(p1, p2, e1, e2, M, a, b, more);
    case Optional(q, x, n, b) => JoinOptional(p1, p2, e1, e2, q, x, n, more);
  }

  lemma TakeForm(p: seq<Instr>, e: Peg) returns (f: Form)
    requires Good(p, e) && FirstPart(p) > 0
    ensures SplitBy(p, e, f)
  {
    assert Splits(p, e);
    assert exists g: Form :: SplitBy(p, e, g);
    f :| SplitBy(p, e, f);
  }

  lemma EmptyJoined(more: seq<Instr>, e2: Peg)
    requires Implements(more, Or(Empty, e2))
    ensures Implements(more, Empty)
  {
    SameSem(more, Or(Empty, e2), Empty);
  }

  lemma JoinTest(p1: seq<Instr>, p2: seq<Instr>, e1: Peg, e2: Peg, M: seq<Instr>, a: Peg, b: Peg, more: seq<Instr>)
    requires Good(p2, e2) && !BadUnion(p1, p2) && FirstPart(p1) > 0 && SplitBy(p1, e1, Test(M, a, b))
    requires more == SeparateParts(p1[FirstPart(p1)..], p2) && Good(more, Or(b, e2)) && Same(Or(a, Or(b, e2)), Or(e1, e2))
    ensures Good(SeparateParts(p1, p2), Or(e1, e2))
  {
    var sp := FirstPart(p1);
    var rest := p1[sp..];
    hide Checked, Implements, Shaped, Splits, Same, ChoiceForm, LooseForm, Exclude, FailsBehind, SureBehind;
    TestPart(M, rest);
    if !Interfere(p1[0], ToCharset(p2)) {
      SameTestPart(M, rest, more);
      NoInterference(M, p2, a, b, e2);
      TestSplits(M, more, a, Or(b, e2), Or(e1, e2));
    } else {
      BackToChoice(M, rest, more);
      BodyOf(M, rest);
      if OpStep(M[0]) == 1 {
        ChoiceSplits(M, more, a, Or(b, e2), Or(e1, e2));
      } else {
        NoWayBehind(M, a);
        LooseSplits(M, more, a, Or(b, e2), Or(e1, e2));
      }
    }
  }

  /** The new alternative is tried when all those of p1 have failed, whatever form these have. */
  lemma {:induction false} SeparateGood(p1: seq<Instr>, p2: seq<Instr>, e1: Peg, e2: Peg)
    requires Good(p1, e1) && Good(p2, e2) && !BadUnion(p1, p2)
    ensures Good(SeparateParts(p1, p2), Or(e1, e2))
    decreases |p1|
  {
    hide Implements, Shaped, Checked;
    if FirstPart(p1) == 0 {
      BasicUnionGood(p1, p2, e1, e2);
    } else {
      var f := TakeForm(p1, e1);
      var rest := p1[FirstPart(p1)..];
      SeparateGood(rest, p2, f.b, e2);
      JoinGood(p1, p2, e1, e2, f, SeparateParts(rest, p2));
    }
  }

  lemma UnionGood(p1: seq<Instr>, p2: seq<Instr>, e1: Peg, e2: Peg)
    requires Good(p1, e1) && Good(p2, e2) && !BadUnion(p1, p2)
    ensures Good(Union(p1, p2), Or(e1, e2))
  {
    if StartsWithFail(p1) {
      FirstNever(p1, e1, e2);
      GoodSame(p2, e2, Or(e1, e2));
    } else if StartsWithFail(p2) {
      SecondNever(p2, e1, e2);
      GoodSame(p1, e1, Or(e1, e2));
    } else if p1 == [] {
      FirstAlways(p1, e1, e2);
      GoodSame(p1, e1, Or(e1, e2));
    } else {
      hide Good, BadUnion;
      SeparateGood(p1, p2, e1, e2);
    }
  }

  lemma GoodSame(p: seq<Instr>, a: Peg, e: Peg)
    requires Good(p, a) && Same(a, e)
    ensures Good(p, e)
  {
    SameSem(p, a, e);
    hide Sem, Same, Implements, Shaped, Checked;
    SplitsSame(p, a, e);
    CheckedSame(p, a, e);
  }

  lemma FirstNever(p1: seq<Instr>, e1: Peg, e2: Peg)
    requires Implements(p1, e1) && StartsWithFail(p1)
    ensures Same(e2, Or(e1, e2))
  {
    forall s: seq<Byte>, i | 0 <= i <= |s| ensures Sem(Or(e1, e2), s, i) == Loop || Sem(Or(e1, e2), s, i) == Sem(e2, s, i) {
      FailAtOnce(p1, e1, s, i);
    }
  }

  lemma SecondNever(p2: seq<Instr>, e1: Peg, e2: Peg)
    requires Implements(p2, e2) && StartsWithFail(p2)
    ensures Same(e1, Or(e1, e2))
  {
    forall s: seq<Byte>, i | 0 <= i <= |s| ensures Sem(Or(e1, e2), s, i) == Loop || Sem(Or(e1, e2), s, i) == Sem(e1, s, i) {
      FailAtOnce(p2, e2, s, i);
    }
  }

  lemma FirstAlways(p1: seq<Instr>, e1: Peg, e2: Peg)
    requires Implements(p1, e1) && p1 == []
    ensures Same(e1, Or(e1, e2))
  {
    forall s: seq<Byte>, i | 0 <= i <= |s| ensures Sem(Or(e1, e2), s, i) == Loop || Sem(Or(e1, e2), s, i) == Sem(e1, s, i) {
      NothingMatches(e1, s, i);
    }
  }

  // ---------- When a choice that is put back is right ----------

  /** No repetition goes on for ever. */
  ghost predicate Total(e: Peg) {
    forall s: seq<Byte>, i :: 0 <= i <= |s| ==> Sem(e, s, i) != Loop
  }

  lemma OrTotal(a: Peg, b: Peg, e1: Peg, e2: Peg)
    requires Same(Or(a, b), e1) && Total(e1) && Total(Or(b, e2))
    ensures Total(Or(e1, e2))
  {
    forall s: seq<Byte>, i | 0 <= i <= |s| ensures Sem(Or(e1, e2), s, i) != Loop {
      assert Sem(e1, s, i) != Loop && Sem(e1, s, i) == Sem(Or(a, b), s, i);
      assert Sem(Or(b, e2), s, i) != Loop;
    }
  }

  lemma SameBack(a: Peg, e: Peg)
    requires Same(a, e) && Total(e)
    ensures Same(e, a)
  {
    hide Sem;
  }

  lemma ReopenedIs(p1: seq<Instr>, p2: seq<Instr>, M: seq<Instr>, rest: seq<Instr>)
    requires M != [] && IsCheck(M[0]) && p1 == TestForm(M, rest) && !StartsWithFail(p2)
    requires Interfere(p1[0], ToCharset(p2))
    ensures Union(p1, p2) == LooseForm(M, SeparateParts(rest, p2))
  {
    TestPart(M, rest);
    BackToChoice(M, rest, SeparateParts(rest, p2));
    hide LooseForm, Interfere, TestForm;
  }

  /** The first part of p1 starts with a test that interferes with the new alternative. Where the others are joined
      right, the whole is right exactly if, from the place where the choice takes them up, they match the same. */
  lemma ReopenedExact(p1: seq<Instr>, p2: seq<Instr>, e1: Peg, e2: Peg, M: seq<Instr>, a: Peg, b: Peg)
    requires FirstPart(p1) > 0 && SplitBy(p1, e1, Test(M, a, b)) && !StartsWithFail(p2)
    requires Interfere(p1[0], ToCharset(p2)) && Implements(SeparateParts(p1[FirstPart(p1)..], p2), Or(b, e2))
    requires Total(a) && Total(e1) && Total(Or(b, e2))
    ensures Implements(Union(p1, p2), Or(e1, e2)) <==> SameFromBehind(M, a, Or(b, e2))
  {
    hide Implements, Same, Shaped, TestForm, LooseForm, Exclude, Checked, Splits, Sem, Interfere, Total, SameFromBehind;
    hide SeparateParts, Union, EmptyTail;
    ReopenedIs(p1, p2, M, p1[FirstPart(p1)..]);
    LooseSame(M, SeparateParts(p1[FirstPart(p1)..], p2), a, b, e1, e2);
  }

  lemma LooseSame(M: seq<Instr>, more: seq<Instr>, a: Peg, b: Peg, e1: Peg, e2: Peg)
    requires Implements(M, a) && Shaped(M) && M != [] && IsCheck(M[0]) && Implements(more, Or(b, e2)) && Same(Or(a, b), e1)
    requires Total(a) && Total(e1) && Total(Or(b, e2))
    ensures Implements(LooseForm(M, more), Or(e1, e2)) <==> SameFromBehind(M, a, Or(b, e2))
  {
    var P := LooseForm(M, more);
    LooseFormExact(M, more, a, Or(b, e2));
    hide Implements, Same, Shaped, LooseForm, Sem, Total, SameFromBehind;
    OrAssoc(a, b, e1, e2);
    OrTotal(a, b, e1, e2);
    SameBack(Or(a, Or(b, e2)), Or(e1, e2));
    if Implements(P, Or(e1, e2)) { SameSem(P, Or(e1, e2), Or(a, Or(b, e2))); }
    if Implements(P, Or(a, Or(b, e2))) { SameSem(P, Or(a, Or(b, e2)), Or(e1, e2)); }
  }

  /** The pattern matches everywhere, and consumes nothing. */
  ghost predicate MatchesNothing(e: Peg) {
    forall s: seq<Byte>, i :: 0 <= i <= |s| ==> Sem(e, s, i) == Ok(i)
  }

  /** Behind such an alternative no body that can fail behind its check is taken for one that cannot: where the first
      part of p1 starts with a test, the union is right exactly if it is not a bad one. */
  lemma BadUnionExact(p1: seq<Instr>, p2: seq<Instr>, e1: Peg, e2: Peg, M: seq<Instr>, a: Peg, b: Peg)
    requires Good(p1, e1) && Good(p2, e2) && FirstPart(p1) > 0 && SplitBy(p1, e1, Test(M, a, b))
    requires !BadUnion(p1[FirstPart(p1)..], p2) && MatchesNothing(e2)
    requires Total(a) && Total(b) && Total(e1)
    ensures Implements(Union(p1, p2), Or(e1, e2)) <==> !BadUnion(p1, p2)
  {
    var rest := p1[FirstPart(p1)..];
    TestPart(M, rest);
    BodyOf(M, rest);
    NoStart(p2, e2);
    SeparateGood(rest, p2, b, e2);
    MayReopen(M, a, b, e2);
    hide Shaped, Checked, Splits, Exclude, SameFromBehind, FailsBehind, Sem, TestForm;
    assert Total(Or(b, e2)) by { OrSound(b, e2); }
    ReopenedExact(p1, p2, e1, e2, M, a, b);
  }

  lemma OrSound(b: Peg, e2: Peg)
    requires Total(b) && MatchesNothing(e2)
    ensures Total(Or(b, e2))
  {
    forall s: seq<Byte>, i | 0 <= i <= |s| ensures Sem(Or(b, e2), s, i) != Loop {
      assert Sem(b, s, i) != Loop && Sem(e2, s, i) == Ok(i);
    }
  }

  /** Code that matches everywhere starts with no check, and does not fail at once. */
  lemma NoStart(p: seq<Instr>, e: Peg)
    requires Implements(p, e) && Shaped(p) && MatchesNothing(e)
    ensures ToCharset(p).NoInfo? && !StartsWithFail(p)
  {
    var s: seq<Byte> := [];
    assert Sem(e, s, 0) == Ok(0);
    if StartsWithFail(p) { FailAtOnce(p, e, s, 0); }
    if p != [] && IsCheck(p[0]) {
      ShapedBasics(p);
      SplitCheck(p, e, s, 0);
    }
  }

  lemma MayReopen(M: seq<Instr>, a: Peg, b: Peg, e2: Peg)
    requires Implements(M, a) && Shaped(M) && M != [] && IsCheck(M[0]) && Exclude(M, a, b)
    requires Total(a) && Total(b) && MatchesNothing(e2)
    ensures SameFromBehind(M, a, Or(b, e2)) <==> OpStep(M[0]) == 1 || !FailsBehind(M)
  {
    ShapedBasics(M);
    if FailsBehind(M) && OpStep(M[0]) != 1 {
      var s: seq<Byte>, i :| 0 <= i <= |s| && Passes(M[0], s, i) && Reaches(M, s, Run(0, i, []), Failing([]));
      BehindEmpty(M, a, b, e2, s, i);
    } else if !FailsBehind(M) {
      NoWayBehind(M, a);
    }
  }

  lemma BehindEmpty(M: seq<Instr>, a: Peg, b: Peg, e2: Peg, s: seq<Byte>, i: int)
    requires Implements(M, a) && M != [] && IsCheck(M[0]) && OpStep(M[0]) > 1 && Exclude(M, a, b)
    requires Total(a) && Total(b) && MatchesNothing(e2)
    requires 0 <= i <= |s| && Passes(M[0], s, i) && Reaches(M, s, Run(0, i, []), Failing([]))
    ensures !SameFromBehind(M, a, Or(b, e2))
  {
    var k := i + OpStep(M[0]) - 1;
    assert i < k <= |s|;
    ImplementsDoes(M, a, s, i);
    DoesOnly(M, s, i, Sem(a, s, i));
    assert Sem(a, s, i).No? && Sem(b, s, i).No?;
    assert Sem(e2, s, i) == Ok(i) && Sem(e2, s, k) == Ok(k);
    assert Sem(Or(b, e2), s, i) == Ok(i) && Sem(Or(b, e2), s, k) != Ok(i);
  }

  // ---------- Bodies that cannot fail behind their check ----------

  /** How many choices are pending at each instruction behind the check, where that does not depend on the way there;
      and what can fail has one. */
  predicate Depths(M: seq<Instr>, d: seq<nat>)
    requires M != []
  {
    |d| == |M| + 1 && d[1] == 0 && forall k :: 1 <= k < |M| ==> DepthFits(M, d, k)
  }

  predicate DepthFits(M: seq<Instr>, d: seq<nat>, k: nat)
    requires |d| == |M| + 1 && 0 < k < |M|
  {
    var t := if IsJump(M[k]) then k + M[k].off else k + 1;
    && 0 < t <= |M|
    && match M[k]
       case IChoice(_, _) => d[k + 1] == d[k] + 1 && d[t] == d[k]
       case ICommit(_) => d[k] > 0 && d[t] == d[k] - 1
       case IPartialCommit(_) => d[k] > 0 && d[t] == d[k]
       case IBackCommit(_) => d[k] > 0 && d[t] == d[k] - 1
       case IJmp(_) => d[t] == d[k]
       case ISpan(_) => d[t] == d[k]
       case IFailTwice => d[k] > 1
       case IFail => d[k] > 0
       case IBack(_) => d[k] > 0 && d[t] == d[k]
       case _ => d[k + 1] == d[t] == d[k] && (IsCheck(M[k]) ==> d[k] > 0)
  }

  predicate StackFits(M: seq<Instr>, d: seq<nat>, stk: seq<Entry>)
    requires |d| == |M| + 1
  {
    forall j :: 0 <= j < |stk| ==> 0 < stk[j].pc <= |M| && d[stk[j].pc] == |stk| - 1 - j
  }

  predicate InDepth(M: seq<Instr>, d: seq<nat>, c: Config)
    requires |d| == |M| + 1
  {
    match c
    case Run(pc, _, stk) => 0 < pc <= |M| && d[pc] == |stk| && StackFits(M, d, stk)
    case Failing(stk) => stk != [] && StackFits(M, d, stk)
    case Stuck => true
  }

  lemma InDepthStep(M: seq<Instr>, d: seq<nat>, s: seq<Byte>, c: Config)
    requires M != [] && Depths(M, d) && InDepth(M, d, c)
    ensures InDepth(M, d, Step(M, s, c))
  {
    if c.Run? && c.pc < |M| {
      assert DepthFits(M, d, c.pc);
    }
  }

  lemma {:induction false} InDepthExec(M: seq<Instr>, d: seq<nat>, s: seq<Byte>, c: Config, n: nat)
    requires M != [] && Depths(M, d) && InDepth(M, d, c)
    ensures InDepth(M, d, Exec(M, s, c, n))
    decreases n
  {
    hide InDepth, Depths, Step;
    if n > 0 {
      InDepthStep(M, d, s, c);
      InDepthExec(M, d, s, Step(M, s, c), n - 1);
    }
  }

  /** Where what can fail has a choice to go back to, the body cannot fail behind its check. */
  lemma DepthsHold(M: seq<Instr>, d: seq<nat>)
    requires M != [] && IsCheck(M[0]) && Depths(M, d)
    ensures !FailsBehind(M)
  {
    forall s: seq<Byte>, i | 0 <= i <= |s| && Passes(M[0], s, i)
      ensures !Reaches(M, s, Run(0, i, []), Failing([]))
    {
      var c := Run(0, i, []);
      forall n: nat ensures Exec(M, s, c, n) != Failing([]) {
        if n > 0 {
          InDepthExec(M, d, s, Run(1, i + OpStep(M[0]), []), n - 1);
        }
      }
    }
  }
}
