/** Repetition: loops over sets, head-fail patterns and other patterns, and optional head-fail patterns
    (lpeg.c:1590-1643). */
module LpegRepeat {
  import opened Basics
  import opened LpegMachine
  import opened LpegSemantics
  import opened LpegBuild
  import opened LpegCorrect
  import opened LpegPredicates
  import opened LpegOptional
  import opened LpegSplit
  import opened LpegVerify
  import opened LpegChecked

  lemma {:induction false} TimesLength(p: seq<Instr>, n: nat)
    ensures |Times(p, n)| == n * |p|
    decreases n
  {
    if n > 0 {
      TimesLength(p, n - 1);
      assert n * |p| == |p| + (n - 1) * |p|;
    }
  }

  /** n copies in front of a loop. */
  lemma {:induction false} TimesDoes(p: seq<Instr>, e: Peg, n: nat, loop: seq<Instr>)
    requires Implements(p, e) && Shaped(p) && p != [] && Implements(loop, AtLeast(e, 0)) && Shaped(loop)
    requires Checked(p, e) && Checked(loop, AtLeast(e, 0)) && loop != []
    ensures Implements(Times(p, n) + loop, AtLeast(e, n)) && Shaped(Times(p, n) + loop)
    ensures Checked(Times(p, n) + loop, AtLeast(e, n))
    decreases n
  {
    if n == 0 {
      assert Times(p, 0) + loop == loop;
    } else {
      var tail := Times(p, n - 1) + loop;
      TimesDoes(p, e, n - 1, loop);
      ConcatDoes(p, tail, e, AtLeast(e, n - 1));
      ConcatShaped(p, tail);
      ConcatChecked(p, tail, e, AtLeast(e, n - 1));
      assert Times(p, n) + loop == p + tail;
      forall s: seq<Byte>, i | 0 <= i <= |s|
        ensures Sem(AtLeast(e, n), s, i) == Loop || Sem(AtLeast(e, n), s, i) == Sem(Seq(e, AtLeast(e, n - 1)), s, i)
      {
      }
      CheckedSame(p + tail, Seq(e, AtLeast(e, n - 1)), AtLeast(e, n));
      SameSem(p + tail, Seq(e, AtLeast(e, n - 1)), AtLeast(e, n));
    }
  }

  // ---------- repeatcharset ----------

  lemma {:induction false} SpanSem(p: seq<Instr>, e: Peg, s: seq<Byte>, i: int)
    requires ToCharset(p).IsCharset? && Implements(p, e) && 0 <= i <= |s|
    ensures var r := SemAtLeast(e, 0, s, i); r == Loop || r == Ok(SpanEnd(s, i, ToCharset(p).cs))
    decreases |s| - i
  {
    CharsetSem(p, e, s, i);
    if Sem(e, s, i).Ok? {
      SpanSem(p, e, s, i + 1);
    }
  }

  lemma SpanDoes(p: seq<Instr>, e: Peg)
    requires ToCharset(p).IsCharset? && Implements(p, e)
    ensures var code := [ISpan(ToCharset(p).cs)];
            Implements(code, AtLeast(e, 0)) && Shaped(code) && Checked(code, AtLeast(e, 0))
  {
    var code := [ISpan(ToCharset(p).cs)];
    forall s: seq<Byte>, i | 0 <= i <= |s| ensures Does(code, s, i, Sem(AtLeast(e, 0), s, i)) {
      SpanSem(p, e, s, i);
      OneStep(code, s, Run(0, i, []), Run(1, SpanEnd(s, i, ToCharset(p).cs), []));
    }
    assert Fits(code, 0);
    NoJmps(code);
    ComesStep(code, At(0, []), At(1, []), 0);
    Through(code, AtLeast(e, 0), 0);
  }

  // ---------- repeatheadfail ----------

  function HeadFailLoop(p: seq<Instr>): seq<Instr>
    requires p != []
  {
    ToTest(p, |p| + 1) + [IJmp(-|p|)]
  }

  lemma {:induction false} HeadFailLoops(p: seq<Instr>, e: Peg, s: seq<Byte>, i: int)
    requires IsHeadFail(p) && Implements(p, e) && Shaped(p) && 0 <= i <= |s|
    ensures var P := HeadFailLoop(p); var r := SemAtLeast(e, 0, s, i);
            r.Ok? ==> Reaches(P, s, Run(0, i, []), Run(|P|, r.j, []))
    decreases |s| - i
  {
    var P := HeadFailLoop(p);
    var r := Sem(e, s, i);
    HeadFailTest(p, e, |p| + 1, [IJmp(-|p|)], s, i);
    assert P[|p|] == IJmp(-|p|);
    if r.Ok? && i < r.j {
      OneStep(P, s, Run(|p|, r.j, []), Run(0, r.j, []));
      ReachesTrans(P, s, Run(0, i, []), Run(|p|, r.j, []), Run(0, r.j, []));
      HeadFailLoops(p, e, s, r.j);
      var q := SemAtLeast(e, 0, s, r.j);
      if q.Ok? {
        ReachesTrans(P, s, Run(0, i, []), Run(0, r.j, []), Run(|P|, q.j, []));
      }
    }
  }

  lemma {:induction false} AtLeastNone(e: Peg, s: seq<Byte>, i: int)
    ensures !SemAtLeast(e, 0, s, i).No?
    decreases if i <= |s| then |s| - i else 0
  {
    if Sem(e, s, i).Ok? && 0 <= i < Sem(e, s, i).j <= |s| {
      AtLeastNone(e, s, Sem(e, s, i).j);
    }
  }

  lemma NoJmpInHeadFail(p: seq<Instr>)
    requires IsHeadFail(p) && Shaped(p)
    ensures forall k :: 0 <= k < |p| ==> !p[k].IJmp? && !IsJump(p[k])
  {
    forall k | 0 <= k < |p| ensures !IsTest(p[k]) {
      if k > 0 { assert IsNoFail(p[k]); }
    }
    forall k | 0 <= k < |p| ensures !p[k].IJmp? && !IsJump(p[k]) {
      if k > 0 { assert IsNoFail(p[k]); }
    }
  }

  lemma HeadFailLoopDoes(p: seq<Instr>, e: Peg)
    requires IsHeadFail(p) && Implements(p, e) && Shaped(p)
    ensures Implements(HeadFailLoop(p), AtLeast(e, 0)) && Shaped(HeadFailLoop(p)) && Checked(HeadFailLoop(p), AtLeast(e, 0))
  {
    var P := HeadFailLoop(p);
    forall s: seq<Byte>, i | 0 <= i <= |s| ensures Does(P, s, i, Sem(AtLeast(e, 0), s, i)) {
      HeadFailLoops(p, e, s, i);
      AtLeastNone(e, s, i);
    }
    NoJmpInHeadFail(p);
    ShapedBasics(p);
    assert Fits(p, 0);
    assert P[0] == WithOff(p[0], |p| + 1) && P[|p|] == IJmp(-|p|);
    forall k | 0 <= k < |P| ensures Fits(P, k) {
      if 0 < k < |p| { assert P[k] == p[k]; }
    }
    HasTest(P, 0);
    HeadFailLoopWalks(p);
    Through(P, AtLeast(e, 0), 0);
  }

  lemma HeadFailLoopWalks(p: seq<Instr>)
    requires IsHeadFail(p)
    ensures var P := HeadFailLoop(p); WalkDoes(P, true, 0) && !IsBackAt(P, 0) && !P[|P| - 1].IBackCommit?
  {
    var P := HeadFailLoop(p);
    assert P[0] == WithOff(p[0], |p| + 1) && P[|p|] == IJmp(-|p|);
    assert !IsBackAt(P, 1) by { if |p| > 1 { assert P[1] == p[1] && IsNoFail(p[1]); } }
    ComesStep(P, At(0, []), At(|P|, []), 0);
  }

  // ---------- repeats ----------

  function ChoiceLoop(p: seq<Instr>): seq<Instr> {
    [IChoice(|p| + 2, 0)] + p + [IPartialCommit(-|p|)]
  }

  lemma {:induction false} ChoiceLoops(p: seq<Instr>, e: Peg, s: seq<Byte>, i: int)
    requires Implements(p, e) && 0 <= i <= |s|
    ensures var P := ChoiceLoop(p); var r := SemAtLeast(e, 0, s, i);
            r.Ok? ==> Reaches(P, s, Run(1, i, [Entry(|p| + 2, i)]), Run(|P|, r.j, []))
    decreases |s| - i
  {
    var P := ChoiceLoop(p);
    var L := |p| + 2;
    var stk := [Entry(L, i)];
    var r := Sem(e, s, i);
    PlaceOf(P, [IChoice(L, 0)], p, [IPartialCommit(-|p|)]);
    assert P[|p| + 1] == IPartialCommit(-|p|);
    ImplementsDoes(p, e, s, i);
    PieceDoes(P, 1, p, s, i, r, stk);
    hide Implements;
    if r.No? {
      OneStep(P, s, Failing(stk), Run(L, i, []));
      ReachesTrans(P, s, Run(1, i, stk), Failing(stk), Run(L, i, []));
    } else if r.Ok? && i < r.j {
      ChoiceLoops(p, e, s, r.j);
      var next := [Entry(L, r.j)];
      OneStep(P, s, Run(1 + |p|, r.j, stk), Run(1, r.j, next));
      hide Reaches;
      ReachesTrans(P, s, Run(1, i, stk), Run(1 + |p|, r.j, stk), Run(1, r.j, next));
      var q := SemAtLeast(e, 0, s, r.j);
      if q.Ok? {
        ReachesTrans(P, s, Run(1, i, stk), Run(1, r.j, next), Run(|P|, q.j, []));
      }
    }
  }

  lemma ChoiceLoopDoes(p: seq<Instr>, e: Peg)
    requires Implements(p, e) && Shaped(p)
    ensures Implements(ChoiceLoop(p), AtLeast(e, 0)) && Shaped(ChoiceLoop(p))
  {
    var P := ChoiceLoop(p);
    forall s: seq<Byte>, i | 0 <= i <= |s| ensures Does(P, s, i, Sem(AtLeast(e, 0), s, i)) {
      ChoiceLoops(p, e, s, i);
      AtLeastNone(e, s, i);
      var r := SemAtLeast(e, 0, s, i);
      if r.Ok? {
        StepTo(P, s, Run(0, i, []), Run(1, i, [Entry(|p| + 2, i)]), Run(|P|, r.j, []));
      }
    }
    ChoiceLoopShaped(p);
  }

  lemma ChoiceLoopChecked(p: seq<Instr>, e: Peg)
    requires Checked(p, e)
    ensures Checked(ChoiceLoop(p), AtLeast(e, 0))
  {
    var v, h := TakeWalk(p, e);
    ChoiceLoopWalks(p, v, h);
    Through(ChoiceLoop(p), AtLeast(e, 0), 1 + h);
  }

  /** The walk goes through the loop, if its body ends or fails. */
  lemma ChoiceLoopWalks(p: seq<Instr>, v: bool, h: nat)
    requires WalkDoes(p, v, h)
    ensures var P := ChoiceLoop(p); WalkDoes(P, true, 1 + h) && !IsBackAt(P, 0) && !P[|P| - 1].IBackCommit?
  {
    var P := ChoiceLoop(p);
    var L := |p| + 2;
    PlaceOf(P, [IChoice(L, 0)], p, [IPartialCommit(-|p|)]);
    assert P[|p| + 1] == IPartialCommit(-|p|);
    assert Fenced(P, 1, p);
    PieceWalks(P, 1, p, v, [L], h);
    var c := if v then At(1 + |p|, [L]) else Back([L]);
    ComesStep(P, c, At(L, []), 1 + h);
    assert FreeStep(P, At(0, [])) == At(1, [L]);
    hide Comes;
    ComesTrans(P, At(1, [L]), c, At(L, []), 1 + h);
    ComesThen(P, At(0, []), At(1, [L]), At(L, []), 1 + h);
  }

  lemma ChoiceLoopShaped(p: seq<Instr>)
    requires Shaped(p)
    ensures Shaped(ChoiceLoop(p))
  {
    var P := ChoiceLoop(p);
    assert Embedded(P, 1, p);
    assert P[0] == IChoice(|p| + 2, 0) && P[|p| + 1] == IPartialCommit(-|p|) && (p != [] ==> P[1] == p[0]);
    forall k | 0 <= k < |P| ensures Fits(P, k) {
      if 1 <= k <= |p| { PieceFits(P, 1, p, k - 1); }
    }
    hide Fits, JmpsHaveTests, Shaped, Embedded;
    if k :| 0 <= k < |P| && P[k].IJmp? {
      TestOf(P, 1, p, k - 1);
    } else {
      NoJmps(P);
    }
    ShapedFrom(P);
  }

  // ---------- optionalheadfail ----------

  lemma {:induction false} OptionalHeadLength(p: seq<Instr>, n: nat)
    requires p != []
    ensures |OptionalHeadFail(p, n)| == n * |p|
    decreases n
  {
    if n > 0 {
      OptionalHeadLength(p, n - 1);
      assert n * |p| == |p| + (n - 1) * |p|;
    }
  }

  lemma {:induction false} OptionalHeadRuns(p: seq<Instr>, e: Peg, n: nat, s: seq<Byte>, i: int)
    requires IsHeadFail(p) && Implements(p, e) && Shaped(p) && 0 <= i <= |s|
    ensures var P := OptionalHeadFail(p, n); var r := SemAtMost(e, n, s, i);
            r.Ok? ==> Reaches(P, s, Run(0, i, []), Run(|P|, r.j, []))
    decreases n
  {
    var P := OptionalHeadFail(p, n);
    OptionalHeadLength(p, n);
    if n == 0 {
      ReachesRefl(P, s, Run(0, i, []));
    } else {
      var rest := OptionalHeadFail(p, n - 1);
      var off := n * |p|;
      var r := Sem(e, s, i);
      assert off >= |p|;
      HeadFailTest(p, e, off, rest, s, i);
      assert SemAtMost(e, n, s, i) == match r { case No => Ok(i) case Loop => Loop case Ok(j) => SemAtMost(e, n - 1, s, j) };
      if r.Ok? {
        OptionalHeadRuns(p, e, n - 1, s, r.j);
        var q := SemAtMost(e, n - 1, s, r.j);
        assert Embedded(P, |p|, rest);
        if q.Ok? {
          PieceDoes(P, |p|, rest, s, r.j, q, []);
          hide Reaches;
          ReachesTrans(P, s, Run(0, i, []), Run(|p|, r.j, []), Run(|P|, q.j, []));
        }
      }
    }
  }

  lemma {:induction false} OptionalHeadShaped(p: seq<Instr>, n: nat)
    requires IsHeadFail(p) && Shaped(p)
    ensures Shaped(OptionalHeadFail(p, n))
    decreases n
  {
    var P := OptionalHeadFail(p, n);
    if n == 0 {
      NoJmps(P);
    } else {
      OptionalHeadShaped(p, n - 1);
      OptionalHeadLength(p, n);
      OptionalHeadFits(p, OptionalHeadFail(p, n - 1), n * |p|);
    }
  }

  /** A copy in front of the others, with a test that leads to the end. */
  lemma OptionalHeadFits(p: seq<Instr>, rest: seq<Instr>, off: nat)
    requires IsHeadFail(p) && Shaped(p) && Shaped(rest) && off == |p| + |rest|
    ensures Shaped(ToTest(p, off) + rest)
  {
    var P := ToTest(p, off) + rest;
    NoJmpInHeadFail(p);
    ShapedBasics(p);
    assert P[0] == WithOff(p[0], off) && Embedded(P, |p|, rest);
    assert forall k :: 0 < k < |p| ==> P[k] == p[k];
    HasTest(P, 0);
    hide ToTest, IsHeadFail, JmpsHaveTests;
    forall k | 0 <= k < |P| ensures Fits(P, k) {
      if k >= |p| {
        PieceFits(P, |p|, rest, k - |p|);
      }
    }
  }

  lemma {:induction false} OptionalHeadEnd(p: seq<Instr>, n: nat)
    requires IsHeadFail(p) && Shaped(p) && n > 0
    ensures var P := OptionalHeadFail(p, n); P != [] && !P[|P| - 1].IJmp? && !P[|P| - 1].ICommit?
    decreases n
  {
    var P := OptionalHeadFail(p, n);
    NoJmpInHeadFail(p);
    if n == 1 {
      assert OptionalHeadFail(p, 0) == [] && P == ToTest(p, |p|) + [];
      assert P == ToTest(p, |p|);
      if |p| > 1 { assert IsNoFail(p[|p| - 1]); }
    } else {
      OptionalHeadEnd(p, n - 1);
    }
  }

  lemma OptionalHeadChecked(p: seq<Instr>, e: Peg, n: nat)
    requires IsHeadFail(p) && Shaped(p) && n > 0
    ensures Checked(OptionalHeadFail(p, n), e)
  {
    OptionalHeadWalks(p, n);
    Through(OptionalHeadFail(p, n), e, 0);
  }

  lemma OptionalHeadWalks(p: seq<Instr>, n: nat)
    requires IsHeadFail(p) && Shaped(p) && n > 0
    ensures var P := OptionalHeadFail(p, n); WalkDoes(P, true, 0) && P != [] && !IsBackAt(P, 0) && !P[|P| - 1].IBackCommit?
  {
    var P := OptionalHeadFail(p, n);
    OptionalHeadLength(p, n);
    assert n * |p| >= |p|;
    OptionalHeadNext(p, n);
    OptionalHeadEnd(p, n);
    ComesStep(P, At(0, []), At(|P|, []), 0);
  }

  lemma OptionalHeadNext(p: seq<Instr>, n: nat)
    requires IsHeadFail(p) && n > 0
    ensures var P := OptionalHeadFail(p, n); P != [] && P[0] == WithOff(p[0], n * |p|) && !IsBackAt(P, 1)
  {
    var P := OptionalHeadFail(p, n);
    if |p| > 1 {
      assert P[1] == p[1] && IsNoFail(p[1]);
    } else if n > 1 {
      assert P[1] == OptionalHeadFail(p, n - 1)[0];
    }
  }

  lemma OptionalHeadGood(p: seq<Instr>, e: Peg, n: nat)
    requires IsHeadFail(p) && Implements(p, e) && Shaped(p) && n > 0
    ensures Good(OptionalHeadFail(p, n), AtMost(e, n))
  {
    var P := OptionalHeadFail(p, n);
    forall s: seq<Byte>, i | 0 <= i <= |s| ensures Does(P, s, i, Sem(AtMost(e, n), s, i)) {
      OptionalHeadRuns(p, e, n, s, i);
      AtMostMatches(e, n, s, i);
    }
    OptionalHeadShaped(p, n);
    OptionalHeadEnd(p, n);
    OptionalHeadLength(p, n);
    OptionalHeadChecked(p, AtMost(e, n), n);
    assert n * |p| >= |p|;
    assert P[0] == WithOff(p[0], n * |p|);
    NotSplit(P, AtMost(e, n));
  }

  lemma OptionalsGood(p: seq<Instr>, e: Peg, n: nat)
    requires Good(p, e) && n > 0
    ensures Good(Optionals(p, n), AtMost(e, n))
  {
    EmptyCode();
    EmptyChecked(Empty);
    NotSplit([], Empty);
    SameRefl(AtMost(e, n));
    OptionalSplits(p, n, [], e, AtMost(e, n));
    assert [IChoice(1 + n * (|p| + 1), 0)] + OptionalBodies(p, n, 1) + [] ==
           [IChoice(1 + n * (|p| + 1), 0)] + OptionalBodies(p, n, 1);
  }
}
