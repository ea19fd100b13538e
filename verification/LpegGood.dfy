/** Every combinator keeps what is true of the code of every pattern (lpeg.c:1239-1422, 1460-1684). */
module LpegGood {
  import opened Basics
  import opened LpegMachine
  import opened LpegSemantics
  import opened LpegBuild
  import opened LpegCorrect
  import opened LpegChoice
  import opened LpegPredicates
  import opened LpegVerify
  import opened LpegChecked
  import opened LpegSplit
  import opened LpegRepeat
  import opened LpegJumps

  // ---------- Code that firstpart does not take apart ----------

  /** A chain of jumps that starts in a piece of code does not go beyond its end. */
  lemma {:induction false} TargetWithin(p: seq<Instr>, tail: seq<Instr>, i: int)
    requires Shaped(p) && tail != [] && !tail[0].IJmp? && 0 <= i <= |p|
    ensures 0 <= Target(p + tail, i) <= |p|
    decreases |p| - i
  {
    if i < |p| && p[i].IJmp? {
      assert Fits(p, i);
      if p[i].off > 0 { TargetWithin(p, tail, i + p[i].off); }
    }
  }

  /** The jumps of the first piece end inside it, before the end of the whole. */
  lemma JoinNotSplit(p: seq<Instr>, tail: seq<Instr>)
    requires Shaped(p) && p != [] && tail != []
    ensures FirstPart(p + tail) == 0
    ensures !tail[0].IJmp? ==> FirstPart(OptJumps(p + tail)) == 0
  {
    var P := p + tail;
    assert forall k :: 0 <= k < |p| ==> P[k] == p[k];
    forall k | 0 <= k < |p| && IsJump(p[k]) ensures k + p[k].off <= |p| {
      assert Fits(p, k);
    }
    if !tail[0].IJmp? {
      var Q := OptJumps(P);
      forall k | 0 <= k < |p| && IsJump(p[k]) ensures k + Q[k].off <= |p| {
        assert Fits(p, k);
        TargetWithin(p, tail, k + p[k].off);
      }
      assert Q[0] == Retargeted(P, 0);
      assert IsTest(Q[0]) ==> IsTest(p[0]);
    }
  }

  // ---------- Primitive patterns ----------

  lemma EmptyGood()
    ensures Good([], Empty)
  {
    EmptyCode();
    EmptyChecked(Empty);
    NotSplit([], Empty);
  }

  lemma NeverGood()
    ensures Good([IFail], Never)
  {
    NeverCode();
    FailChecked([IFail], Never);
    NotSplit([IFail], Never);
  }

  lemma CheckGood(p: Instr)
    requires IsCheck(p) && OpStep(p) >= 1
    ensures Good([p], CheckPeg(p))
  {
    CheckCode(p);
    CheckAdvances(p);
    CheckChecked(p, CheckPeg(p));
    NotSplit([p], CheckPeg(p));
  }

  lemma AnyGood(n: nat)
    requires n > 0
    ensures Good(AnyCode(n), Any(n))
  {
    var code := AnyCode(n);
    AnyCodeDoes(n);
    assert code[0].IAny? && code[|code| - 1].IAny?;
    assert |code| > 1 ==> code[1].IAny?;
    StopWalks(code);
    NotThrough(code, Any(n), 0);
    NotSplit(code, Any(n));
  }

  // ---------- Concatenation, difference and predicates ----------

  lemma ConcatAllGood(p1: seq<Instr>, p2: seq<Instr>, a: Peg, b: Peg)
    requires Good(p1, a) && Good(p2, b) && !BadConcat(p1, p2)
    ensures Good(Concat(p1, p2), Seq(a, b))
  {
    ConcatGood(p1, p2, a, b);
    if StartsWithFail(p1) || p2 == [] || StartsWithFail(p2) || p1 == [] {
      ConcatTrivialGood(p1, p2, a, b);
    } else if IsSingleAny(p1) && IsSingleAny(p2) {
      assert Fits(p1, 0) && Fits(p2, 0);
      AnyGood(p1[0].n + p2[0].n);
      forall s: seq<Byte>, i | 0 <= i <= |s|
        ensures Sem(Seq(a, b), s, i) == Loop || Sem(Seq(a, b), s, i) == Sem(Any(p1[0].n + p2[0].n), s, i)
      {
        SingleAny(p1, a, s, i);
        if Sem(a, s, i).Ok? { SingleAny(p2, b, s, Sem(a, s, i).j); }
      }
      GoodSame(AnyCode(p1[0].n + p2[0].n), Any(p1[0].n + p2[0].n), Seq(a, b));
    } else {
      hide Implements, Shaped, Checked, WalkDoes;
      ConcatChecked(p1, p2, a, b);
      JoinNotSplit(p1, p2);
      NotSplit(p1 + p2, Seq(a, b));
    }
  }

  lemma ConcatTrivialGood(p1: seq<Instr>, p2: seq<Instr>, a: Peg, b: Peg)
    requires Good(p1, a) && Good(p2, b)
    requires StartsWithFail(p1) || p2 == [] || StartsWithFail(p2) || p1 == []
    ensures Good(Concat(p1, p2), Seq(a, b))
  {
    var e := Seq(a, b);
    if StartsWithFail(p1) {
      forall s: seq<Byte>, i | 0 <= i <= |s| ensures Sem(e, s, i) == Loop || Sem(e, s, i) == Sem(a, s, i) {
        FailAtOnce(p1, a, s, i);
      }
      GoodSame(p1, a, e);
    } else if p2 == [] {
      forall s: seq<Byte>, i | 0 <= i <= |s| ensures Sem(e, s, i) == Loop || Sem(e, s, i) == Sem(a, s, i) {
        if Sem(a, s, i).Ok? { NothingMatches(b, s, Sem(a, s, i).j); }
      }
      GoodSame(p1, a, e);
    } else if StartsWithFail(p2) {
      forall s: seq<Byte>, i | 0 <= i <= |s| ensures Sem(e, s, i) == Loop || (Sem(e, s, i) == No) {
        if Sem(a, s, i).Ok? { FailAtOnce(p2, b, s, Sem(a, s, i).j); }
      }
      FailsEverywhere(p2, e);
      FailChecked(p2, e);
      NotSplit(p2, e);
    } else {
      forall s: seq<Byte>, i | 0 <= i <= |s| ensures Sem(e, s, i) == Loop || Sem(e, s, i) == Sem(b, s, i) {
        NothingMatches(a, s, i);
      }
      GoodSame(p2, b, e);
    }
  }

  lemma DiffNotSplit(p1: seq<Instr>, p2: seq<Instr>)
    ensures FirstPart(Diff(p1, p2)) == 0
  {
    hide ToCharset, IsHeadFail, ToTest, OptimizeChoice, FirstPart;
    TestFailNotSplit(p1, p2);
    ChoiceFailNotSplit(p1, p2);
    if ToCharset(p1).IsCharset? && ToCharset(p2).IsCharset? {
      ChecksNotSplit([ISet(ToCharset(p1).cs - ToCharset(p2).cs, 0)]);
    }
  }

  lemma ChecksNotSplit(p: seq<Instr>)
    requires |p| == 1 && IsCheck(p[0])
    ensures FirstPart(p) == 0
  {
  }

  lemma TestFailNotSplit(p1: seq<Instr>, p2: seq<Instr>)
    ensures IsHeadFail(p2) ==> FirstPart(ToTest(p2, |p2| + 1) + [IFail] + p1) == 0
  {
    if IsHeadFail(p2) {
      ToTestParts(p2, IFail, p1);
      hide ToCharset, IsHeadFail, ToTest;
    }
  }

  lemma ChoiceFailNotSplit(p1: seq<Instr>, p2: seq<Instr>)
    ensures FirstPart(OptimizeChoice([IChoice(|p2| + 2, 0)] + p2 + [IFailTwice] + p1)) == 0
  {
    GuardedParts(p2, IFailTwice, p1);
    GuardedIsChoice(p2, [IFailTwice] + p1);
    assert [IChoice(|p2| + 2, 0)] + p2 + [IFailTwice] + p1 == [IChoice(|p2| + 2, 0)] + p2 + ([IFailTwice] + p1);
    hide OptimizeChoice, Guarded;
  }

  lemma GuardedIsChoice(p: seq<Instr>, rest: seq<Instr>)
    ensures Guarded(p, |p| + 2, rest) == OptimizeChoice([IChoice(|p| + 2, 0)] + p + rest)
  {
  }

  lemma DiffAllGood(p1: seq<Instr>, p2: seq<Instr>, a: Peg, b: Peg)
    requires Good(p1, a) && Good(p2, b)
    ensures Good(Diff(p1, p2), Minus(a, b))
  {
    DiffGood(p1, p2, a, b);
    DiffChecked(p1, p2, a, b);
    DiffNotSplit(p1, p2);
    hide Implements, Shaped, Checked, Diff;
    NotSplit(Diff(p1, p2), Minus(a, b));
  }

  lemma UnmAllGood(p: seq<Instr>, e: Peg)
    requires Good(p, e)
    ensures Good(Unm(p), Not(e))
  {
    UnmGood(p, e);
    UnmChecked(p, e);
    DiffNotSplit([], p);
    hide Implements, Shaped, Checked, Diff;
    NotSplit(Unm(p), Not(e));
  }

  lemma AndNotSplit(p: seq<Instr>)
    ensures FirstPart(PattAnd(p)) == 0 || PattAnd(p) == p
  {
    if !StartsWithFail(p) && p != [] && !ToCharset(p).IsCharset? {
      assert PattAnd(p)[|p| + 1] == IBackCommit(2);
    }
  }

  lemma AndAllGood(p: seq<Instr>, e: Peg)
    requires Good(p, e)
    ensures Good(PattAnd(p), And(e))
  {
    AndGood(p, e);
    AndChecked(p, e);
    AndNotSplit(p);
    assert StartsWithFail(p) || p == [] ==> FirstPart(p) == 0;
    hide Implements, Shaped, Checked;
    NotSplit(PattAnd(p), And(e));
  }

  /** The code of the number -n is that of 'not n characters'. */
  lemma NotAnyIs(n: nat)
    requires n > 0
    ensures NotAnyCode(n) == Unm(AnyCode(n))
  {
    var p := AnyCode(n);
    if n > UCHAR_MAX {
      var rest := AnyCode(n - UCHAR_MAX);
      AnyCodeDoes(n - UCHAR_MAX);
      assert p == [IAny(UCHAR_MAX, 0)] + rest && rest[0].IAny?;
      assert !IsHeadFail(p) by { assert p[1] == rest[0] && !IsNoFail(p[1]); }
      hide AnyCode;
      NotCheckFirst(p, rest);
    } else {
      assert ToTest(p, 2) + [IFail] + [] == [IAny(n, 2), IFail];
    }
  }

  lemma NotCheckFirst(p: seq<Instr>, rest: seq<Instr>)
    requires p == [IAny(UCHAR_MAX, 0)] + rest && rest != [] && !IsHeadFail(p)
    ensures Unm(p) == [IAny(UCHAR_MAX, |rest| + 3), IChoice(|rest| + 2, UCHAR_MAX)] + rest + [IFailTwice]
  {
    hide IsHeadFail;
    var q := [IChoice(|p| + 2, 0)] + p + [IFailTwice] + [];
    assert q == [IChoice(|p| + 2, 0), IAny(UCHAR_MAX, 0)] + (rest + [IFailTwice]);
  }

  lemma NotAnyGood(n: nat)
    requires n > 0
    ensures Good(NotAnyCode(n), NotAny(n))
  {
    NotAnyIs(n);
    AnyGood(n);
    UnmAllGood(AnyCode(n), Any(n));
    forall s: seq<Byte>, i | 0 <= i <= |s| ensures Sem(NotAny(n), s, i) == Sem(Not(Any(n)), s, i) {
      assert Sem(Any(n), s, i) == if n <= |s| - i then Ok(i + n) else No;
    }
    GoodSame(NotAnyCode(n), Not(Any(n)), NotAny(n));
  }

  // ---------- Repetition ----------

  lemma RepeatsAre(p: seq<Instr>, n: nat)
    requires p != []
    ensures RepeatHeadFail(p, n) == Times(p, n) + HeadFailLoop(p)
    ensures Repeats(p, n) == Times(p, n) + ChoiceLoop(p)
  {
  }

  lemma LoopsNotSplit(p: seq<Instr>)
    requires Shaped(p) && p != []
    ensures IsHeadFail(p) ==> FirstPart(OptJumps(HeadFailLoop(p))) == 0
    ensures FirstPart(OptJumps(ChoiceLoop(p))) == 0
  {
    if IsHeadFail(p) {
      var P := HeadFailLoop(p);
      assert P[0] == WithOff(p[0], |p| + 1) && P[|p|] == IJmp(-|p|);
      assert Target(P, |p| + 1) == |p| + 1 && Target(P, 0) == 0;
    }
    var P := ChoiceLoop(p);
    assert P[|p| + 1] == IPartialCommit(-|p|);
    assert Target(P, |p| + 2) == |p| + 2;
  }

  lemma FirstNoJmp(p: seq<Instr>)
    requires Shaped(p) && p != []
    ensures !p[0].IJmp?
  {
  }

  /** n copies of p in front of a loop, as optimizejumps leaves them. */
  lemma LoopGood(p: seq<Instr>, e: Peg, n: nat, loop: seq<Instr>)
    requires Good(p, e) && p != [] && Implements(loop, AtLeast(e, 0)) && Shaped(loop) && Checked(loop, AtLeast(e, 0))
    requires loop != [] && FirstPart(OptJumps(loop)) == 0
    ensures Good(OptJumps(Times(p, n) + loop), AtLeast(e, n))
  {
    hide Implements, Checked, Shaped, Splits, OptJumps, FirstPart;
    var P := Times(p, n) + loop;
    TimesDoes(p, e, n, loop);
    OptJumpsDoes(P, AtLeast(e, n));
    OptJumpsShaped(P);
    OptJumpsChecked(P, AtLeast(e, n));
    if n == 0 {
      assert P == loop;
    } else {
      var tail := Times(p, n - 1) + loop;
      assert P == p + tail;
      assert tail[0] == if n > 1 then p[0] else loop[0];
      FirstNoJmp(p);
      FirstNoJmp(loop);
      JoinNotSplit(p, tail);
    }
    NotSplit(OptJumps(P), AtLeast(e, n));
  }

  lemma RepeatCharsetGood(p: seq<Instr>, e: Peg, n: nat)
    requires Good(p, e) && ToCharset(p).IsCharset?
    ensures Good(RepeatCharset(p, ToCharset(p).cs, n), AtLeast(e, n))
  {
    var loop := [ISpan(ToCharset(p).cs)];
    SpanDoes(p, e);
    TimesDoes(p, e, n, loop);
    if n > 0 { assert Times(p, n)[0] == p[0]; }
    hide Implements, Shaped, Checked;
    NotSplit(Times(p, n) + loop, AtLeast(e, n));
  }

  lemma RepeatHeadFailGood(p: seq<Instr>, e: Peg, n: nat)
    requires Good(p, e) && IsHeadFail(p)
    ensures Good(OptJumps(RepeatHeadFail(p, n)), AtLeast(e, n))
  {
    HeadFailLoopDoes(p, e);
    RepeatsAre(p, n);
    LoopsNotSplit(p);
    hide Implements, Shaped, Checked, Splits, OptJumps;
    LoopGood(p, e, n, HeadFailLoop(p));
  }

  lemma RepeatsGood(p: seq<Instr>, e: Peg, n: nat)
    requires Good(p, e) && p != []
    ensures Good(OptJumps(Repeats(p, n)), AtLeast(e, n))
  {
    ChoiceLoopDoes(p, e);
    ChoiceLoopChecked(p, e);
    RepeatsAre(p, n);
    LoopsNotSplit(p);
    hide Implements, Shaped, Checked, Splits, OptJumps;
    LoopGood(p, e, n, ChoiceLoop(p));
  }
}
