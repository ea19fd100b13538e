/** Expressions that are compiled wrong, or whose matching never ends (lpeg.c:656-782, 1329-1351, 1538-1568). */
module LpegFlaws {
  import opened Basics
  import opened LpegMachine
  import opened LpegSemantics
  import opened LpegBuild
  import opened LpegCorrect
  import opened LpegVerify
  import opened LpegUnion
  import opened LpegSplit
  import opened LpegJumps
  import opened LpegCompile

  const A: Byte := 97
  const B: Byte := 98
  const X: Byte := 120

  // ---------- P(1) * P(1)^-1 ----------

  /** An optional 'any' that is concatenated to an 'any' is no longer optional: the subject "a" is not matched. */
  lemma OptionalAnyIsLost()
    ensures var e := Peg.Seq(Any(1), AtMost(Any(1), 1)); var s: seq<Byte> := [A];
            && Compile(e) == Code([IAny(2, 0)])
            && Sem(e, s, 0) == Ok(1) && Reaches([IAny(2, 0)], s, Run(0, 0, []), Failing([]))
  {
    var e := Peg.Seq(Any(1), AtMost(Any(1), 1));
    var s: seq<Byte> := [A];
    var one: seq<Instr> := [IAny(1, 0)];
    var opt: seq<Instr> := [IAny(1, 1)];
    assert AnyCode(1) == one && AnyCode(2) == [IAny(2, 0)];
    assert Cells(one) == 1 + Cells([]);
    assert OptionalHeadFail(one, 0) == [];
    assert OptionalHeadFail(one, 1) == ToTest(one, 1) + [] == opt;
    assert Cells(opt) == 1 + Cells(opt[1..]);
    assert Cells([IAny(2, 0)]) == 1 + Cells([IAny(2, 0)][1..]);
    assert Compile(Any(1)) == Code(one);
    assert Compile(AtMost(Any(1), 1)) == Code(opt);
    assert Concat(one, opt) == [IAny(2, 0)];
    assert Sem(Any(1), s, 0) == Ok(1) && Sem(Any(1), s, 1) == No;
    OptionalAny(1, s, 1);
    OneStep([IAny(2, 0)], s, Run(0, 0, []), Failing([]));
  }

  // ---------- (P(2) * P"x" + S"") + P"a" ----------

  /** The choice that separateparts puts back takes the alternative up one character too far: on "aab" the alternative
      "a" matches the second character, and the match ends at 2 and not at 1. */
  lemma WrongDistance()
    ensures var two := [IAny(2, 0), IChar(X, 0)]; var none: seq<Instr> := [ISet({}, 0)]; var last := [IChar(A, 0)];
            var code := Union(Union(two, none), last);
            var e := Peg.Or(Peg.Or(Peg.Seq(Any(2), Char(X)), Peg.Set({})), Char(A)); var s: seq<Byte> := [A, A, B];
            && BadUnion(Union(two, none), last)
            && Sem(e, s, 0) == Ok(1) && Reaches(code, s, Run(0, 0, []), Run(|code|, 2, []))
  {
    var two := [IAny(2, 0), IChar(X, 0)];
    var none: seq<Instr> := [ISet({}, 0)];
    var last := [IChar(A, 0)];
    var s: seq<Byte> := [A, A, B];
    var first := [IAny(2, 3), IChar(X, 0), IJmp(2), ISet({}, 0)];
    TwoOrNone(two, none, first);
    ThenLast(none, first, last);
    WrongDistanceRuns(Union(first, last), s);
    assert Sem(Any(2), s, 0) == Ok(2) && Sem(Char(X), s, 2) == No && Sem(Peg.Set({}), s, 0) == No;
  }

  lemma TwoOrNone(two: seq<Instr>, none: seq<Instr>, first: seq<Instr>)
    requires two == [IAny(2, 0), IChar(X, 0)] && none == [ISet({}, 0)]
    requires first == [IAny(2, 3), IChar(X, 0), IJmp(2), ISet({}, 0)]
    ensures Union(two, none) == first
  {
    assert ToTest(two, 3) == [IAny(2, 3), IChar(X, 0)];
  }

  lemma ThenLast(none: seq<Instr>, first: seq<Instr>, last: seq<Instr>)
    requires none == [ISet({}, 0)] && first == [IAny(2, 3), IChar(X, 0), IJmp(2), ISet({}, 0)] && last == [IChar(A, 0)]
    ensures Union(first, last) == [IAny(2, 4), IChoice(3, 1), IChar(X, 0), ICommit(2), ISet({A}, 0)]
    ensures BadUnion(first, last)
  {
    assert FirstPart(first) == 3;
    assert first[3..] == none && first[1..2] == [IChar(X, 0)];
    assert FirstPart(none) == 0 && SeparateParts(none, last) == BasicUnion(none, last);
    assert {} + {A} == {A} && ToCharset(none) == IsCharset({}) && ToCharset(last) == IsCharset({A});
    var body := FirstBody(first, 3);
    assert body == [IAny(2, 0), IChar(X, 0)];
    TwoFails(body);
  }

  lemma TwoFails(body: seq<Instr>)
    requires body == [IAny(2, 0), IChar(X, 0)]
    ensures FailsBehind(body)
  {
    var s: seq<Byte> := [A, A];
    ReachesRefl(body, s, Failing([]));
    StepTo(body, s, Run(1, 2, []), Failing([]), Failing([]));
    StepTo(body, s, Run(0, 0, []), Run(1, 2, []), Failing([]));
    assert Passes(body[0], s, 0);
  }

  lemma WrongDistanceRuns(code: seq<Instr>, s: seq<Byte>)
    requires code == [IAny(2, 4), IChoice(3, 1), IChar(X, 0), ICommit(2), ISet({A}, 0)] && s == [A, A, B]
    ensures Reaches(code, s, Run(0, 0, []), Run(5, 2, []))
  {
    var d := Run(5, 2, []);
    ReachesRefl(code, s, d);
    StepTo(code, s, Run(4, 1, []), d, d);
    StepTo(code, s, Failing([Entry(4, 1)]), Run(4, 1, []), d);
    StepTo(code, s, Run(2, 2, [Entry(4, 1)]), Failing([Entry(4, 1)]), d);
    StepTo(code, s, Run(1, 2, []), Run(2, 2, [Entry(4, 1)]), d);
    StepTo(code, s, Run(0, 0, []), Run(1, 2, []), d);
  }

  // ---------- (#S"ab" + P"a")^0 ----------

  /** The machine goes on for ever: it never leaves its code, and never fails for good. */
  ghost predicate RunsForEver(code: seq<Instr>, s: seq<Byte>, c: Config) {
    forall n: nat :: var d := Exec(code, s, c, n);
      && d != Stuck && (d.Run? ==> 0 <= d.pc < |code|) && (d.Failing? ==> d.stk != [])
  }

  /** A machine that stays among these configurations. */
  lemma {:induction false} GoesRound(code: seq<Instr>, s: seq<Byte>, ds: seq<Config>, d: Config, n: nat)
    requires forall c :: c in ds ==> c.Run? && 0 <= c.pc < |code| && Step(code, s, c) in ds
    requires d in ds
    ensures Exec(code, s, d, n) in ds
    decreases n
  {
    hide Step;
    if n > 0 { GoesRound(code, s, ds, Step(code, s, d), n - 1); }
  }

  lemma Circle(code: seq<Instr>, s: seq<Byte>, ds: seq<Config>)
    requires ds != [] && forall c :: c in ds ==> c.Run? && 0 <= c.pc < |code| && Step(code, s, c) in ds
    ensures RunsForEver(code, s, ds[0])
  {
    hide Step;
    forall n: nat ensures Exec(code, s, ds[0], n) in ds { GoesRound(code, s, ds, ds[0], n); }
  }

  predicate Settled(code: seq<Instr>, k: nat)
    requires k < |code|
  {
    IsJump(code[k]) ==> var t := k + code[k].off; 0 <= t <= |code| && (t < |code| ==> !code[t].IJmp?)
  }

  /** optimizejumps changes nothing where no jump leads to a jump. */
  lemma NothingToOptimize(code: seq<Instr>)
    requires forall k :: 0 <= k < |code| ==> Settled(code, k)
    ensures OptJumps(code) == code
  {
    forall k | 0 <= k < |code| ensures Retargeted(code, k) == code[k] {
      assert Settled(code, k);
      if IsJump(code[k]) { assert Target(code, k + code[k].off) == k + code[k].off; }
    }
  }

  /** The walk of verify jumps over the predicate, which has become part of a test: the loop body is accepted, and it
      matches "a" without consuming. */
  lemma HoistedPredicateLoops()
    ensures var body := Union(PattAnd([ISet({A, B}, 0)]), [IChar(A, 0)]); var s: seq<Byte> := [A];
            && body == [ISet({A, B}, 4), IChoice(3, 1), IBack(1), ICommit(2), IChar(A, 0)]
            && Accepts(body) && MeetsBlindSpot(body)
            && Sem(AtLeast(Peg.Or(Peg.And(Peg.Set({A, B})), Char(A)), 0), s, 0) == Loop
            && RunsForEver(OptJumps(Repeats(body, 0)), s, Run(0, 0, []))
  {
    var body := [ISet({A, B}, 4), IChoice(3, 1), IBack(1), ICommit(2), IChar(A, 0)];
    var s: seq<Byte> := [A];
    var p: seq<Instr> := [ISet({A, B}, 0), IBack(1)];
    assert PattAnd([ISet({A, B}, 0)]) == p;
    assert FirstPart(p) == 0 && !IsHeadFail(p) by { assert !IsNoFail(p[1]); }
    assert A in ToCharset(p).cs && A in ToCharset([IChar(A, 0)]).cs;
    assert BasicUnion(p, [IChar(A, 0)]) == body by {
      assert [IChoice(4, 0)] + p + [ICommit(2)] + [IChar(A, 0)] ==
             [IChoice(4, 0), ISet({A, B}, 0), IBack(1), ICommit(2), IChar(A, 0)];
    }
    assert AtBlindSpot(body, WalkExec(body, At(0, []), 0));
    HoistedWalk(body);
    var code := OptJumps(Repeats(body, 0));
    HoistedLoop(body, code, s);
  }

  lemma HoistedWalk(body: seq<Instr>)
    requires body == [ISet({A, B}, 4), IChoice(3, 1), IBack(1), ICommit(2), IChar(A, 0)]
    ensures Accepts(body)
  {
    var c: Walk := At(4, []);
    assert WalkStep(body, At(0, [])) == c && WalkStep(body, c) == Back([]);
    assert WalkExec(body, At(0, []), 2) == WalkExec(body, c, 1) == WalkExec(body, Back([]), 0) == Back([]);
  }

  lemma HoistedLoop(body: seq<Instr>, code: seq<Instr>, s: seq<Byte>)
    requires body == [ISet({A, B}, 4), IChoice(3, 1), IBack(1), ICommit(2), IChar(A, 0)] && s == [A]
    requires code == OptJumps(Repeats(body, 0))
    ensures Sem(AtLeast(Peg.Or(Peg.And(Peg.Set({A, B})), Char(A)), 0), s, 0) == Loop
    ensures RunsForEver(code, s, Run(0, 0, []))
  {
    var plain := [IChoice(7, 0), ISet({A, B}, 4), IChoice(3, 1), IBack(1), ICommit(2), IChar(A, 0), IPartialCommit(-5)];
    assert Repeats(body, 0) == plain;
    assert Settled(plain, 0) && Settled(plain, 1) && Settled(plain, 2) && Settled(plain, 3);
    assert Settled(plain, 4) && Settled(plain, 5) && Settled(plain, 6);
    NothingToOptimize(plain);
    HoistedSteps(plain, s);
    assert Sem(Peg.Set({A, B}), s, 0) == Ok(1);
    assert Sem(Peg.And(Peg.Set({A, B})), s, 0) == Ok(0);
    assert Sem(Peg.Or(Peg.And(Peg.Set({A, B})), Char(A)), s, 0) == Ok(0);
  }

  lemma HoistedSteps(code: seq<Instr>, s: seq<Byte>)
    requires s == [A]
    requires code == [IChoice(7, 0), ISet({A, B}, 4), IChoice(3, 1), IBack(1), ICommit(2), IChar(A, 0), IPartialCommit(-5)]
    ensures RunsForEver(code, s, Run(0, 0, []))
  {
    var e := Entry(7, 0);
    var f := Entry(5, 0);
    var c0, c1, c2, c3, c4, c5 :=
      Run(0, 0, []), Run(1, 0, [e]), Run(2, 1, [e]), Run(3, 1, [f, e]), Run(4, 0, [f, e]), Run(6, 0, [e]);
    assert Step(code, s, c0) == c1 && Step(code, s, c1) == c2 && Step(code, s, c2) == c3;
    assert Step(code, s, c3) == c4 && Step(code, s, c4) == c5 && Step(code, s, c5) == c1;
    hide Step;
    Circle(code, s, [c0, c1, c2, c3, c4, c5]);
  }

  // ---------- (#P"a" * P"a" + #P"b")^0 ----------

  /** A test in front of an IBack: the walk goes on behind it, and never sees the alternatives. The loop body is
      accepted, and it matches "b" without consuming. */
  lemma UnseenAlternativeLoops()
    ensures var body := Union(Concat(PattAnd([IChar(A, 0)]), [IChar(A, 0)]), PattAnd([IChar(B, 0)])); var s: seq<Byte> := [B];
            && body == [IChar(A, 4), IBack(1), IChar(A, 0), IJmp(3), IChar(B, 0), IBack(1)]
            && Accepts(body) && MeetsBlindSpot(body)
            && Sem(AtLeast(Peg.Or(Peg.Seq(Peg.And(Char(A)), Char(A)), Peg.And(Char(B))), 0), s, 0) == Loop
            && RunsForEver(OptJumps(Repeats(body, 0)), s, Run(0, 0, []))
  {
    var body := [IChar(A, 4), IBack(1), IChar(A, 0), IJmp(3), IChar(B, 0), IBack(1)];
    var s: seq<Byte> := [B];
    var p: seq<Instr> := [IChar(A, 0), IBack(1), IChar(A, 0)];
    var q: seq<Instr> := [IChar(B, 0), IBack(1)];
    assert PattAnd([IChar(A, 0)]) == [IChar(A, 0), IBack(1)] && PattAnd([IChar(B, 0)]) == q;
    assert Concat([IChar(A, 0), IBack(1)], [IChar(A, 0)]) == p;
    assert FirstPart(p) == 0;
    assert ToCharset(p) == ValidStarts({A}) && ToCharset(q) == ValidStarts({B}) && {A} !! {B};
    assert ToTest(p, 4) == [IChar(A, 4), IBack(1), IChar(A, 0)];
    assert BasicUnion(p, q) == body;
    assert AtBlindSpot(body, WalkExec(body, At(0, []), 0));
    UnseenWalk(body);
    UnseenLoop(body, OptJumps(Repeats(body, 0)), s);
  }

  lemma UnseenWalk(body: seq<Instr>)
    requires body == [IChar(A, 4), IBack(1), IChar(A, 0), IJmp(3), IChar(B, 0), IBack(1)]
    ensures Accepts(body)
  {
    var c: Walk := At(2, []);
    assert WalkStep(body, At(0, [])) == c && WalkStep(body, c) == Back([]);
    assert WalkExec(body, At(0, []), 2) == WalkExec(body, c, 1) == WalkExec(body, Back([]), 0) == Back([]);
  }

  lemma UnseenLoop(body: seq<Instr>, code: seq<Instr>, s: seq<Byte>)
    requires body == [IChar(A, 4), IBack(1), IChar(A, 0), IJmp(3), IChar(B, 0), IBack(1)] && s == [B]
    requires code == OptJumps(Repeats(body, 0))
    ensures Sem(AtLeast(Peg.Or(Peg.Seq(Peg.And(Char(A)), Char(A)), Peg.And(Char(B))), 0), s, 0) == Loop
    ensures RunsForEver(code, s, Run(0, 0, []))
  {
    var plain := [IChoice(8, 0), IChar(A, 4), IBack(1), IChar(A, 0), IJmp(3), IChar(B, 0), IBack(1), IPartialCommit(-6)];
    assert Repeats(body, 0) == plain;
    assert Settled(plain, 0) && Settled(plain, 1) && Settled(plain, 2) && Settled(plain, 3) && Settled(plain, 4);
    assert Settled(plain, 5) && Settled(plain, 6) && Settled(plain, 7);
    NothingToOptimize(plain);
    UnseenSteps(plain, s);
    assert Sem(Char(A), s, 0) == No && Sem(Char(B), s, 0) == Ok(1);
    assert Sem(Peg.And(Char(B)), s, 0) == Ok(0);
  }

  lemma UnseenSteps(code: seq<Instr>, s: seq<Byte>)
    requires s == [B]
    requires code == [IChoice(8, 0), IChar(A, 4), IBack(1), IChar(A, 0), IJmp(3), IChar(B, 0), IBack(1), IPartialCommit(-6)]
    ensures RunsForEver(code, s, Run(0, 0, []))
  {
    var e := Entry(8, 0);
    var c0, c1, c2, c3, c4 := Run(0, 0, []), Run(1, 0, [e]), Run(5, 0, [e]), Run(6, 1, [e]), Run(7, 0, [e]);
    assert Step(code, s, c0) == c1 && Step(code, s, c1) == c2 && Step(code, s, c2) == c3;
    assert Step(code, s, c3) == c4 && Step(code, s, c4) == c1;
    hide Step;
    Circle(code, s, [c0, c1, c2, c3, c4]);
  }
}
