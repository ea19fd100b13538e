/** Which loop bodies verify accepts: all that cannot match the empty string by their syntax, if their choices are not
    nested too deep (lpeg.c:656-782, 1239-1684). Nothing is asked of what the code matches, so that this holds also of the
    expressions that are compiled wrong. */
module LpegAccept {
  import opened Basics
  import opened LpegMachine
  import opened LpegSemantics
  import opened LpegBuild
  import opened LpegCorrect
  import opened LpegChoice
  import opened LpegPredicates
  import opened LpegUnion
  import opened LpegOptional
  import opened LpegVerify
  import opened LpegChecked
  import opened LpegSplit
  import opened LpegRepeat
  import opened LpegJumps
  import opened LpegGood
  import opened LpegCompile

  // ---------- Expressions ----------

  /** The expression may match the empty string, as far as its syntax tells. */
  predicate MayBeEmpty(e: Peg) {
    match e
    case Empty => true
    case Never => false
    case Any(n) => n == 0
    case NotAny(_) => true
    case Char(_) => false
    case Set(_) => false
    case Seq(a, b) => MayBeEmpty(a) && MayBeEmpty(b)
    case Or(a, b) => MayBeEmpty(a) || MayBeEmpty(b)
    case Minus(a, _) => MayBeEmpty(a)
    case Not(_) => true
    case And(_) => true
    case AtLeast(a, n) => n == 0 || MayBeEmpty(a)
    case AtMost(_, _) => true
  }

  /** How deep choices are nested. */
  function Nest(e: Peg): nat {
    match e
    case Seq(a, b) => Max(Nest(a), Nest(b))
    case Or(a, b) => Max(1 + Nest(a), Nest(b))
    case Minus(a, b) => Max(Nest(a), 1 + Nest(b))
    case Not(a) => 1 + Nest(a)
    case And(a) => 1 + Nest(a)
    case AtLeast(a, _) => 1 + Nest(a)
    case AtMost(a, _) => 1 + Nest(a)
    case _ => 0
  }

  /** What cannot be empty by its syntax always consumes. */
  lemma {:induction false} ConsumesBySyntax(e: Peg, s: seq<Byte>, i: int)
    requires !MayBeEmpty(e) && 0 <= i <= |s| && Sem(e, s, i).Ok?
    ensures Sem(e, s, i).j > i
    decreases e, 0
  {
    match e
    case Seq(a, b) =>
      var j := Sem(a, s, i).j;
      if MayBeEmpty(a) { ConsumesBySyntax(b, s, j); } else { ConsumesBySyntax(a, s, i); }
    case Or(a, b) =>
      if Sem(a, s, i).Ok? { ConsumesBySyntax(a, s, i); } else { ConsumesBySyntax(b, s, i); }
    case Minus(a, b) => ConsumesBySyntax(a, s, i);
    case AtLeast(a, n) => ConsumesBySyntax(a, s, i);
    case _ =>
  }

  // ---------- Code ----------

  /** The walk ends within d pending choices, and comes through only if the pattern may be empty. */
  ghost predicate Walked(p: seq<Instr>, empty: bool, d: nat) {
    exists v: bool, h: nat :: WalkDoes(p, v, h) && (v ==> empty) && h <= d
  }

  predicate Edges(p: seq<Instr>) {
    !IsBackAt(p, 0) && (p != [] ==> !p[|p| - 1].IBackCommit?)
  }

  /** How code that firstpart takes apart has been put together. */
  datatype Part = ChoiceOf(M: seq<Instr>) | TestOf(M: seq<Instr>) | LooseOf(M: seq<Instr>) | OptionalOf(q: seq<Instr>, n: nat)

  ghost predicate PartOf(p: seq<Instr>, sp: nat, rest: seq<Instr>, empty: bool, d: nat, f: Part) {
    match f
    case ChoiceOf(M) => p == ChoiceForm(M, rest) && sp == |M| + 2 && d > 0 && Walked(M, empty, d - 1) && Shaped(M)
    case TestOf(M) =>
      M != [] && IsCheck(M[0]) && p == TestForm(M, rest) && sp == |M| + 1 && Walked(M, empty, d) && Shaped(M)
    case LooseOf(M) => M != [] && IsCheck(M[0]) && p == LooseForm(M, rest) && sp == |M| + 2 && Shaped(M)
    case OptionalOf(q, n) =>
      && n > 0 && p == OptionalForm(q, n, rest) && sp == 1 + n * (|q| + 1) && EmptyTail(rest) && empty
      && d > 0 && Walked(q, true, d - 1) && Edges(q) && Shaped(q)
  }

  ghost predicate SoberBy(p: seq<Instr>, empty: bool, d: nat, f: Part)
    requires FirstPart(p) > 0
    decreases |p|, 0
  {
    var rest := p[FirstPart(p)..];
    PartOf(p, FirstPart(p), rest, empty, d, f) && Sober(rest, empty, d)
  }

  /** The walk through the code, and through its alternatives, is as their syntax tells; the jumps stay inside. */
  ghost predicate Sober(p: seq<Instr>, empty: bool, d: nat)
    decreases |p|, 1
  {
    && Walked(p, empty, d) && Edges(p) && Shaped(p)
    && (FirstPart(p) > 0 ==> exists f: Part :: SoberBy(p, empty, d, f))
  }

  lemma WalkedMore(p: seq<Instr>, empty: bool, d: nat, empty': bool, d': nat)
    requires Walked(p, empty, d) && (empty ==> empty') && d <= d'
    ensures Walked(p, empty', d')
  {
    hide WalkDoes;
  }

  lemma {:induction false} SoberMore(p: seq<Instr>, empty: bool, d: nat, empty': bool, d': nat)
    requires Sober(p, empty, d) && (empty ==> empty') && d <= d'
    ensures Sober(p, empty', d')
    decreases |p|
  {
    WalkedMore(p, empty, d, empty', d');
    if FirstPart(p) > 0 {
      var f := TakePart(p, empty, d);
      var rest := p[FirstPart(p)..];
      SoberMore(rest, empty, d, empty', d');
      PartMore(p, FirstPart(p), rest, empty, d, f, empty', d');
      hide PartOf;
      assert SoberBy(p, empty', d', f);
    }
  }

  lemma PartMore(p: seq<Instr>, sp: nat, rest: seq<Instr>, empty: bool, d: nat, f: Part, empty': bool, d': nat)
    requires PartOf(p, sp, rest, empty, d, f) && (empty ==> empty') && d <= d'
    ensures PartOf(p, sp, rest, empty', d', f)
  {
    hide Walked, Shaped, ChoiceForm, TestForm, LooseForm, OptionalForm, EmptyTail;
    match f
    case ChoiceOf(M) => WalkedMore(M, empty, d - 1, empty', d' - 1);
    case TestOf(M) => WalkedMore(M, empty, d, empty', d');
    case LooseOf(M) =>
    case OptionalOf(q, n) => WalkedMore(q, true, d - 1, true, d' - 1);
  }

  lemma TakePart(p: seq<Instr>, empty: bool, d: nat) returns (f: Part)
    requires Sober(p, empty, d) && FirstPart(p) > 0
    ensures SoberBy(p, empty, d, f)
  {
    assert exists g: Part :: SoberBy(p, empty, d, g);
    f :| SoberBy(p, empty, d, f);
  }

  lemma TakeWalked(p: seq<Instr>, empty: bool, d: nat) returns (v: bool, h: nat)
    requires Walked(p, empty, d)
    ensures WalkDoes(p, v, h) && (v ==> empty) && h <= d
  {
    v, h :| WalkDoes(p, v, h) && (v ==> empty) && h <= d;
  }

  lemma WholeSober(p: seq<Instr>, v: bool, h: nat, empty: bool, d: nat)
    requires FirstPart(p) == 0 && WalkDoes(p, v, h) && (v ==> empty) && h <= d && Edges(p) && Shaped(p)
    ensures Sober(p, empty, d)
  {
    hide WalkDoes, Shaped;
    assert Walked(p, empty, d);
  }

  // ---------- Primitive patterns ----------

  /** A repetition of the empty match: it never ends, so that nothing is said of code that implements it. */
  const ENDLESS: Peg := AtLeast(Empty, 0)

  lemma AllEndless(p: seq<Instr>)
    ensures Implements(p, ENDLESS) && Advances(ENDLESS)
  {
    forall s: seq<Byte>, i ensures Sem(ENDLESS, s, i) == Loop {
    }
  }

  lemma WalkedChecked(p: seq<Instr>, empty: bool, d: nat)
    requires Walked(p, empty, d) && Edges(p)
    ensures Checked(p, ENDLESS)
  {
    AllEndless(p);
    var v, h := TakeWalked(p, empty, d);
    hide WalkDoes, Advances, Unsure;
    assert Tells(p, v, h, ENDLESS);
  }

  lemma EmptySober()
    ensures Sober([], true, 0)
  {
    EmptyWalks();
    EmptyCode();
    WholeSober([], true, 0, true, 0);
  }

  /** Only a pattern that may be empty has no code. */
  lemma EmptyOnly(empty: bool, d: nat)
    requires Walked([], empty, d)
    ensures empty
  {
    var v, h := TakeWalked([], empty, d);
    if !v {
      var n: nat :| FreeExec([], At(0, []), n) == Back([]) && Low([], At(0, []), n, h);
      if n > 0 { FreeLost([], n - 1); }
    }
  }

  /** Code that starts with a check that nothing follows, or with a failure. */
  lemma StopSober(p: seq<Instr>, empty: bool, d: nat)
    requires p != [] && (p[0].IFail? || (IsCheck(p[0]) && !IsBackAt(p, 1))) && Edges(p) && Shaped(p)
    ensures Sober(p, empty, d)
  {
    StopWalks(p);
    WholeSober(p, false, 0, empty, d);
  }

  lemma CheckSober(p: Instr)
    requires IsCheck(p) && OpStep(p) >= 1
    ensures Sober([p], false, 0)
  {
    CheckCode(p);
    StopSober([p], false, 0);
  }

  lemma AnySober(n: nat, empty: bool, d: nat)
    requires n > 0
    ensures Sober(AnyCode(n), empty, d)
  {
    AnyCodeDoes(n);
    var p := AnyCode(n);
    assert p[0].IAny? && (|p| > 1 ==> p[1].IAny?) && p[|p| - 1].IAny?;
    StopSober(p, empty, d);
  }

  lemma NotAnySober(n: nat)
    requires n > 0
    ensures Sober(NotAnyCode(n), true, 0)
  {
    var P := NotAnyCode(n);
    NotAnyGood(n);
    if n > UCHAR_MAX { AnyCodeDoes(n - UCHAR_MAX); }
    assert P[0].IAny? && P[0].off == |P| && !IsBackAt(P, 1) && !P[|P| - 1].IBackCommit?;
    ComesStep(P, At(0, []), At(|P|, []), 0);
    assert FirstPart(P) == 0;
    WholeSober(P, true, 0, true, 0);
  }

  // ---------- Concatenation, difference and predicates ----------

  lemma ConcatSober(p1: seq<Instr>, p2: seq<Instr>, e1: bool, e2: bool, d1: nat, d2: nat)
    requires Sober(p1, e1, d1) && Sober(p2, e2, d2)
    ensures Sober(Concat(p1, p2), e1 && e2, Max(d1, d2))
  {
    var e, d := e1 && e2, Max(d1, d2);
    if StartsWithFail(p1) {
      StopSober(p1, e, d);
    } else if p2 == [] {
      EmptyOnly(e2, d2);
      SoberMore(p1, e1, d1, e, d);
    } else if StartsWithFail(p2) {
      StopSober(p2, e, d);
    } else if p1 == [] {
      EmptyOnly(e1, d1);
      SoberMore(p2, e2, d2, e, d);
    } else if IsSingleAny(p1) && IsSingleAny(p2) {
      assert Fits(p1, 0) && Fits(p2, 0);
      AnySober(p1[0].n + p2[0].n, e, d);
    } else {
      var v1, h1 := TakeWalked(p1, e1, d1);
      var v2, h2 := TakeWalked(p2, e2, d2);
      hide Shaped, WalkDoes;
      ConcatWalks(p1, p2, v1, v2, h1, h2);
      ConcatShaped(p1, p2);
      JoinNotSplit(p1, p2);
      WholeSober(p1 + p2, v1 && v2, Max(h1, h2), e, d);
    }
  }

  lemma DiffSober(p1: seq<Instr>, p2: seq<Instr>, e1: bool, e2: bool, d1: nat, d2: nat)
    requires Sober(p1, e1, d1) && Sober(p2, e2, d2)
    ensures Sober(Diff(p1, p2), e1, Max(d1, 1 + d2))
  {
    AllEndless(p1);
    AllEndless(p2);
    DiffGood(p1, p2, ENDLESS, ENDLESS);
    DiffNotSplit(p1, p2);
    if ToCharset(p1).IsCharset? && ToCharset(p2).IsCharset? {
      StopSober(Diff(p1, p2), e1, Max(d1, 1 + d2));
    } else if IsHeadFail(p2) {
      DiffTestSober(p1, p2, e1, d1, Max(d1, 1 + d2));
    } else {
      assert [IChoice(|p2| + 2, 0)] + p2 + [IFailTwice] + p1 == [IChoice(|p2| + 2, 0)] + p2 + ([IFailTwice] + p1);
      DiffChoiceSober(p1, p2, e1, e2, d1, d2);
    }
  }

  lemma DiffTestSober(p1: seq<Instr>, p2: seq<Instr>, e1: bool, d1: nat, d: nat)
    requires Sober(p1, e1, d1) && IsHeadFail(p2) && d1 <= d
    requires var P := ToTest(p2, |p2| + 1) + [IFail] + p1; Shaped(P) && FirstPart(P) == 0
    ensures Sober(ToTest(p2, |p2| + 1) + [IFail] + p1, e1, d)
  {
    var P := ToTest(p2, |p2| + 1) + [IFail] + p1;
    var v, h := TakeWalked(p1, e1, d1);
    DiffHeadFailWalks(p1, p2);
    hide ToTest, Shaped, Comes;
    RestWalks(P, |p2| + 1, p1, v, h, 0);
    if p1 != [] { LastOfPiece(P, |p2| + 1, p1); }
    WholeSober(P, v, h, e1, d);
  }

  lemma DiffChoiceSober(p1: seq<Instr>, p2: seq<Instr>, e1: bool, e2: bool, d1: nat, d2: nat)
    requires Sober(p1, e1, d1) && Sober(p2, e2, d2)
    requires var P := Guarded(p2, |p2| + 2, [IFailTwice] + p1); Shaped(P) && FirstPart(P) == 0
    ensures Sober(Guarded(p2, |p2| + 2, [IFailTwice] + p1), e1, Max(d1, 1 + d2))
  {
    var P := Guarded(p2, |p2| + 2, [IFailTwice] + p1);
    var v, h := TakeWalked(p1, e1, d1);
    var w, g := TakeWalked(p2, e2, d2);
    DiffChoiceWalks(p1, p2, w, g);
    hide Guarded, Shaped, Comes;
    RestWalks(P, |p2| + 2, p1, v, h, 1 + g);
    if p1 != [] { LastOfPiece(P, |p2| + 2, p1); }
    WholeSober(P, v, Max(1 + g, h), e1, Max(d1, 1 + d2));
  }

  lemma UnmSober(p: seq<Instr>, e: bool, d: nat)
    requires Sober(p, e, d)
    ensures Sober(Unm(p), true, 1 + d)
  {
    EmptySober();
    if StartsWithFail(p) {
      SoberMore([], true, 0, true, 1 + d);
    } else if p == [] {
      NeverGood();
      StopSober([IFail], true, 1 + d);
    } else {
      DiffSober([], p, true, e, 0, d);
    }
  }

  lemma AndSober(p: seq<Instr>, e: bool, d: nat)
    requires Sober(p, e, d)
    ensures Sober(PattAnd(p), true, 1 + d)
  {
    AllEndless(p);
    AndGood(p, ENDLESS);
    AndNotSplit(p);
    if StartsWithFail(p) {
      StopSober(p, true, 1 + d);
    } else if p == [] {
      SoberMore(p, e, d, true, 1 + d);
    } else if ToCharset(p).IsCharset? {
      CharsetAndWalks(p);
      WholeSober(PattAnd(p), true, 0, true, 1 + d);
    } else {
      var v, h := TakeWalked(p, e, d);
      AndChoiceWalks(p, v, h);
      hide WalkDoes, Shaped;
      WholeSober(PattAnd(p), true, 1 + h, true, 1 + d);
    }
  }

  // ---------- Ordered choice ----------

  lemma ChoiceSober(M: seq<Instr>, rest: seq<Instr>, empty: bool, d: nat)
    requires d > 0 && Walked(M, empty, d - 1) && Shaped(M) && Sober(rest, empty, d)
    ensures Sober(ChoiceForm(M, rest), empty, d)
  {
    var P := ChoiceForm(M, rest);
    var v, h := TakeWalked(M, empty, d - 1);
    var w, g := TakeWalked(rest, empty, d);
    ChoiceFormWalks(M, rest, v, w, h, g);
    ChoiceFormEdges(M, rest);
    ChoicePart(M, rest);
    GuardedShaped(M, ICommit(|rest| + 1), rest);
    assert Shaped(P);
    hide WalkDoes, Shaped, ChoiceForm;
    assert Walked(P, empty, d);
    hide Walked;
    assert SoberBy(P, empty, d, ChoiceOf(M));
  }

  lemma TestSober(M: seq<Instr>, rest: seq<Instr>, empty: bool, d: nat)
    requires M != [] && IsCheck(M[0]) && Walked(M, empty, d) && Shaped(M) && Sober(rest, empty, d)
    ensures Sober(TestForm(M, rest), empty, d)
  {
    var P := TestForm(M, rest);
    var v, h := TakeWalked(M, empty, d);
    var w, g := TakeWalked(rest, empty, d);
    TestFormWalks(M, rest, v, w, h, g);
    TestFormEdges(M, rest);
    TestPart(M, rest);
    ToTestShaped(M, IJmp(|rest| + 1), rest);
    assert Shaped(P);
    hide WalkDoes, Shaped, TestForm;
    assert Walked(P, empty, d);
    hide Walked;
    assert SoberBy(P, empty, d, TestOf(M));
  }

  lemma LooseSober(M: seq<Instr>, rest: seq<Instr>, empty: bool, d: nat)
    requires M != [] && IsCheck(M[0]) && Shaped(M) && Sober(rest, empty, d)
    ensures Sober(LooseForm(M, rest), empty, d)
  {
    var P := LooseForm(M, rest);
    var w, g := TakeWalked(rest, empty, d);
    LooseFormWalks(M, rest, w, g);
    LooseFormEdges(M, rest);
    LoosePart(M, rest);
    LooseShaped(M, rest);
    hide WalkDoes, Shaped, LooseForm;
    assert Walked(P, empty, d);
    hide Walked;
    assert SoberBy(P, empty, d, LooseOf(M));
  }

  lemma OptionalSober(q: seq<Instr>, n: nat, rest: seq<Instr>, d: nat)
    requires n > 0 && d > 0 && Walked(q, true, d - 1) && Edges(q) && Shaped(q) && Sober(rest, true, d) && EmptyTail(rest)
    ensures Sober(OptionalForm(q, n, rest), true, d)
  {
    var P := OptionalForm(q, n, rest);
    var v, h := TakeWalked(q, true, d - 1);
    EmptyTailWalks(rest);
    OptionalWalks(q, n, rest, v, h);
    OptionalEdges(q, n, rest);
    OptionalShaped(q, n, rest);
    OptionalPart(q, n, rest, rest);
    hide WalkDoes, Shaped, OptionalForm, EmptyTail;
    assert Walked(P, true, d);
    hide Walked;
    assert SoberBy(P, true, d, OptionalOf(q, n));
  }

  lemma BasicSober(p1: seq<Instr>, p2: seq<Instr>, empty: bool, d: nat)
    requires d > 0 && Sober(p1, empty, d - 1) && Sober(p2, empty, d)
    ensures Sober(BasicUnion(p1, p2), empty, d)
  {
    if ToCharset(p1).IsCharset? && ToCharset(p2).IsCharset? {
      var cs := ToCharset(p1).cs + ToCharset(p2).cs;
      CheckSober(ISet(cs, 0));
      SoberMore([ISet(cs, 0)], false, 0, empty, d);
    } else if Exclusive(ToCharset(p1), ToCharset(p2)) || IsHeadFail(p1) {
      WalkedMore(p1, empty, d - 1, empty, d);
      TestSober(p1, p2, empty, d);
    } else {
      ChoiceFormIs(p1, p2);
      ChoiceSober(p1, p2, empty, d);
    }
  }

  lemma JoinSober(p1: seq<Instr>, p2: seq<Instr>, empty: bool, d: nat, f: Part, more: seq<Instr>)
    requires d > 0 && FirstPart(p1) > 0 && SoberBy(p1, empty, d - 1, f)
    requires more == SeparateParts(p1[FirstPart(p1)..], p2) && Sober(more, empty, d)
    ensures Sober(SeparateParts(p1, p2), empty, d)
  {
    hide Sober, SeparateParts;
    match f
    case ChoiceOf(M) => JoinChoiceSober(p1, p2, empty, d, M, more);
    case TestOf(M) => JoinTestSober(p1, p2, empty, d, M, more);
    case LooseOf(M) => JoinLooseSober(p1, p2, empty, d, M, more);
    case OptionalOf(q, n) => JoinOptionalSober(p1, p2, d, q, n, more);
  }

  lemma JoinChoiceSober(p1: seq<Instr>, p2: seq<Instr>, empty: bool, d: nat, M: seq<Instr>, more: seq<Instr>)
    requires d > 0 && FirstPart(p1) > 0 && SoberBy(p1, empty, d - 1, ChoiceOf(M))
    requires more == SeparateParts(p1[FirstPart(p1)..], p2) && Sober(more, empty, d)
    ensures Sober(SeparateParts(p1, p2), empty, d)
  {
    var rest := p1[FirstPart(p1)..];
    hide Walked, Shaped, Sober, ChoiceForm;
    ChoicePart(M, rest);
    SameChoicePart(M, rest, more);
    WalkedMore(M, empty, d - 2, empty, d - 1);
    ChoiceSober(M, more, empty, d);
  }

  lemma SeparateTest(p1: seq<Instr>, p2: seq<Instr>, M: seq<Instr>, rest: seq<Instr>)
    requires M != [] && IsCheck(M[0]) && p1 == TestForm(M, rest)
    ensures FirstPart(p1) == |M| + 1 && p1[|M| + 1..] == rest
    ensures var more := SeparateParts(rest, p2);
            SeparateParts(p1, p2) == TestForm(M, more) || SeparateParts(p1, p2) == LooseForm(M, more)
  {
    TestPart(M, rest);
    SameTestPart(M, rest, SeparateParts(rest, p2));
    BackToChoice(M, rest, SeparateParts(rest, p2));
    hide TestForm, LooseForm, ChoiceForm, Interfere, ToCharset;
  }

  lemma JoinTestSober(p1: seq<Instr>, p2: seq<Instr>, empty: bool, d: nat, M: seq<Instr>, more: seq<Instr>)
    requires d > 0 && FirstPart(p1) > 0 && SoberBy(p1, empty, d - 1, TestOf(M))
    requires more == SeparateParts(p1[FirstPart(p1)..], p2) && Sober(more, empty, d)
    ensures Sober(SeparateParts(p1, p2), empty, d)
  {
    hide Walked, Shaped, Sober, TestForm, LooseForm, SeparateParts, FirstPart;
    SeparateTest(p1, p2, M, p1[FirstPart(p1)..]);
    WalkedMore(M, empty, d - 1, empty, d);
    TestSober(M, more, empty, d);
    LooseSober(M, more, empty, d);
  }

  lemma JoinLooseSober(p1: seq<Instr>, p2: seq<Instr>, empty: bool, d: nat, M: seq<Instr>, more: seq<Instr>)
    requires d > 0 && FirstPart(p1) > 0 && SoberBy(p1, empty, d - 1, LooseOf(M))
    requires more == SeparateParts(p1[FirstPart(p1)..], p2) && Sober(more, empty, d)
    ensures Sober(SeparateParts(p1, p2), empty, d)
  {
    var rest := p1[FirstPart(p1)..];
    hide Walked, Shaped, Sober, LooseForm;
    LoosePart(M, rest);
    SameLoosePart(M, rest, more);
    LooseSober(M, more, empty, d);
  }

  lemma JoinOptionalSober(p1: seq<Instr>, p2: seq<Instr>, d: nat, q: seq<Instr>, n: nat, more: seq<Instr>)
    requires d > 0 && FirstPart(p1) > 0 && SoberBy(p1, true, d - 1, OptionalOf(q, n))
    requires more == SeparateParts(p1[FirstPart(p1)..], p2) && Sober(more, true, d)
    ensures Sober(SeparateParts(p1, p2), true, d)
  {
    hide Walked, Shaped, Sober, OptionalForm, SeparateParts, FirstPart;
    JoinOptionalIs(p1, p2, q, n, p1[FirstPart(p1)..]);
    EmptyTailJoined(p1[FirstPart(p1)..], p2);
    WalkedMore(q, true, d - 2, true, d - 1);
    OptionalSober(q, n, more, d);
  }

  lemma {:induction false} SeparateSober(p1: seq<Instr>, p2: seq<Instr>, empty: bool, d: nat)
    requires d > 0 && Sober(p1, empty, d - 1) && Sober(p2, empty, d)
    ensures Sober(SeparateParts(p1, p2), empty, d)
    decreases |p1|
  {
    hide Walked, Shaped;
    if FirstPart(p1) == 0 {
      BasicSober(p1, p2, empty, d);
    } else {
      var f := TakePart(p1, empty, d - 1);
      var rest := p1[FirstPart(p1)..];
      SeparateSober(rest, p2, empty, d);
      JoinSober(p1, p2, empty, d, f, SeparateParts(rest, p2));
    }
  }

  lemma UnionSober(p1: seq<Instr>, p2: seq<Instr>, e1: bool, e2: bool, d1: nat, d2: nat)
    requires Sober(p1, e1, d1) && Sober(p2, e2, d2)
    ensures Sober(Union(p1, p2), e1 || e2, Max(1 + d1, d2))
  {
    var e, d := e1 || e2, Max(1 + d1, d2);
    hide Sober, SeparateParts;
    SoberMore(p1, e1, d1, e, d);
    SoberMore(p2, e2, d2, e, d);
    SoberMore(p1, e1, d1, e, d - 1);
    SeparateSober(p1, p2, e, d);
  }

  // ---------- Repetition ----------

  /** n copies of p in front of a loop that the walk goes through. */
  lemma {:induction false} TimesWalks(p: seq<Instr>, e: bool, d: nat, n: nat, loop: seq<Instr>, g: nat)
    requires Sober(p, e, d) && p != [] && loop != [] && WalkDoes(loop, true, g) && Edges(loop) && Shaped(loop)
    ensures var P := Times(p, n) + loop; Walked(P, n == 0 || e, Max(d, g)) && Edges(P) && Shaped(P)
    decreases n
  {
    hide WalkDoes, Shaped;
    if n == 0 {
      assert Times(p, 0) + loop == loop;
      assert Walked(loop, true, Max(d, g));
    } else {
      var tail := Times(p, n - 1) + loop;
      TimesWalks(p, e, d, n - 1, loop, g);
      assert Times(p, n) + loop == p + tail;
      var v, h := TakeWalked(p, e, d);
      var w, k := TakeWalked(tail, n - 1 == 0 || e, Max(d, g));
      ConcatWalks(p, tail, v, w, h, k);
      ConcatShaped(p, tail);
      assert Walked(p + tail, e, Max(d, g));
    }
  }

  lemma SpanSober(p: seq<Instr>, e: bool, d: nat, n: nat)
    requires Sober(p, e, d) && ToCharset(p).IsCharset?
    ensures Sober(RepeatCharset(p, ToCharset(p).cs, n), n == 0 || e, d) && FirstPart(RepeatCharset(p, ToCharset(p).cs, n)) == 0
  {
    var loop := [ISpan(ToCharset(p).cs)];
    ComesStep(loop, At(0, []), At(1, []), 0);
    assert Fits(loop, 0);
    NoJmps(loop);
    TimesWalks(p, e, d, n, loop, 0);
    if n > 0 { assert Times(p, n)[0] == p[0]; }
    hide Shaped, WalkDoes;
    var v, h := TakeWalked(Times(p, n) + loop, n == 0 || e, d);
    WholeSober(Times(p, n) + loop, v, h, n == 0 || e, d);
  }

  /** The same with its chains of jumps followed. */
  lemma LoopSober(p: seq<Instr>, e: bool, d: nat, n: nat, loop: seq<Instr>, g: nat)
    requires Sober(p, e, d) && p != [] && loop != [] && WalkDoes(loop, true, g) && Edges(loop) && Shaped(loop)
    requires FirstPart(OptJumps(loop)) == 0
    ensures Sober(OptJumps(Times(p, n) + loop), n == 0 || e, Max(d, g)) && FirstPart(OptJumps(Times(p, n) + loop)) == 0
  {
    var P := Times(p, n) + loop;
    TimesWalks(p, e, d, n, loop, g);
    var v, h := TakeWalked(P, n == 0 || e, Max(d, g));
    OptWalkDoes(P, v, h);
    OptJumpsShaped(P);
    OptEdges(P);
    hide WalkDoes, Shaped, OptJumps, FirstPart;
    if n == 0 {
      assert P == loop;
    } else {
      var tail := Times(p, n - 1) + loop;
      assert P == p + tail;
      assert tail[0] == if n > 1 then p[0] else loop[0];
      FirstNoJmp(p);
      FirstNoJmp(loop);
      JoinNotSplit(p, tail);
    }
    WholeSober(OptJumps(P), v, h, n == 0 || e, Max(d, g));
  }

  lemma RepeatHeadFailSober(p: seq<Instr>, e: bool, d: nat, n: nat)
    requires Sober(p, e, d) && IsHeadFail(p)
    ensures Sober(OptJumps(RepeatHeadFail(p, n)), n == 0 || e, d) && Shaped(RepeatHeadFail(p, n))
    ensures FirstPart(OptJumps(RepeatHeadFail(p, n))) == 0
  {
    AllEndless(p);
    HeadFailLoopDoes(p, ENDLESS);
    HeadFailLoopWalks(p);
    RepeatsAre(p, n);
    LoopsNotSplit(p);
    TimesWalks(p, e, d, n, HeadFailLoop(p), 0);
    hide Shaped, WalkDoes, OptJumps, Sober;
    LoopSober(p, e, d, n, HeadFailLoop(p), 0);
  }

  lemma LoopParts(p: seq<Instr>, v: bool, h: nat)
    requires WalkDoes(p, v, h) && Shaped(p) && p != []
    ensures var loop := ChoiceLoop(p);
            loop != [] && WalkDoes(loop, true, 1 + h) && Edges(loop) && Shaped(loop) && FirstPart(OptJumps(loop)) == 0
  {
    ChoiceLoopShaped(p);
    ChoiceLoopWalks(p, v, h);
    hide Shaped, WalkDoes, FirstPart, OptJumps;
    LoopsNotSplit(p);
  }

  lemma ChoiceLoopSober(p: seq<Instr>, e: bool, d: nat, n: nat)
    requires Sober(p, e, d) && p != []
    ensures var P := Times(p, n) + ChoiceLoop(p);
            Sober(OptJumps(P), n == 0 || e, 1 + d) && Shaped(P) && FirstPart(OptJumps(P)) == 0
  {
    SoberWalked(p, e, d);
    var v, h := TakeWalked(p, e, d);
    var loop := ChoiceLoop(p);
    assert h <= d && WalkDoes(p, v, h);
    hide *;
    LoopParts(p, v, h);
    TimesWalks(p, e, d, n, loop, 1 + h);
    LoopSober(p, e, d, n, loop, 1 + h);
    MaxLoop(OptJumps(Times(p, n) + loop), n == 0 || e, d, h);
  }

  lemma MaxLoop(P: seq<Instr>, x: bool, d: nat, h: nat)
    requires Sober(P, x, Max(d, 1 + h)) && h <= d
    ensures Sober(P, x, 1 + d)
  {
    hide Sober;
    SoberMore(P, x, Max(d, 1 + h), x, 1 + d);
  }

  lemma RepeatsSober(p: seq<Instr>, e: bool, d: nat, n: nat)
    requires Sober(p, e, d) && p != []
    ensures Sober(OptJumps(Repeats(p, n)), n == 0 || e, 1 + d) && Shaped(Repeats(p, n))
    ensures FirstPart(OptJumps(Repeats(p, n))) == 0
  {
    RepeatsAre(p, n);
    hide *;
    ChoiceLoopSober(p, e, d, n);
  }

  lemma StarSober(p: seq<Instr>, e: bool, d: nat, n: nat)
    requires Sober(p, e, d) && Star(p, n).Code?
    ensures Sober(Star(p, n).code, n == 0 || e, 1 + d) && FirstPart(Star(p, n).code) == 0
  {
    hide Sober, OptJumps, Repeats;
    if ToCharset(p).IsCharset? {
      SpanSober(p, e, d, n);
      SoberMore(Star(p, n).code, n == 0 || e, d, n == 0 || e, 1 + d);
    } else if IsHeadFail(p) {
      RepeatHeadFailSober(p, e, d, n);
      SoberMore(Star(p, n).code, n == 0 || e, d, n == 0 || e, 1 + d);
    } else {
      EmptyRefused();
      RepeatsSober(p, e, d, n);
    }
  }

  lemma EmptyRefused()
    ensures !Accepts([])
  {
    EmptyWalks();
    NotAccepted([], 0);
  }

  lemma OptionallySober(p: seq<Instr>, e: bool, d: nat, n: nat)
    requires Sober(p, e, d) && n > 0 && Optionally(p, n).Code?
    ensures Sober(Optionally(p, n).code, true, 1 + d)
    ensures IsHeadFail(p) ==> FirstPart(Optionally(p, n).code) == 0
  {
    if IsHeadFail(p) {
      var P := OptionalHeadFail(p, n);
      OptionalHeadWalks(p, n);
      OptionalHeadShaped(p, n);
      OptionalHeadEnd(p, n);
      OptionalHeadNext(p, n);
      OptionalHeadLength(p, n);
      assert n * |p| >= |p|;
      hide Shaped, WalkDoes;
      assert FirstPart(P) == 0;
      WholeSober(P, true, 0, true, 1 + d);
    } else {
      WalkedMore(p, e, d, true, d);
      EmptySober();
      hide Walked, Shaped;
      SoberMore([], true, 0, true, 1 + d);
      OptionalSober(p, n, [], 1 + d);
      OptionalsAre(p, n);
    }
  }

  lemma OptionalsAre(p: seq<Instr>, n: nat)
    requires n > 0
    ensures OptionalForm(p, n, []) == Optionals(p, n)
  {
    assert [IChoice(1 + n * (|p| + 1), 0)] + OptionalBodies(p, n, 1) + [] ==
           [IChoice(1 + n * (|p| + 1), 0)] + OptionalBodies(p, n, 1);
  }

  // ---------- Whole expressions ----------

  ghost predicate BuiltSober(e: Peg)
    requires Written(e)
  {
    Compile(e).Code? ==> Sober(Compile(e).code, MayBeEmpty(e), Nest(e))
  }

  /** The walk through the code of every expression comes through only if the syntax says that it may be empty, and never
      has more choices pending than are nested in the expression. */
  lemma {:induction false} CompileSober(e: Peg)
    requires Written(e)
    ensures BuiltSober(e)
  {
    hide Sober, Concat, Union, Diff, Unm, PattAnd, Star, Bounded, Optionally;
    match e {
      case Empty => EmptySober();
      case Never => NeverGood(); NeverSober();
      case Any(n) => AnySober(n, false, 0); BoundedIs(AnyCode(n));
      case NotAny(n) => NotAnySober(n); BoundedIs(NotAnyCode(n));
      case Char(c) => CheckSober(IChar(c, 0));
      case Set(cs) => CheckSober(ISet(cs, 0));
      case Seq(a, b) => CompileSober(a); CompileSober(b); PairSober(a, b, Concats);
      case Or(a, b) => CompileSober(a); CompileSober(b); PairSober(a, b, Unites);
      case Minus(a, b) => CompileSober(a); CompileSober(b); PairSober(a, b, Differs);
      case Not(a) =>
        CompileSober(a);
        if Compile(e).Code? { UnmSober(Compile(a).code, MayBeEmpty(a), Nest(a)); BoundedIs(Unm(Compile(a).code)); }
      case And(a) =>
        CompileSober(a);
        if Compile(e).Code? { AndSober(Compile(a).code, MayBeEmpty(a), Nest(a)); BoundedIs(PattAnd(Compile(a).code)); }
      case AtLeast(a, n) =>
        CompileSober(a);
        if Compile(e).Code? { StarSober(Compile(a).code, MayBeEmpty(a), Nest(a), n); }
      case AtMost(a, n) =>
        CompileSober(a);
        if Compile(e).Code? { OptionallySober(Compile(a).code, MayBeEmpty(a), Nest(a), n); }
    }
  }

  lemma NeverSober()
    ensures Sober([IFail], false, 0)
  {
    NeverGood();
    StopSober([IFail], false, 0);
  }

  function JoinedEmpty(e1: bool, e2: bool, j: Join): bool {
    match j
    case Concats => e1 && e2
    case Unites => e1 || e2
    case Differs => e1
  }

  function JoinedNest(d1: nat, d2: nat, j: Join): nat {
    match j
    case Concats => Max(d1, d2)
    case Unites => Max(1 + d1, d2)
    case Differs => Max(d1, 1 + d2)
  }

  lemma JoinedSober(p: seq<Instr>, q: seq<Instr>, e1: bool, e2: bool, d1: nat, d2: nat, j: Join)
    requires Sober(p, e1, d1) && Sober(q, e2, d2)
    ensures Sober(Joined(p, q, j), JoinedEmpty(e1, e2, j), JoinedNest(d1, d2, j))
  {
    hide Sober, Concat, Union, Diff;
    match j
    case Concats => ConcatSober(p, q, e1, e2, d1, d2);
    case Unites => UnionSober(p, q, e1, e2, d1, d2);
    case Differs => DiffSober(p, q, e1, e2, d1, d2);
  }

  lemma PairSober(a: Peg, b: Peg, j: Join)
    requires Written(a) && Written(b) && BuiltSober(a) && BuiltSober(b)
    ensures var r := Both(Compile(a), Compile(b), j);
            r.Code? ==>
              Sober(r.code, JoinedEmpty(MayBeEmpty(a), MayBeEmpty(b), j), JoinedNest(Nest(a), Nest(b), j))
  {
    hide Sober, Joined, Bounded, Compile, MayBeEmpty, Nest, JoinedEmpty, JoinedNest;
    if Compile(a).Code? && Compile(b).Code? {
      JoinedSober(Compile(a).code, Compile(b).code, MayBeEmpty(a), MayBeEmpty(b), Nest(a), Nest(b), j);
      BoundedIs(Joined(Compile(a).code, Compile(b).code, j));
    }
  }

  lemma SoberWalked(p: seq<Instr>, empty: bool, d: nat)
    requires Sober(p, empty, d)
    ensures Walked(p, empty, d) && Shaped(p) && Edges(p)
  {
  }

  /** verify comes to exactly one verdict on every pattern, and the jumps of its code stay inside, also where the code
      matches something else than its expression. */
  lemma VerifyEnds(e: Peg)
    requires Written(e) && Compile(e).Code?
    ensures var p := Compile(e).code;
            && JumpsInside(p) && (Accepts(p) || Rejects(p) || GivesUp(p))
            && !(Accepts(p) && Rejects(p)) && !(Accepts(p) && GivesUp(p)) && !(Rejects(p) && GivesUp(p))
  {
    var p := Compile(e).code;
    CompileSober(e);
    SoberWalked(p, MayBeEmpty(e), Nest(e));
    WalkedChecked(p, MayBeEmpty(e), Nest(e));
    ShapedBasics(p);
    hide Compile, Checked, Accepts, Rejects, GivesUp, Walked;
    VerdictSound(p, ENDLESS);
  }

  /** verify accepts every body that cannot be empty by its syntax and in which no more than 200 choices are nested. */
  lemma AcceptsBody(e: Peg)
    requires Written(e) && Compile(e).Code? && !MayBeEmpty(e) && Nest(e) <= 200
    ensures Accepts(Compile(e).code)
  {
    var p := Compile(e).code;
    CompileSober(e);
    SoberWalked(p, MayBeEmpty(e), Nest(e));
    var v, h := TakeWalked(p, MayBeEmpty(e), Nest(e));
    WalkEnds(p, v, h);
  }

  /** It gives up only on bodies in which more choices are nested. */
  lemma GivesUpDeep(e: Peg)
    requires Written(e) && Compile(e).Code? && GivesUp(Compile(e).code)
    ensures Nest(e) > 200
  {
    var p := Compile(e).code;
    CompileSober(e);
    SoberWalked(p, MayBeEmpty(e), Nest(e));
    var v, h := TakeWalked(p, MayBeEmpty(e), Nest(e));
    WalkEnds(p, v, h);
    VerifyEnds(e);
  }

  /** It rejects only bodies that may be empty by their syntax. */
  lemma RejectsEmpty(e: Peg)
    requires Written(e) && Compile(e).Code? && Rejects(Compile(e).code)
    ensures MayBeEmpty(e)
  {
    var p := Compile(e).code;
    CompileSober(e);
    SoberWalked(p, MayBeEmpty(e), Nest(e));
    var v, h := TakeWalked(p, MayBeEmpty(e), Nest(e));
    WalkEnds(p, v, h);
    VerifyEnds(e);
    hide *;
  }
}
