/** What the walk of verify finds in the code of each combinator. */
module LpegChecked {
  import opened Basics
  import opened LpegMachine
  import opened LpegSemantics
  import opened LpegBuild
  import opened LpegCorrect
  import opened LpegChoice
  import opened LpegPredicates
  import opened LpegUnion
  import opened LpegOptional
  import opened LpegVerify

  lemma CheckedSame(p: seq<Instr>, a: Peg, e: Peg)
    requires Checked(p, a) && Same(a, e)
    ensures Checked(p, e)
  {
    hide Sem, WalkDoes, Unsure;
    var through, h := TakeWalk(p, a);
    assert Advances(a) ==> Advances(e);
    assert Tells(p, through, h, e);
  }

  function Max(a: nat, b: nat): nat {
    if a < b then b else a
  }

  /** Nothing is known of a pattern whose code the walk goes through. */
  lemma Through(p: seq<Instr>, e: Peg, h: nat)
    requires WalkDoes(p, true, h) && !IsBackAt(p, 0) && (p != [] ==> !p[|p| - 1].IBackCommit?)
    ensures Checked(p, e)
  {
    assert Tells(p, true, h, e);
  }

  lemma NotThrough(p: seq<Instr>, e: Peg, h: nat)
    requires WalkDoes(p, false, h) && !IsBackAt(p, 0) && (p != [] ==> !p[|p| - 1].IBackCommit?) && Advances(e)
    ensures Checked(p, e)
  {
    assert Tells(p, false, h, e);
  }

  lemma EmptyChecked(e: Peg)
    ensures Checked([], e)
  {
    EmptyWalks();
    Through([], e, 0);
  }

  lemma EmptyWalks()
    ensures WalkDoes([], true, 0)
  {
    ComesRefl([], At(0, []), 0);
  }

  /** Code that starts with a check that nothing follows, or with IFail, stops the walk. */
  lemma StopWalks(p: seq<Instr>)
    requires p != [] && (p[0].IFail? || (IsCheck(p[0]) && !IsBackAt(p, 1)))
    ensures WalkDoes(p, false, 0)
  {
    ComesStep(p, At(0, []), Back([]), 0);
  }

  /** Code that starts with IFail stops the walk, and never matches. */
  lemma FailChecked(p: seq<Instr>, e: Peg)
    requires StartsWithFail(p) && !p[|p| - 1].IBackCommit?
    requires forall s: seq<Byte>, i :: 0 <= i <= |s| ==> !Sem(e, s, i).Ok?
    ensures Checked(p, e)
  {
    hide Sem;
    StopWalks(p);
    NotThrough(p, e, 0);
  }

  lemma CheckChecked(p: Instr, e: Peg)
    requires IsCheck(p) && Advances(e)
    ensures Checked([p], e)
  {
    StopWalks([p]);
    NotThrough([p], e, 0);
  }

  lemma CheckAdvances(p: Instr)
    requires IsCheck(p) && OpStep(p) >= 1
    ensures Advances(CheckPeg(p))
  {
  }

  lemma SeqAdvances(a: Peg, b: Peg)
    requires Advances(a) || Advances(b)
    ensures Advances(Seq(a, b))
  {
    forall s: seq<Byte>, i | 0 <= i <= |s| && Sem(Seq(a, b), s, i).Ok? ensures Sem(Seq(a, b), s, i).j > i {
      assert Sem(a, s, i).Ok?;
      assert Sem(b, s, Sem(a, s, i).j).Ok?;
    }
  }

  lemma ConcatWalks(p1: seq<Instr>, p2: seq<Instr>, v1: bool, v2: bool, h1: nat, h2: nat)
    requires WalkDoes(p1, v1, h1) && WalkDoes(p2, v2, h2) && !IsBackAt(p2, 0) && (p1 != [] ==> !p1[|p1| - 1].IBackCommit?)
    ensures WalkDoes(p1 + p2, v1 && v2, Max(h1, h2))
  {
    var P := p1 + p2;
    var h := Max(h1, h2);
    assert Fenced(P, 0, p1) && Fenced(P, |p1|, p2);
    PieceWalks(P, 0, p1, v1, [], h1);
    if v1 { PieceWalks(P, |p1|, p2, v2, [], h2); }
    hide Comes, Fenced;
    ComesHigher(P, At(0, []), if v1 then At(|p1|, []) else Back([]), h1, h);
    if v1 {
      ComesHigher(P, At(|p1|, []), if v2 then At(|P|, []) else Back([]), h2, h);
      ComesTrans(P, At(0, []), At(|p1|, []), if v2 then At(|P|, []) else Back([]), h);
    }
  }

  lemma ConcatChecked(p1: seq<Instr>, p2: seq<Instr>, a: Peg, b: Peg)
    requires Checked(p1, a) && Checked(p2, b) && p1 != [] && p2 != []
    ensures Checked(p1 + p2, Seq(a, b))
  {
    var P := p1 + p2;
    assert P[0] == p1[0] && P[|P| - 1] == p2[|p2| - 1];
    assert Fenced(P, 0, p1) && Fenced(P, |p1|, p2);
    var v1, h1 := TakeWalk(p1, a);
    var v2, h2 := TakeWalk(p2, b);
    ConcatWalks(p1, p2, v1, v2, h1, h2);
    hide Fenced, Comes, Unsure, AtBlindSpot, Max;
    if Unsure(p1, At(0, [])) {
      PieceUnsure(P, 0, p1, []);
    } else if v1 && Unsure(p2, At(0, [])) {
      PieceUnsure(P, |p1|, p2, []);
      PieceWalks(P, 0, p1, true, [], h1);
      UnsureLater(P, At(0, []), At(|p1|, []), h1);
    } else if !(v1 && v2) {
      hide WalkDoes;
      SeqAdvances(a, b);
    }
    assert Tells(P, v1 && v2, Max(h1, h2), Seq(a, b));
  }

  // ---------- Choices ----------

  /** The walk into a choice: through its body, or to its alternative. */
  lemma GuardedWalks(p: seq<Instr>, L: nat, rest: seq<Instr>, v: bool, h: nat)
    requires WalkDoes(p, v, h) && rest != [] && !IsFixCheckOp(rest[0]) && !rest[0].IBack? && L != 0
    ensures Comes(Guarded(p, L, rest), At(0, []), if v && !Hoisted(p) then At(1 + |p|, [L]) else At(L, []), 1 + h)
  {
    var P := Guarded(p, L, rest);
    GuardedIs(p, L, rest);
    if Hoisted(p) {
      assert P[0] == WithOff(p[0], L) && P[1].IChoice?;
      ComesStep(P, At(0, []), At(L, []), 1 + h);
    } else {
      assert P == [IChoice(L, 0)] + p + rest;
      PlaceOf(P, [IChoice(L, 0)], p, rest);
      assert P[1 + |p|] == rest[0];
      assert Fenced(P, 1, p);
      assert FreeStep(P, At(0, [])) == At(1, [L]);
      PieceWalks(P, 1, p, v, [L], h);
      if v {
        ComesThen(P, At(0, []), At(1, [L]), At(1 + |p|, [L]), 1 + h);
      } else {
        ComesStep(P, Back([L]), At(L, []), 1 + h);
        hide Comes;
        ComesTrans(P, At(1, [L]), Back([L]), At(L, []), 1 + h);
        ComesThen(P, At(0, []), At(1, [L]), At(L, []), 1 + h);
      }
    }
  }

  lemma RestWalks(P: seq<Instr>, L: nat, rest: seq<Instr>, v: bool, h: nat, g: nat)
    requires Comes(P, At(0, []), At(L, []), g) && Fenced(P, L, rest) && L + |rest| == |P| && WalkDoes(rest, v, h)
    ensures WalkDoes(P, v, Max(g, h))
  {
    var e := if v then At(|P|, []) else Back([]);
    PieceWalks(P, L, rest, v, [], h);
    hide Comes, Fenced;
    ComesHigher(P, At(0, []), At(L, []), g, Max(g, h));
    ComesHigher(P, At(L, []), e, h, Max(g, h));
    ComesTrans(P, At(0, []), At(L, []), e, Max(g, h));
  }

  /** A pattern whose code starts with a check, and does not go back at once, consumes. */
  lemma CheckFirst(M: seq<Instr>, a: Peg)
    requires Checked(M, a) && M != [] && IsCheck(M[0]) && !IsBackAt(M, 1)
    ensures Advances(a)
  {
    var v, h := TakeWalk(M, a);
    StopsAtOnce(M);
    if v {
      var n: nat :| FreeExec(M, At(0, []), n) == At(|M|, []) && Low(M, At(0, []), n, h);
      OnlyBack(M, n);
    }
  }

  /** Behind such a check the walk is at 'fail', and then at its end. */
  lemma OnlyBack(M: seq<Instr>, n: nat)
    requires M != [] && IsCheck(M[0]) && !IsBackAt(M, 1)
    ensures var c := FreeExec(M, At(0, []), n); c == At(0, []) || c == Back([]) || c == Lost
  {
    if n > 0 {
      assert FreeExec(M, At(0, []), n) == FreeExec(M, Back([]), n - 1);
      if n > 1 {
        assert FreeExec(M, Back([]), n - 1) == FreeExec(M, Lost, n - 2);
        FreeLost(M, n - 2);
      }
    }
  }

  lemma StopsAtOnce(M: seq<Instr>)
    requires M != [] && IsCheck(M[0]) && !IsBackAt(M, 1)
    ensures !Unsure(M, At(0, []))
  {
    forall n: nat ensures !AtBlindSpot(M, FreeExec(M, At(0, []), n)) {
      OnlyBack(M, n);
    }
  }

  lemma OrAdvances(a: Peg, b: Peg)
    requires Advances(a) && Advances(b)
    ensures Advances(Or(a, b))
  {
    forall s: seq<Byte>, i | 0 <= i <= |s| && Sem(Or(a, b), s, i).Ok? ensures Sem(Or(a, b), s, i).j > i {
      assert Sem(a, s, i).Ok? || Sem(b, s, i).Ok?;
    }
  }

  lemma ChoiceFormEdges(M: seq<Instr>, rest: seq<Instr>)
    requires rest != [] ==> !rest[|rest| - 1].IBackCommit?
    ensures var P := ChoiceForm(M, rest); var L := |M| + 2;
            && |P| == L + |rest| && !IsBackAt(P, 0) && !P[|P| - 1].IBackCommit? && P[L - 1] == ICommit(|rest| + 1)
            && Fenced(P, L, rest)
  {
    var P := ChoiceForm(M, rest);
    var L := |M| + 2;
    GuardedParts(M, ICommit(|rest| + 1), rest);
    if rest != [] { assert P[|P| - 1] == P[L..L + |rest|][|rest| - 1]; }
  }

  /** Through the first alternative, or to the others. */
  lemma ChoiceFormWalks(M: seq<Instr>, rest: seq<Instr>, v: bool, w: bool, h: nat, g: nat)
    requires WalkDoes(M, v, h) && WalkDoes(rest, w, g) && (rest != [] ==> !rest[|rest| - 1].IBackCommit?)
    ensures WalkDoes(ChoiceForm(M, rest), (v && !Hoisted(M)) || w, Max(1 + h, g))
  {
    var P := ChoiceForm(M, rest);
    var L := |M| + 2;
    ChoiceFormEdges(M, rest);
    GuardedWalks(M, L, [ICommit(|rest| + 1)] + rest, v, h);
    if v && !Hoisted(M) {
      ComesStep(P, At(1 + |M|, [L]), At(|P|, []), 1 + h);
      hide Comes, ChoiceForm;
      ComesTrans(P, At(0, []), At(1 + |M|, [L]), At(|P|, []), 1 + h);
      ComesHigher(P, At(0, []), At(|P|, []), 1 + h, Max(1 + h, g));
    } else {
      hide ChoiceForm;
      RestWalks(P, L, rest, w, g, 1 + h);
    }
  }

  lemma ChoiceFormChecked(M: seq<Instr>, rest: seq<Instr>, a: Peg, b: Peg)
    requires Checked(M, a) && Checked(rest, b)
    ensures Checked(ChoiceForm(M, rest), Or(a, b))
  {
    var P := ChoiceForm(M, rest);
    var L := |M| + 2;
    var v, h := TakeWalk(M, a);
    var w, g := TakeWalk(rest, b);
    ChoiceFormEdges(M, rest);
    ChoiceFormWalks(M, rest, v, w, h, g);
    if v && !Hoisted(M) {
      hide WalkDoes, ChoiceForm;
      Through(P, Or(a, b), Max(1 + h, g));
    } else {
      GuardedWalks(M, L, [ICommit(|rest| + 1)] + rest, v, h);
      hide ChoiceForm, WalkDoes;
      ChoiceFormSure(M, a, rest, v, h);
      RestChecked(P, L, rest, a, b, w, g, 1 + h, Max(1 + h, g));
    }
  }

  /** Where the first alternative stops the walk, it consumes. */
  lemma ChoiceFormSure(M: seq<Instr>, a: Peg, rest: seq<Instr>, v: bool, h: nat)
    requires Checked(M, a) && Tells(M, v, h, a) && (v ==> Hoisted(M))
    ensures Unsure(ChoiceForm(M, rest), At(0, [])) || Advances(a)
  {
    var P := ChoiceForm(M, rest);
    GuardedParts(M, ICommit(|rest| + 1), rest);
    if Hoisted(M) && IsBackAt(M, 1) {
      assert P[2] == P[2..2 + |M[1..]|][0] == M[1];
      UnsureNow(P, At(0, []));
    } else if Hoisted(M) {
      CheckFirst(M, a);
    } else if Unsure(M, At(0, [])) {
      assert Fenced(P, 1, M);
      PieceUnsure(P, 1, M, [|M| + 2]);
      ComesStep(P, At(0, []), At(1, [|M| + 2]), 1);
      UnsureLater(P, At(0, []), At(1, [|M| + 2]), 1);
    }
  }

  lemma TestFormEdges(M: seq<Instr>, rest: seq<Instr>)
    requires M != [] && IsCheck(M[0]) && (rest != [] ==> !rest[|rest| - 1].IBackCommit?)
    ensures var P := TestForm(M, rest); var L := |M| + 1;
            && |P| == L + |rest| && !IsBackAt(P, 0) && !P[|P| - 1].IBackCommit? && Fenced(P, L, rest)
            && IsBackAt(P, 1) == IsBackAt(M, 1) && P[0] == WithOff(M[0], L) && P[|M|] == IJmp(|rest| + 1)
  {
    var P := TestForm(M, rest);
    var L := |M| + 1;
    ToTestParts(M, IJmp(|rest| + 1), rest);
    if rest != [] { assert P[|P| - 1] == P[L..L + |rest|][|rest| - 1]; }
    assert |M| > 1 ==> P[1] == P[1..1 + |M[1..]|][0] == M[1];
  }

  /** To the other alternatives, or, where the test is in front of an IBack, on behind it. */
  lemma TestFormWalks(M: seq<Instr>, rest: seq<Instr>, v: bool, w: bool, h: nat, g: nat)
    requires M != [] && IsCheck(M[0]) && WalkDoes(M, v, h) && WalkDoes(rest, w, g)
    requires rest != [] ==> !rest[|rest| - 1].IBackCommit?
    ensures if IsBackAt(M, 1) then WalkDoes(TestForm(M, rest), v, h) else WalkDoes(TestForm(M, rest), w, g)
  {
    var P := TestForm(M, rest);
    TestFormEdges(M, rest);
    if IsBackAt(M, 1) {
      BlindWalks(M, rest, v, h);
    } else {
      hide TestForm;
      ComesStep(P, At(0, []), At(|M| + 1, []), 0);
      RestWalks(P, |M| + 1, rest, w, g, 0);
    }
  }

  lemma TestFormChecked(M: seq<Instr>, rest: seq<Instr>, a: Peg, b: Peg)
    requires M != [] && IsCheck(M[0]) && Checked(M, a) && Checked(rest, b)
    ensures Checked(TestForm(M, rest), Or(a, b))
  {
    var P := TestForm(M, rest);
    var L := |M| + 1;
    var v, h := TakeWalk(M, a);
    var w, g := TakeWalk(rest, b);
    TestFormEdges(M, rest);
    TestFormWalks(M, rest, v, w, h, g);
    hide TestForm, WalkDoes;
    if IsBackAt(M, 1) {
      UnsureNow(P, At(0, []));
      assert Tells(P, v, h, Or(a, b));
    } else {
      ComesStep(P, At(0, []), At(L, []), 0);
      CheckFirst(M, a);
      RestChecked(P, L, rest, a, b, w, g, 0, g);
    }
  }

  /** In front of an IBack a test and a check are the same to the walk. */
  lemma {:induction false} SameWalk(P: seq<Instr>, Q: seq<Instr>, c: Walk, n: nat)
    requires |P| == |Q| > 1 && P[1..] == Q[1..] && IsFixCheckOp(P[0]) && IsFixCheckOp(Q[0]) && IsBackAt(P, 1)
    ensures FreeExec(P, c, n) == FreeExec(Q, c, n)
    decreases n
  {
    if n > 0 {
      assert forall k :: 1 <= k < |P| ==> P[k] == P[1..][k - 1] == Q[1..][k - 1] == Q[k];
      assert FreeStep(P, c) == FreeStep(Q, c);
      SameWalk(P, Q, FreeStep(P, c), n - 1);
    }
  }

  lemma SameComes(P: seq<Instr>, Q: seq<Instr>, c: Walk, d: Walk, h: nat)
    requires |P| == |Q| > 1 && P[1..] == Q[1..] && IsFixCheckOp(P[0]) && IsFixCheckOp(Q[0]) && IsBackAt(P, 1)
    requires Comes(Q, c, d, h)
    ensures Comes(P, c, d, h)
  {
    hide FreeExec;
    var n: nat :| FreeExec(Q, c, n) == d && Low(Q, c, n, h);
    forall k: nat ensures FreeExec(P, c, k) == FreeExec(Q, c, k) { SameWalk(P, Q, c, k); }
    assert Low(P, c, n, h);
  }

  /** The walk goes on behind the test, and does not see the alternatives. */
  lemma BlindWalks(M: seq<Instr>, rest: seq<Instr>, v: bool, h: nat)
    requires M != [] && IsCheck(M[0]) && IsBackAt(M, 1) && WalkDoes(M, v, h)
    ensures WalkDoes(TestForm(M, rest), v, h)
  {
    var P := TestForm(M, rest);
    var x := IJmp(|rest| + 1);
    var Q := M + [x] + rest;
    ToTestParts(M, x, rest);
    assert P[1..] == M[1..] + [x] + rest == Q[1..];
    assert Fenced(Q, 0, M);
    PieceWalks(Q, 0, M, v, [], h);
    SameComes(P, Q, At(0, []), if v then At(|M|, []) else Back([]), h);
    if v {
      ComesStep(P, At(|M|, []), At(|P|, []), h);
      hide Comes;
      ComesTrans(P, At(0, []), At(|M|, []), At(|P|, []), h);
    }
  }

  /** The walk goes to the alternatives behind the first one, which consumes. */
  lemma RestChecked(P: seq<Instr>, L: nat, rest: seq<Instr>, a: Peg, b: Peg, w: bool, g: nat, h: nat, all: nat)
    requires Unsure(P, At(0, [])) || Advances(a)
    requires Tells(rest, w, g, b) && Comes(P, At(0, []), At(L, []), h) && Fenced(P, L, rest) && WalkDoes(P, w, all)
    ensures Tells(P, w, all, Or(a, b))
  {
    hide Fenced, AtBlindSpot, Comes, WalkDoes;
    if Unsure(rest, At(0, [])) {
      PieceUnsure(P, L, rest, []);
      UnsureLater(P, At(0, []), At(L, []), h);
    } else if !w && Advances(a) {
      hide Advances;
      OrAdvances(a, b);
    }
  }

  lemma LooseFormEdges(M: seq<Instr>, rest: seq<Instr>)
    requires M != [] && IsCheck(M[0]) && (rest != [] ==> !rest[|rest| - 1].IBackCommit?)
    ensures var P := LooseForm(M, rest); var L := |M| + 2;
            && |P| == L + |rest| && !IsBackAt(P, 0) && !P[|P| - 1].IBackCommit? && Fenced(P, L, rest)
            && IsBackAt(P, 2) == IsBackAt(M, 1) && P[0] == WithOff(M[0], L) && P[1] == IChoice(|M| + 1, 1)
  {
    var P := LooseForm(M, rest);
    var L := |M| + 2;
    LooseParts(M, rest);
    if rest != [] { assert P[|P| - 1] == P[L..L + |rest|][|rest| - 1]; }
    assert |M| > 1 ==> P[2] == P[2..2 + |M[1..]|][0] == M[1];
  }

  lemma LooseFormWalks(M: seq<Instr>, rest: seq<Instr>, w: bool, g: nat)
    requires M != [] && IsCheck(M[0]) && WalkDoes(rest, w, g) && (rest != [] ==> !rest[|rest| - 1].IBackCommit?)
    ensures WalkDoes(LooseForm(M, rest), w, g)
  {
    var P := LooseForm(M, rest);
    LooseFormEdges(M, rest);
    hide LooseForm;
    ComesStep(P, At(0, []), At(|M| + 2, []), 0);
    RestWalks(P, |M| + 2, rest, w, g, 0);
  }

  lemma LooseFormChecked(M: seq<Instr>, rest: seq<Instr>, a: Peg, b: Peg)
    requires M != [] && IsCheck(M[0]) && Checked(M, a) && Checked(rest, b)
    ensures Checked(LooseForm(M, rest), Or(a, b))
  {
    var P := LooseForm(M, rest);
    var L := |M| + 2;
    var w, g := TakeWalk(rest, b);
    LooseFormEdges(M, rest);
    LooseFormWalks(M, rest, w, g);
    ComesStep(P, At(0, []), At(L, []), 0);
    hide LooseForm, WalkDoes;
    if IsBackAt(M, 1) { UnsureNow(P, At(0, [])); } else { CheckFirst(M, a); }
    RestChecked(P, L, rest, a, b, w, g, 0, g);
  }

  // ---------- Optional repetition ----------

  lemma {:induction false} BodiesWalk(P: seq<Instr>, base: nat, q: seq<Instr>, n: nat, last: int, L: int, v: bool, h: nat)
    requires n > 0 && Embedded(P, base, OptionalBodies(q, n, last)) && WalkDoes(q, v, h) && !IsBackAt(q, 0)
    requires 0 < base && !P[base - 1].IBackCommit?
    ensures Comes(P, At(base, [L]), if v then At(base + n * (|q| + 1) - 1 + last, []) else At(L, []), 1 + h)
    decreases n
  {
    BodiesParts(P, base, q, n, last);
    assert Fenced(P, base, q);
    PieceWalks(P, base, q, v, [L], h);
    if !v {
      ComesStep(P, Back([L]), At(L, []), 1 + h);
      ComesTrans(P, At(base, [L]), Back([L]), At(L, []), 1 + h);
    } else if n == 1 {
      ComesStep(P, At(base + |q|, [L]), At(base + |q| + last, []), 1 + h);
      ComesTrans(P, At(base, [L]), At(base + |q|, [L]), At(base + |q| + last, []), 1 + h);
    } else {
      var d, e := At(base + |q| + 1, [L]), At(base + n * (|q| + 1) - 1 + last, []);
      assert n * (|q| + 1) == (|q| + 1) + (n - 1) * (|q| + 1);
      BodiesWalk(P, base + |q| + 1, q, n - 1, last, L, v, h);
      ComesThen(P, At(base + |q|, [L]), d, e, 1 + h);
      hide Comes;
      ComesTrans(P, At(base, [L]), At(base + |q|, [L]), e, 1 + h);
    }
  }

  lemma OptionalWalks(q: seq<Instr>, n: nat, rest: seq<Instr>, v: bool, h: nat)
    requires n > 0 && Shaped(q) && Shaped(rest) && WalkDoes(q, v, h) && !IsBackAt(q, 0) && WalkDoes(rest, true, 1)
    requires !IsBackAt(rest, 0) && (q != [] ==> !q[|q| - 1].IBackCommit?)
    ensures WalkDoes(OptionalForm(q, n, rest), true, 1 + h)
  {
    var P := OptionalForm(q, n, rest);
    var L := 1 + n * (|q| + 1);
    var after := AfterFirst(q, n, rest);
    OptionalIs(q, n, rest);
    OptionalParts(q, n, rest);
    LastBeforeRest(q, n, rest);
    assert Fenced(P, L, rest);
    assert after != [] && !IsFixCheckOp(after[0]) && !after[0].IBack?;
    GuardedWalks(q, L, after, v, h);
    if v && !Hoisted(q) {
      hide OptionalForm, Guarded, WalkDoes;
      OptionalWalksOn(P, q, n, rest, L, h);
    } else {
      hide OptionalForm, Guarded;
      RestWalks(P, L, rest, true, 1, 1 + h);
    }
  }

  lemma LastBeforeRest(q: seq<Instr>, n: nat, rest: seq<Instr>)
    requires n > 0
    ensures var P := OptionalForm(q, n, rest); n * (|q| + 1) < |P| && P[n * (|q| + 1)] == ICommit(|rest| + 1)
  {
    var P := OptionalForm(q, n, rest);
    var after := AfterFirst(q, n, rest);
    OptionalIs(q, n, rest);
    BodiesWidth(|q|, n);
    LastInAfter(q, n, rest);
    hide OptionalForm, Guarded, AfterFirst, OptionalBodies, Hoisted, WithOff, OpStep;
    var k := n * (|q| + 1) - (1 + |q|);
    assert P[1 + |q|..1 + |q| + |after|][k] == after[k];
  }

  lemma LastInAfter(q: seq<Instr>, n: nat, rest: seq<Instr>)
    requires n > 0
    ensures var after := AfterFirst(q, n, rest); var k := n * (|q| + 1) - (1 + |q|);
            0 <= k < |after| && after[k] == ICommit(|rest| + 1)
  {
    BodiesWidth(|q|, n);
    if n > 1 {
      var bodies := OptionalBodies(q, n - 1, |rest| + 1);
      BodiesLength(q, n - 1, |rest| + 1);
      LastOfBodies(q, n - 1, |rest| + 1);
      hide OptionalBodies;
      assert AfterFirst(q, n, rest)[|bodies|] == bodies[|bodies| - 1];
    }
  }

  lemma {:induction false} LastOfBodies(q: seq<Instr>, n: nat, last: int)
    requires n > 0
    ensures var all := OptionalBodies(q, n, last); all[|all| - 1] == ICommit(last)
    decreases n
  {
    if n > 1 { LastOfBodies(q, n - 1, last); }
  }

  lemma OptionalWalksOn(P: seq<Instr>, q: seq<Instr>, n: nat, rest: seq<Instr>, L: nat, h: nat)
    requires n > 0 && P == OptionalForm(q, n, rest) && L == 1 + n * (|q| + 1) && Shaped(q) && Shaped(rest)
    requires WalkDoes(q, true, h) && !IsBackAt(q, 0) && Comes(P, At(0, []), At(1 + |q|, [L]), 1 + h)
    ensures WalkDoes(P, true, 1 + h)
  {
    OptionalParts(q, n, rest);
    hide OptionalForm, Shaped;
    if n == 1 {
      ComesStep(P, At(1 + |q|, [L]), At(|P|, []), 1 + h);
      hide Comes;
      ComesTrans(P, At(0, []), At(1 + |q|, [L]), At(|P|, []), 1 + h);
    } else {
      assert FreeStep(P, At(1 + |q|, [L])) == At(2 + |q|, [L]);
      BodiesWalk(P, 2 + |q|, q, n - 1, |rest| + 1, L, true, h);
      hide FreeStep;
      ComesThen(P, At(1 + |q|, [L]), At(2 + |q|, [L]), At(|P|, []), 1 + h);
      hide Comes;
      ComesTrans(P, At(0, []), At(1 + |q|, [L]), At(|P|, []), 1 + h);
    }
  }

  /** What follows an optional repetition: nothing, or alternatives that are never tried. */
  ghost predicate EmptyTail(rest: seq<Instr>) {
    rest == [] || exists more :: rest == ChoiceForm([], more)
  }

  lemma EmptyTailWalks(rest: seq<Instr>)
    requires EmptyTail(rest)
    ensures WalkDoes(rest, true, 1) && !IsBackAt(rest, 0)
  {
    if rest == [] {
      ComesRefl([], At(0, []), 1);
    } else {
      var more :| rest == ChoiceForm([], more);
      GuardedParts([], ICommit(|more| + 1), more);
      hide ChoiceForm;
      assert FreeStep(rest, At(0, [])) == At(1, [2]) && FreeStep(rest, At(1, [2])) == At(|rest|, []);
      ComesStep(rest, At(1, [2]), At(|rest|, []), 1);
      ComesThen(rest, At(0, []), At(1, [2]), At(|rest|, []), 1);
    }
  }

  lemma OptionalEdges(q: seq<Instr>, n: nat, rest: seq<Instr>)
    requires n > 0 && Shaped(q) && Shaped(rest) && (rest != [] ==> !rest[|rest| - 1].IBackCommit?)
    ensures var P := OptionalForm(q, n, rest); P != [] && !IsBackAt(P, 0) && !P[|P| - 1].IBackCommit?
  {
    var P := OptionalForm(q, n, rest);
    var L := 1 + n * (|q| + 1);
    OptionalParts(q, n, rest);
    LastBeforeRest(q, n, rest);
    hide OptionalForm, Shaped;
    assert P[|P| - 1] == if rest == [] then ICommit(1) else rest[|rest| - 1] by {
      if rest != [] { assert P[|P| - 1] == P[L..L + |rest|][|rest| - 1]; }
    }
  }

  lemma OptionalFormChecked(q: seq<Instr>, n: nat, rest: seq<Instr>, x: Peg, e: Peg)
    requires n > 0 && Shaped(q) && Shaped(rest) && Checked(q, x) && Checked(rest, Empty) && EmptyTail(rest)
    ensures Checked(OptionalForm(q, n, rest), e)
  {
    hide OptionalForm, Shaped, Unsure, WalkDoes, Advances;
    OptionalEdges(q, n, rest);
    var v, h := TakeWalk(q, x);
    EmptyTailWalks(rest);
    OptionalWalks(q, n, rest, v, h);
    Through(OptionalForm(q, n, rest), e, 1 + h);
  }

  // ---------- Difference and predicates ----------

  lemma DiffTells(P: seq<Instr>, L: nat, p1: seq<Instr>, a: Peg, b: Peg, h: nat, v: bool, g: nat)
    requires Comes(P, At(0, []), At(L, []), h) && Fenced(P, L, p1) && L + |p1| == |P| && Tells(p1, v, g, a)
    ensures Tells(P, v, Max(h, g), Minus(a, b))
  {
    RestWalks(P, L, p1, v, g, h);
    if Unsure(p1, At(0, [])) {
      PieceUnsure(P, L, p1, []);
      UnsureLater(P, At(0, []), At(L, []), h);
    } else if !v {
      hide WalkDoes;
      MinusAdvances(a, b);
    }
  }

  lemma LastOfPiece(P: seq<Instr>, L: nat, p1: seq<Instr>)
    requires Embedded(P, L, p1) && L + |p1| == |P| && p1 != []
    ensures P[|P| - 1] == p1[|p1| - 1]
  {
    assert P[|P| - 1] == P[L..L + |p1|][|p1| - 1];
  }

  lemma MinusAdvances(a: Peg, b: Peg)
    requires Advances(a)
    ensures Advances(Minus(a, b))
  {
    forall s: seq<Byte>, i | 0 <= i <= |s| && Sem(Minus(a, b), s, i).Ok? ensures Sem(Minus(a, b), s, i).j > i {
      assert Sem(b, s, i) == No;
      assert Sem(a, s, i).Ok?;
    }
  }

  /** The walk comes to p1, by the test or through the choice. */
  lemma DiffHeadFailWalks(p1: seq<Instr>, p2: seq<Instr>)
    requires IsHeadFail(p2)
    ensures var P := ToTest(p2, |p2| + 1) + [IFail] + p1; var L := |p2| + 1;
            && |P| == L + |p1| && Fenced(P, L, p1) && !IsBackAt(P, 0) && P[|p2|] == IFail && Comes(P, At(0, []), At(L, []), 0)
  {
    var L := |p2| + 1;
    var P := ToTest(p2, L) + [IFail] + p1;
    ToTestParts(p2, IFail, p1);
    assert !IsBackAt(P, 1) by { if |p2| > 1 { assert P[1] == P[1..1 + |p2[1..]|][0] == p2[1] && IsNoFail(p2[1]); } }
    ComesStep(P, At(0, []), At(L, []), 0);
  }

  lemma DiffChoiceWalks(p1: seq<Instr>, p2: seq<Instr>, v: bool, h: nat)
    requires WalkDoes(p2, v, h)
    ensures var P := Guarded(p2, |p2| + 2, [IFailTwice] + p1); var L := |p2| + 2;
            && |P| == L + |p1| && Embedded(P, L, p1) && !IsBackAt(P, 0) && P[|p2| + 1] == IFailTwice
            && Comes(P, At(0, []), At(L, []), 1 + h)
  {
    var L := |p2| + 2;
    var P := Guarded(p2, L, [IFailTwice] + p1);
    GuardedParts(p2, IFailTwice, p1);
    GuardedWalks(p2, L, [IFailTwice] + p1, v, h);
    if v && !Hoisted(p2) {
      assert FreeStep(P, At(1 + |p2|, [L])) == Back([L]) && FreeStep(P, Back([L])) == At(L, []);
      ComesStep(P, Back([L]), At(L, []), 1 + h);
      ComesThen(P, At(1 + |p2|, [L]), Back([L]), At(L, []), 1 + h);
      hide Comes;
      ComesTrans(P, At(0, []), At(1 + |p2|, [L]), At(L, []), 1 + h);
    }
  }

  lemma DiffHeadFailChecked(p1: seq<Instr>, p2: seq<Instr>, a: Peg, b: Peg)
    requires Checked(p1, a) && IsHeadFail(p2)
    ensures Checked(ToTest(p2, |p2| + 1) + [IFail] + p1, Minus(a, b))
  {
    var L := |p2| + 1;
    var P := ToTest(p2, L) + [IFail] + p1;
    DiffHeadFailWalks(p1, p2);
    var v, g := TakeWalk(p1, a);
    hide ToTest, Comes, WalkDoes;
    DiffTells(P, L, p1, a, b, 0, v, g);
    if p1 != [] { LastOfPiece(P, L, p1); }
  }

  lemma DiffChoiceChecked(p1: seq<Instr>, p2: seq<Instr>, a: Peg, b: Peg)
    requires Checked(p1, a) && Checked(p2, b)
    ensures Checked(Guarded(p2, |p2| + 2, [IFailTwice] + p1), Minus(a, b))
  {
    var L := |p2| + 2;
    var P := Guarded(p2, L, [IFailTwice] + p1);
    var v, h := TakeWalk(p2, b);
    var w, g := TakeWalk(p1, a);
    DiffChoiceWalks(p1, p2, v, h);
    hide Guarded, Comes, WalkDoes;
    DiffTells(P, L, p1, a, b, 1 + h, w, g);
    if p1 != [] { LastOfPiece(P, L, p1); }
  }

  lemma CharsetMinus(p1: seq<Instr>, p2: seq<Instr>, a: Peg, b: Peg, cs: set<Byte>)
    requires ToCharset(p1).IsCharset? && Implements(p1, a)
    ensures Checked([ISet(cs, 0)], Minus(a, b))
  {
    forall s: seq<Byte>, i | 0 <= i <= |s| && Sem(Minus(a, b), s, i).Ok? ensures Sem(Minus(a, b), s, i).j > i {
      assert Sem(b, s, i) == No;
      CharsetSem(p1, a, s, i);
    }
    CheckChecked(ISet(cs, 0), Minus(a, b));
  }

  lemma DiffChecked(p1: seq<Instr>, p2: seq<Instr>, a: Peg, b: Peg)
    requires Checked(p1, a) && Checked(p2, b) && Implements(p1, a)
    ensures Checked(Diff(p1, p2), Minus(a, b))
  {
    if ToCharset(p1).IsCharset? && ToCharset(p2).IsCharset? {
      CharsetMinus(p1, p2, a, b, ToCharset(p1).cs - ToCharset(p2).cs);
    } else if IsHeadFail(p2) {
      DiffHeadFailChecked(p1, p2, a, b);
    } else {
      DiffChoiceChecked(p1, p2, a, b);
      assert [IChoice(|p2| + 2, 0)] + p2 + [IFailTwice] + p1 == [IChoice(|p2| + 2, 0)] + p2 + ([IFailTwice] + p1);
    }
  }

  lemma UnmChecked(p: seq<Instr>, e: Peg)
    requires Checked(p, e) && Implements(p, e)
    ensures Checked(Unm(p), Not(e))
  {
    if StartsWithFail(p) {
      EmptyChecked(Not(e));
    } else if p == [] {
      forall s: seq<Byte>, i | 0 <= i <= |s| ensures !Sem(Not(e), s, i).Ok? {
        NothingMatches(e, s, i);
      }
      FailChecked([IFail], Not(e));
    } else {
      EmptyCode();
      EmptyChecked(Empty);
      DiffChecked([], p, Empty, e);
      forall s: seq<Byte>, i | 0 <= i <= |s| ensures Sem(Not(e), s, i) == Sem(Minus(Empty, e), s, i) {
      }
      CheckedSame(Diff([], p), Minus(Empty, e), Not(e));
    }
  }

  lemma AndChecked(p: seq<Instr>, e: Peg)
    requires Checked(p, e) && Implements(p, e)
    ensures Checked(PattAnd(p), And(e))
  {
    var P := PattAnd(p);
    if StartsWithFail(p) {
      forall s: seq<Byte>, i | 0 <= i <= |s| ensures !Sem(And(e), s, i).Ok? {
        FailAtOnce(p, e, s, i);
      }
      FailChecked(p, And(e));
    } else if p == [] {
      EmptyChecked(And(e));
    } else if ToCharset(p).IsCharset? {
      CharsetAndWalks(p);
      Through(P, And(e), 0);
    } else {
      AndChoiceChecked(p, e);
    }
  }

  lemma CharsetAndWalks(p: seq<Instr>)
    requires ToCharset(p).IsCharset?
    ensures var P := p + [IBack(1)]; WalkDoes(P, true, 0) && !IsBackAt(P, 0) && !P[|P| - 1].IBackCommit?
  {
    var P := p + [IBack(1)];
    assert P[0] == p[0] && P[1] == IBack(1);
    ComesStep(P, At(0, []), At(2, []), 0);
  }

  lemma AndChoiceWalks(p: seq<Instr>, v: bool, h: nat)
    requires WalkDoes(p, v, h)
    ensures var P := [IChoice(|p| + 2, 0)] + p + [IBackCommit(2), IFail];
            WalkDoes(P, true, 1 + h) && !IsBackAt(P, 0) && !P[|P| - 1].IBackCommit?
  {
    var L := |p| + 2;
    var P := [IChoice(L, 0)] + p + [IBackCommit(2), IFail];
    PlaceOf(P, [IChoice(L, 0)], p, [IBackCommit(2), IFail]);
    assert P[|p| + 1] == IBackCommit(2) && P[L] == IFail && |P| == L + 1;
    assert Fenced(P, 1, p);
    PieceWalks(P, 1, p, v, [L], h);
    var c := if v then At(1 + |p|, [L]) else Back([L]);
    if v {
      ComesStep(P, c, At(L + 1, []), 1 + h);
    } else {
      ComesStep(P, At(L, []), At(L + 1, []), 1 + h);
      ComesThen(P, c, At(L, []), At(L + 1, []), 1 + h);
    }
    assert FreeStep(P, At(0, [])) == At(1, [L]);
    hide Comes;
    ComesTrans(P, At(1, [L]), c, At(L + 1, []), 1 + h);
    ComesThen(P, At(0, []), At(1, [L]), At(L + 1, []), 1 + h);
  }

  lemma AndChoiceChecked(p: seq<Instr>, e: Peg)
    requires Checked(p, e)
    ensures Checked([IChoice(|p| + 2, 0)] + p + [IBackCommit(2), IFail], And(e))
  {
    var v, h := TakeWalk(p, e);
    AndChoiceWalks(p, v, h);
    hide WalkDoes;
    Through([IChoice(|p| + 2, 0)] + p + [IBackCommit(2), IFail], And(e), 1 + h);
  }
}
