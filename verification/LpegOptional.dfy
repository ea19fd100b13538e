/** Optional repetition: at most n copies of a pattern, with partial commits (lpeg.c:1635-1658). */
module LpegOptional {
  import opened Basics
  import opened LpegMachine
  import opened LpegSemantics
  import opened LpegBuild
  import opened LpegCorrect
  import opened LpegChoice
  import opened LpegUnion

  lemma {:induction false} AtMostMatches(x: Peg, n: nat, s: seq<Byte>, i: int)
    ensures !SemAtMost(x, n, s, i).No?
    decreases n
  {
    if n > 0 && Sem(x, s, i).Ok? { AtMostMatches(x, n - 1, s, Sem(x, s, i).j); }
  }

  lemma {:induction false} BodiesLength(q: seq<Instr>, n: nat, last: int)
    requires n > 0
    ensures |OptionalBodies(q, n, last)| == n * (|q| + 1)
    decreases n
  {
    if n > 1 {
      BodiesLength(q, n - 1, last);
      assert n * (|q| + 1) == (|q| + 1) + (n - 1) * (|q| + 1);
    }
  }

  /** The parts of the code of n copies that stands at base in P. */
  lemma BodiesParts(P: seq<Instr>, base: nat, q: seq<Instr>, n: nat, last: int)
    requires n > 0 && Embedded(P, base, OptionalBodies(q, n, last))
    ensures Embedded(P, base, q) && base + |q| < |P|
    ensures if n == 1 then P[base + |q|] == ICommit(last)
            else P[base + |q|] == IPartialCommit(1) && Embedded(P, base + |q| + 1, OptionalBodies(q, n - 1, last))
  {
    var all := OptionalBodies(q, n, last);
    var Q := P[base..base + |all|];
    assert Q == all;
    assert P[base..base + |q|] == Q[..|q|] == q;
    assert P[base + |q|] == Q[|q|];
    if n > 1 {
      var tail := OptionalBodies(q, n - 1, last);
      assert all == (q + [IPartialCommit(1)]) + tail;
      assert Q[|q| + 1..] == tail;
      assert P[base + |q| + 1..base + |q| + 1 + |tail|] == Q[|q| + 1..];
    }
  }

  /** The first copy fails, and leads to L; or it matches, and moves the entry on the stack forward. */
  lemma BodiesFirst(P: seq<Instr>, base: nat, q: seq<Instr>, x: Peg, n: nat, last: int, L: int, s: seq<Byte>, i: int)
    requires n > 0 && Embedded(P, base, OptionalBodies(q, n, last)) && Implements(q, x) && 0 <= i <= |s|
    ensures var r := Sem(x, s, i); var c := Run(base, i, [Entry(L, i)]);
            && (r.No? ==> Reaches(P, s, c, Run(L, i, [])))
            && (r.Ok? ==> Reaches(P, s, c, if n == 1 then Run(base + |q| + last, r.j, [])
                                           else Run(base + |q| + 1, r.j, [Entry(L, r.j)])))
  {
    var stk := [Entry(L, i)];
    var c := Run(base, i, stk);
    var r := Sem(x, s, i);
    BodiesParts(P, base, q, n, last);
    ImplementsDoes(q, x, s, i);
    PieceDoes(P, base, q, s, i, r, stk);
    hide Reaches, Implements, Embedded, OptionalBodies, Sem;
    if r.No? {
      assert Step(P, s, Failing(stk)) == Run(L, i, []);
      OneStep(P, s, Failing(stk), Run(L, i, []));
      ReachesTrans(P, s, c, Failing(stk), Run(L, i, []));
    } else if r.Ok? {
      var d := Run(base + |q|, r.j, stk);
      var e := if n == 1 then Run(base + |q| + last, r.j, []) else Run(base + |q| + 1, r.j, [Entry(L, r.j)]);
      OneStep(P, s, d, e);
      ReachesTrans(P, s, c, d, e);
    }
  }

  lemma FirstOfMost(x: Peg, n: nat, s: seq<Byte>, i: int)
    requires n > 0
    ensures SemAtMost(x, n, s, i) ==
            match Sem(x, s, i) { case No => Ok(i) case Loop => Loop case Ok(j) => SemAtMost(x, n - 1, s, j) }
    ensures SemAtMost(x, 0, s, i) == Ok(i)
    ensures Sem(x, s, i).Ok? && 0 <= i <= |s| ==> 0 <= Sem(x, s, i).j <= |s|
  {
  }

  /** Each copy that matches moves the entry on the stack forward; a copy that fails leads to L from there. */
  lemma {:induction false} BodiesRun(P: seq<Instr>, base: nat, q: seq<Instr>, x: Peg, n: nat, last: int, L: int, s: seq<Byte>, i: int)
    requires n > 0 && Embedded(P, base, OptionalBodies(q, n, last)) && Implements(q, x) && 0 <= i <= |s|
    ensures var r := SemAtMost(x, n, s, i); var c := Run(base, i, [Entry(L, i)]);
            r.Ok? ==> || Reaches(P, s, c, Run(base + n * (|q| + 1) - 1 + last, r.j, []))
                      || Reaches(P, s, c, Run(L, r.j, []))
    decreases n
  {
    var r := Sem(x, s, i);
    BodiesParts(P, base, q, n, last);
    BodiesFirst(P, base, q, x, n, last, L, s, i);
    FirstOfMost(x, n, s, i);
    hide Reaches, Implements, Embedded, OptionalBodies, Sem, SemAtMost;
    if r.Ok? && n == 1 {
      assert SemAtMost(x, 0, s, r.j) == Ok(r.j) by { FirstOfMost(x, 1, s, r.j); }
      assert base + n * (|q| + 1) - 1 + last == base + |q| + last;
    } else if r.Ok? {
      BodiesRun(P, base + |q| + 1, q, x, n - 1, last, L, s, r.j);
      BodiesJoin(P, base, q, x, n, last, L, s, i, r.j);
    }
  }

  lemma BodiesJoin(P: seq<Instr>, base: nat, q: seq<Instr>, x: Peg, n: nat, last: int, L: int, s: seq<Byte>, i: int, j: int)
    requires n > 1 && Sem(x, s, i) == Ok(j)
    requires Reaches(P, s, Run(base, i, [Entry(L, i)]), Run(base + |q| + 1, j, [Entry(L, j)]))
    requires var r := SemAtMost(x, n - 1, s, j); var c := Run(base + |q| + 1, j, [Entry(L, j)]);
             r.Ok? ==> || Reaches(P, s, c, Run(base + |q| + 1 + (n - 1) * (|q| + 1) - 1 + last, r.j, []))
                       || Reaches(P, s, c, Run(L, r.j, []))
    ensures var r := SemAtMost(x, n, s, i); var c := Run(base, i, [Entry(L, i)]);
            r.Ok? ==> || Reaches(P, s, c, Run(base + n * (|q| + 1) - 1 + last, r.j, []))
                      || Reaches(P, s, c, Run(L, r.j, []))
  {
    var r := SemAtMost(x, n - 1, s, j);
    assert SemAtMost(x, n, s, i) == r;
    hide Reaches, SemAtMost, Sem;
    assert n * (|q| + 1) == (|q| + 1) + (n - 1) * (|q| + 1);
    if r.Ok? {
      var c, d := Run(base, i, [Entry(L, i)]), Run(base + |q| + 1, j, [Entry(L, j)]);
      var e := base + n * (|q| + 1) - 1 + last;
      if Reaches(P, s, d, Run(L, r.j, [])) {
        ReachesTrans(P, s, c, d, Run(L, r.j, []));
      } else {
        ReachesTrans(P, s, c, d, Run(e, r.j, []));
      }
    }
  }

  /** What follows the first copy. */
  function AfterFirst(q: seq<Instr>, n: nat, rest: seq<Instr>): seq<Instr>
    requires n > 0
  {
    if n == 1 then [ICommit(|rest| + 1)] + rest
    else [IPartialCommit(1)] + OptionalBodies(q, n - 1, |rest| + 1) + rest
  }

  lemma OptionalIs(q: seq<Instr>, n: nat, rest: seq<Instr>)
    requires n > 0
    ensures var P := OptionalForm(q, n, rest); var L := 1 + n * (|q| + 1);
            && P == Guarded(q, L, AfterFirst(q, n, rest)) && |P| == L + |rest| && Embedded(P, L, rest)
            && Embedded(P, 1 + |q|, AfterFirst(q, n, rest))
            && (if Hoisted(q) then Embedded(P, 2, q[1..]) && P[0] == WithOff(q[0], L) && P[1] == IChoice(L - 1, OpStep(q[0]))
                else Embedded(P, 1, q) && P[0] == IChoice(L, 0))
  {
    var L := 1 + n * (|q| + 1);
    var after := AfterFirst(q, n, rest);
    BodiesLength(q, n, |rest| + 1);
    assert [IChoice(L, 0)] + OptionalBodies(q, n, |rest| + 1) + rest == [IChoice(L, 0)] + q + after;
    var P := Guarded(q, L, after);
    GuardedIs(q, L, after);
    GuardedEnd(q, L, after, 0);
    AfterLength(q, n, rest);
    assert after[|after| - |rest|..] == rest;
    EmbeddedEnd(P, 1 + |q|, after, rest);
    if Hoisted(q) {
      assert P == [WithOff(q[0], L), IChoice(L - 1, OpStep(q[0]))] + q[1..] + after;
    }
  }

  lemma AfterLength(q: seq<Instr>, n: nat, rest: seq<Instr>)
    requires n > 0
    ensures |AfterFirst(q, n, rest)| == n * (|q| + 1) - |q| + |rest|
    ensures AfterFirst(q, n, rest)[|AfterFirst(q, n, rest)| - |rest|..] == rest
  {
    if n > 1 {
      BodiesLength(q, n - 1, |rest| + 1);
      assert n * (|q| + 1) == (|q| + 1) + (n - 1) * (|q| + 1);
    }
  }

  lemma EmbeddedEnd(P: seq<Instr>, b: nat, piece: seq<Instr>, rest: seq<Instr>)
    requires Embedded(P, b, piece) && |rest| <= |piece| && piece[|piece| - |rest|..] == rest && b + |piece| == |P|
    ensures Embedded(P, |P| - |rest|, rest)
  {
    assert P[|P| - |rest|..|P|] == P[b..b + |piece|][|piece| - |rest|..];
  }

  lemma OptionalFormDoes(q: seq<Instr>, x: Peg, n: nat, rest: seq<Instr>)
    requires n > 0 && Implements(q, x) && Shaped(q) && Implements(rest, Empty)
    ensures Implements(OptionalForm(q, n, rest), AtMost(x, n))
  {
    var P := OptionalForm(q, n, rest);
    hide OptionalForm, Shaped;
    forall s: seq<Byte>, i | 0 <= i <= |s| ensures Does(P, s, i, Sem(AtMost(x, n), s, i)) {
      var r := SemAtMost(x, n, s, i);
      AtMostMatches(x, n, s, i);
      if r.Ok? {
        OptionalRuns(q, x, n, rest, s, i);
      }
    }
  }

  lemma OptionalRuns(q: seq<Instr>, x: Peg, n: nat, rest: seq<Instr>, s: seq<Byte>, i: int)
    requires n > 0 && Implements(q, x) && Shaped(q) && Implements(rest, Empty) && 0 <= i <= |s|
    requires SemAtMost(x, n, s, i).Ok?
    ensures var P := OptionalForm(q, n, rest);
            Reaches(P, s, Run(0, i, []), Run(|P|, SemAtMost(x, n, s, i).j, []))
  {
    var P := OptionalForm(q, n, rest);
    var L := 1 + n * (|q| + 1);
    var after := AfterFirst(q, n, rest);
    var j := SemAtMost(x, n, s, i).j;
    var c := Run(0, i, []);
    OptionalIs(q, n, rest);
    GuardedDoes(q, x, L, after, s, i);
    AtMostBounds(x, n, s, i);
    var r := Sem(x, s, i);
    assert SemAtMost(x, n, s, i) == match r { case No => Ok(i) case Loop => Loop case Ok(k) => SemAtMost(x, n - 1, s, k) };
    if r.No? {
      RestDoes(P, L, rest, Empty, s, c, i);
    } else {
      OptionalGoesOn(q, x, n, rest, s, i);
      hide OptionalForm, Reaches, Implements, SemAtMost;
      if Reaches(P, s, c, Run(L, j, [])) {
        RestDoes(P, L, rest, Empty, s, c, j);
      }
    }
  }

  lemma AtMostBounds(x: Peg, n: nat, s: seq<Byte>, i: int)
    requires 0 <= i <= |s| && SemAtMost(x, n, s, i).Ok?
    ensures 0 <= SemAtMost(x, n, s, i).j <= |s|
  {
  }

  lemma AfterAt(P: seq<Instr>, q: seq<Instr>, n: nat, rest: seq<Instr>)
    requires n > 0 && Embedded(P, 1 + |q|, AfterFirst(q, n, rest))
    ensures 1 + |q| < |P| && P[1 + |q|] == if n == 1 then ICommit(|rest| + 1) else IPartialCommit(1)
    ensures AfterFirst(q, n, rest) != [] && !IsFixCheckOp(AfterFirst(q, n, rest)[0])
  {
    var after := AfterFirst(q, n, rest);
    assert P[1 + |q|] == P[1 + |q|..1 + |q| + |after|][0] == after[0];
  }

  lemma OptionalFirst(q: seq<Instr>, x: Peg, n: nat, rest: seq<Instr>, s: seq<Byte>, i: int)
    requires n > 0 && Implements(q, x) && Shaped(q) && 0 <= i <= |s| && Sem(x, s, i).Ok?
    ensures var P := OptionalForm(q, n, rest); var L := 1 + n * (|q| + 1);
            && |P| == L + |rest| && 1 + |q| < |P|
            && P[1 + |q|] == (if n == 1 then ICommit(|rest| + 1) else IPartialCommit(1))
            && Reaches(P, s, Run(0, i, []), Run(1 + |q|, Sem(x, s, i).j, [Entry(L, i)]))
  {
    var L := 1 + n * (|q| + 1);
    OptionalIs(q, n, rest);
    AfterAt(OptionalForm(q, n, rest), q, n, rest);
    BodiesWidth(|q|, n);
    hide *;
    GuardedDoes(q, x, L, AfterFirst(q, n, rest), s, i);
  }

  /** The first copy has matched: either the last commit is reached, or what follows the choice. */
  lemma OptionalGoesOn(q: seq<Instr>, x: Peg, n: nat, rest: seq<Instr>, s: seq<Byte>, i: int)
    requires n > 0 && Implements(q, x) && Shaped(q) && 0 <= i <= |s| && Sem(x, s, i).Ok? && SemAtMost(x, n, s, i).Ok?
    ensures var P := OptionalForm(q, n, rest); var j := SemAtMost(x, n, s, i).j;
            || Reaches(P, s, Run(0, i, []), Run(|P|, j, []))
            || Reaches(P, s, Run(0, i, []), Run(1 + n * (|q| + 1), j, []))
  {
    var P := OptionalForm(q, n, rest);
    var L := 1 + n * (|q| + 1);
    var k := Sem(x, s, i).j;
    var c, d := Run(0, i, []), Run(1 + |q|, k, [Entry(L, i)]);
    FirstOfMost(x, n, s, i);
    FirstOfMost(x, 1, s, k);
    hide OptionalForm, Reaches, Implements, Sem, SemAtMost, Shaped;
    OptionalFirst(q, x, n, rest, s, i);
    if n == 1 {
      OneStep(P, s, d, Run(|P|, k, []));
      ReachesTrans(P, s, c, d, Run(|P|, k, []));
    } else {
      var e := Run(2 + |q|, k, [Entry(L, k)]);
      OneStep(P, s, d, e);
      ReachesTrans(P, s, c, d, e);
      OptionalCopies(q, x, n, rest, s, i, k);
    }
  }

  lemma OptionalCopies(q: seq<Instr>, x: Peg, n: nat, rest: seq<Instr>, s: seq<Byte>, i: int, k: int)
    requires n > 1 && Implements(q, x) && 0 <= k <= |s| && SemAtMost(x, n - 1, s, k).Ok?
    requires var L := 1 + n * (|q| + 1);
             Reaches(OptionalForm(q, n, rest), s, Run(0, i, []), Run(2 + |q|, k, [Entry(L, k)]))
    ensures var P := OptionalForm(q, n, rest); var j := SemAtMost(x, n - 1, s, k).j;
            || Reaches(P, s, Run(0, i, []), Run(|P|, j, []))
            || Reaches(P, s, Run(0, i, []), Run(1 + n * (|q| + 1), j, []))
  {
    var P := OptionalForm(q, n, rest);
    var L := 1 + n * (|q| + 1);
    var c, e := Run(0, i, []), Run(2 + |q|, k, [Entry(L, k)]);
    OptionalIs(q, n, rest);
    BodiesInside(P, q, n, rest);
    hide OptionalForm, Reaches, Implements, SemAtMost, Sem;
    BodiesRun(P, 2 + |q|, q, x, n - 1, |rest| + 1, L, s, k);
    var j := SemAtMost(x, n - 1, s, k).j;
    assert 2 + |q| + (n - 1) * (|q| + 1) == L by { assert n * (|q| + 1) == (|q| + 1) + (n - 1) * (|q| + 1); }
    if Reaches(P, s, e, Run(L, j, [])) {
      ReachesTrans(P, s, c, e, Run(L, j, []));
    } else {
      ReachesTrans(P, s, c, e, Run(|P|, j, []));
    }
  }

  lemma BodiesInside(P: seq<Instr>, q: seq<Instr>, n: nat, rest: seq<Instr>)
    requires n > 1 && Embedded(P, 1 + |q|, AfterFirst(q, n, rest))
    ensures Embedded(P, 2 + |q|, OptionalBodies(q, n - 1, |rest| + 1))
  {
    var after := AfterFirst(q, n, rest);
    var bodies := OptionalBodies(q, n - 1, |rest| + 1);
    assert after == [IPartialCommit(1)] + bodies + rest;
    assert P[2 + |q|..2 + |q| + |bodies|] == P[1 + |q|..1 + |q| + |after|][1..1 + |bodies|];
  }

  // ---------- Shape ----------

  /** The instructions of n copies at base keep the rules, if the last commit leads to the end of P. */
  lemma {:induction false} BodiesFit(P: seq<Instr>, base: nat, q: seq<Instr>, n: nat, last: int, k: nat)
    requires n > 0 && Embedded(P, base, OptionalBodies(q, n, last)) && Shaped(q) && base > 0 && last > 0
    requires base + n * (|q| + 1) - 1 + last == |P| && base <= k < base + n * (|q| + 1)
    ensures k < |P| && Fits(P, k)
    decreases n
  {
    BodiesParts(P, base, q, n, last);
    BodiesLength(q, n, last);
    hide Embedded;
    assert n * (|q| + 1) == (|q| + 1) + (n - 1) * (|q| + 1);
    if k < base + |q| {
      hide OptionalBodies;
      PieceFits(P, base, q, k - base);
    } else if n == 1 {
    } else if k == base + |q| {
      BodiesParts(P, base + |q| + 1, q, n - 1, last);
      NextCopy(P, base + |q| + 1, q, n - 1, last);
    } else {
      BodiesFit(P, base + |q| + 1, q, n - 1, last, k);
    }
  }

  lemma NextCopy(P: seq<Instr>, b: nat, q: seq<Instr>, n: nat, last: int)
    requires n > 0 && Embedded(P, b, OptionalBodies(q, n, last)) && Shaped(q)
    ensures b < |P| && !BackJmpAt(P, b)
  {
    BodiesParts(P, b, q, n, last);
    if q != [] {
      assert P[b] == P[b..b + |q|][0];
    }
  }

  lemma BodiesWidth(w: nat, n: nat)
    requires n > 0
    ensures n * (w + 1) == (w + 1) + (n - 1) * (w + 1)
  {
  }

  lemma RestStart(P: seq<Instr>, L: nat, rest: seq<Instr>)
    requires Embedded(P, L, rest) && L + |rest| == |P| && Shaped(rest)
    ensures !BackJmpAt(P, L)
  {
    if rest != [] { assert P[L] == P[L..L + |rest|][0]; }
  }

  lemma CopiesInside(P: seq<Instr>, q: seq<Instr>, n: nat, rest: seq<Instr>)
    requires n > 1 && Embedded(P, 1 + |q|, AfterFirst(q, n, rest)) && Shaped(q)
    ensures Embedded(P, 2 + |q|, OptionalBodies(q, n - 1, |rest| + 1)) && !BackJmpAt(P, 2 + |q|)
  {
    BodiesInside(P, q, n, rest);
    NextCopy(P, 2 + |q|, q, n - 1, |rest| + 1);
  }

  lemma OptionalParts(q: seq<Instr>, n: nat, rest: seq<Instr>)
    requires n > 0 && Shaped(q) && Shaped(rest)
    ensures var P := OptionalForm(q, n, rest); var L := 1 + n * (|q| + 1);
            && |P| == L + |rest| && 2 + |q| <= L && Embedded(P, L, rest) && !BackJmpAt(P, L)
            && (P[1 + |q|] == if n == 1 then ICommit(|rest| + 1) else IPartialCommit(1)) && !BackJmpAt(P, 2 + |q|)
            && (n == 1 ==> L == 2 + |q|)
            && (n > 1 ==> Embedded(P, 2 + |q|, OptionalBodies(q, n - 1, |rest| + 1))
                          && 2 + |q| + (n - 1) * (|q| + 1) == L)
            && (if Hoisted(q) then Embedded(P, 2, q[1..]) && P[0] == WithOff(q[0], L) && P[1] == IChoice(L - 1, OpStep(q[0]))
                else Embedded(P, 1, q) && P[0] == IChoice(L, 0))
  {
    var P := OptionalForm(q, n, rest);
    var L := 1 + n * (|q| + 1);
    OptionalIs(q, n, rest);
    AfterAt(P, q, n, rest);
    BodiesWidth(|q|, n);
    RestStart(P, L, rest);
    if n > 1 { CopiesInside(P, q, n, rest); }
    hide OptionalForm, Guarded, Embedded, Shaped, AfterFirst, OptionalBodies, BackJmpAt, Hoisted, WithOff, OpStep;
  }

  /** The first instruction of a choice with entry L, the choice of a hoisted check, and the end of the first copy. */
  lemma FrontFits(P: seq<Instr>, q: seq<Instr>, n: nat, L: nat, k: nat)
    requires 2 + |q| <= L <= |P| && !BackJmpAt(P, L) && !BackJmpAt(P, 2 + |q|) && Shaped(q)
    requires k == 0 || k == 1 + |q| || (Hoisted(q) && k == 1)
    requires P[1 + |q|].IPartialCommit? || P[1 + |q|].ICommit?
    requires P[1 + |q|].IPartialCommit? ==> P[1 + |q|].off == 1
    requires P[1 + |q|].ICommit? ==> 1 + |q| + P[1 + |q|].off == |P|
    requires if Hoisted(q) then P[0] == WithOff(q[0], L) && P[1] == IChoice(L - 1, OpStep(q[0])) else P[0] == IChoice(L, 0)
    ensures Fits(P, k)
  {
    if q != [] { assert Fits(q, 0); }
  }

  lemma OptionalFits(q: seq<Instr>, n: nat, rest: seq<Instr>, k: nat)
    requires n > 0 && Shaped(q) && Shaped(rest) && k < |OptionalForm(q, n, rest)|
    ensures Fits(OptionalForm(q, n, rest), k)
  {
    hide OptionalForm, Guarded, OptionalBodies, AfterFirst, Embedded, Fits, Shaped;
    var P := OptionalForm(q, n, rest);
    var L := 1 + n * (|q| + 1);
    OptionalParts(q, n, rest);
    if k >= L {
      PieceFits(P, L, rest, k - L);
    } else if k > 1 + |q| {
      BodiesFit(P, 2 + |q|, q, n - 1, |rest| + 1, k);
    } else if k == 0 || k == 1 + |q| || (Hoisted(q) && k == 1) {
      FrontFits(P, q, n, L, k);
    } else if Hoisted(q) {
      TailFits(P, 1, q, k - 1);
    } else {
      PieceFits(P, 1, q, k - 1);
    }
  }

  lemma {:induction false} BodiesJmp(P: seq<Instr>, base: nat, q: seq<Instr>, n: nat, last: int, k: nat)
    requires n > 0 && Embedded(P, base, OptionalBodies(q, n, last)) && Shaped(q)
    requires base <= k < base + n * (|q| + 1) && k < |P| && P[k].IJmp?
    ensures JmpsHaveTests(P)
    decreases n
  {
    BodiesParts(P, base, q, n, last);
    assert n * (|q| + 1) == (|q| + 1) + (n - 1) * (|q| + 1);
    if k < base + |q| {
      hide OptionalBodies;
      TestOf(P, base, q, k - base);
    } else if n > 1 && k > base + |q| {
      BodiesJmp(P, base + |q| + 1, q, n - 1, last, k);
    }
  }

  lemma OptionalJmps(q: seq<Instr>, n: nat, rest: seq<Instr>, k: nat)
    requires n > 0 && Shaped(q) && Shaped(rest) && k < |OptionalForm(q, n, rest)| && OptionalForm(q, n, rest)[k].IJmp?
    ensures JmpsHaveTests(OptionalForm(q, n, rest))
  {
    var P := OptionalForm(q, n, rest);
    var L := 1 + n * (|q| + 1);
    OptionalParts(q, n, rest);
    hide OptionalForm, Guarded, Fits, JmpsHaveTests, Embedded, OptionalBodies;
    if k >= L {
      TestOf(P, L, rest, k - L);
    } else if k > 1 + |q| {
      BodiesJmp(P, 2 + |q|, q, n - 1, |rest| + 1, k);
    } else if Hoisted(q) {
      assert Fits(q, 0);
      HasTest(P, 0);
    } else {
      TestOf(P, 1, q, k - 1);
    }
  }

  lemma OptionalShaped(q: seq<Instr>, n: nat, rest: seq<Instr>)
    requires n > 0 && Shaped(q) && Shaped(rest)
    ensures Shaped(OptionalForm(q, n, rest))
  {
    var P := OptionalForm(q, n, rest);
    hide OptionalForm, Guarded, Fits, JmpsHaveTests, Shaped, Embedded;
    OptionalParts(q, n, rest);
    forall k | 0 <= k < |P| ensures Fits(P, k) {
      OptionalFits(q, n, rest, k);
    }
    if k :| 0 <= k < |P| && P[k].IJmp? {
      OptionalJmps(q, n, rest, k);
    } else {
      NoJmps(P);
    }
    ShapedFrom(P);
  }
}
