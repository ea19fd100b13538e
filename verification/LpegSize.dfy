/** How large the code of an expression is, and which expressions are built at all (lpeg.c:1043-1052, 1333-1684). */
module LpegSize {
  import opened Basics
  import opened LpegMachine
  import opened LpegSemantics
  import opened LpegBuild
  import opened LpegCorrect
  import opened LpegUnion
  import opened LpegVerify
  import opened LpegSplit
  import opened LpegJumps
  import opened LpegGood
  import opened LpegCompile
  import opened LpegAccept

  // ---------- Bulk ----------

  /** The cells of an instruction, but a count of characters as many as it takes in bytes. */
  function BulkOf(p: Instr): nat {
    if p.IAny? && p.n > 0 then (p.n + 254) / 255 else CellsOf(p)
  }

  function Bulk(p: seq<Instr>): nat {
    if p == [] then 0 else BulkOf(p[0]) + Bulk(p[1..])
  }

  lemma {:induction false} CellsWithin(p: seq<Instr>)
    ensures Cells(p) <= Bulk(p)
    decreases |p|
  {
    if p != [] { CellsWithin(p[1..]); }
  }

  lemma {:induction false} BulkConcat(p: seq<Instr>, q: seq<Instr>)
    ensures Bulk(p + q) == Bulk(p) + Bulk(q)
    decreases |p|
  {
    if p == [] {
      assert p + q == q;
    } else {
      assert (p + q)[1..] == p[1..] + q;
      BulkConcat(p[1..], q);
    }
  }

  lemma {:induction false} BulkSame(p: seq<Instr>, q: seq<Instr>)
    requires |p| == |q| && forall k :: 0 <= k < |p| ==> BulkOf(p[k]) == BulkOf(q[k])
    ensures Bulk(p) == Bulk(q)
    decreases |p|
  {
    if p != [] { BulkSame(p[1..], q[1..]); }
  }

  lemma BulkOne(x: Instr)
    ensures Bulk([x]) == BulkOf(x) && 1 <= BulkOf(x) && (!x.IAny? ==> BulkOf(x) <= 9) && BulkOf(x) == Bulk([x])
  {
    assert [x][1..] == [];
  }

  /** Three parts, with an instruction in the middle that is no 'any' and no set. */
  lemma BulkParts(p: seq<Instr>, x: Instr, q: seq<Instr>)
    requires !x.IAny? && !x.ISet? && !x.ISpan?
    ensures Bulk(p + [x] + q) == Bulk(p) + 1 + Bulk(q)
  {
    BulkOne(x);
    BulkConcat(p, [x]);
    BulkConcat(p + [x], q);
  }

  lemma {:induction false} BulkTimes(p: seq<Instr>, n: nat)
    ensures Bulk(Times(p, n)) == n * Bulk(p)
    decreases n
  {
    if n > 0 {
      BulkTimes(p, n - 1);
      BulkConcat(p, Times(p, n - 1));
      assert n * Bulk(p) == Bulk(p) + (n - 1) * Bulk(p);
    }
  }

  lemma BulkToTest(p: seq<Instr>, off: int)
    requires p != []
    ensures Bulk(ToTest(p, off)) == Bulk(p)
  {
    BulkSame(ToTest(p, off), p);
  }

  lemma BulkChoice(p: seq<Instr>)
    requires p != [] && p[0].IChoice?
    ensures Bulk(OptimizeChoice(p)) == Bulk(p)
  {
    if |p| > 1 && IsCheck(p[1]) {
      var q := OptimizeChoice(p);
      assert BulkOf(q[0]) == BulkOf(p[1]) && BulkOf(q[1]) == BulkOf(p[0]) && q[2..] == p[2..];
      hide BulkOf, OptimizeChoice, Bulk;
      BulkTwo(p);
      BulkTwo(q);
    }
  }

  lemma BulkTwo(p: seq<Instr>)
    requires |p| > 1
    ensures Bulk(p) == BulkOf(p[0]) + BulkOf(p[1]) + Bulk(p[2..])
  {
    assert p[1..][1..] == p[2..];
  }

  lemma {:induction false} BulkAny(n: nat)
    requires n > 0
    ensures Bulk(AnyCode(n)) == (n + 254) / 255
    decreases n
  {
    if n > UCHAR_MAX {
      BulkAny(n - UCHAR_MAX);
      BulkConcat([IAny(UCHAR_MAX, 0)], AnyCode(n - UCHAR_MAX));
      BulkOne(IAny(UCHAR_MAX, 0));
    } else {
      BulkOne(IAny(n, 0));
    }
  }

  lemma BulkOpt(p: seq<Instr>)
    requires Shaped(p)
    ensures Bulk(OptJumps(p)) == Bulk(p)
  {
    BulkSame(OptJumps(p), p);
  }

  // ---------- Alternatives ----------

  /** How many alternatives start with a test and end with a jump: putting the choice back makes each one longer. */
  function TestParts(p: seq<Instr>): nat
    decreases |p|
  {
    var sp := FirstPart(p);
    if sp == 0 then 0 else TestParts(p[sp..]) + if p[sp - 1].ICommit? then 0 else 1
  }

  function Weight(p: seq<Instr>): nat {
    Bulk(p) + TestParts(p)
  }

  lemma FirstPartIs(p: seq<Instr>)
    requires FirstPart(p) > 0
    ensures var sp := FirstPart(p);
            && 2 <= sp <= |p| && p[0].off == sp && (p[sp - 1].IJmp? || p[sp - 1].ICommit?) && p[sp - 1].off == |p| - sp + 1
            && (IsTest(p[0]) || (p[0].IChoice? && p[sp - 1].ICommit?))
  {
  }

  lemma BasicWeight(p1: seq<Instr>, p2: seq<Instr>)
    requires FirstPart(p1) == 0
    ensures Weight(BasicUnion(p1, p2)) <= Weight(p1) + Weight(p2) + 9
  {
    hide FirstPart;
    if ToCharset(p1).IsCharset? && ToCharset(p2).IsCharset? {
      ChecksNotSplit(BasicUnion(p1, p2));
      BulkOne(BasicUnion(p1, p2)[0]);
    } else if Exclusive(ToCharset(p1), ToCharset(p2)) || IsHeadFail(p1) {
      TestPart(p1, p2);
      BulkToTest(p1, |p1| + 1);
      BulkParts(ToTest(p1, |p1| + 1), IJmp(|p2| + 1), p2);
    } else {
      ChoiceFormIs(p1, p2);
      ChoicePart(p1, p2);
      ChoiceBulk(p1, ICommit(|p2| + 1), p2, |p1| + 2);
    }
  }

  lemma ChoiceBulk(p: seq<Instr>, x: Instr, q: seq<Instr>, off: int)
    requires !x.IAny? && !x.ISet? && !x.ISpan?
    ensures Bulk(OptimizeChoice([IChoice(off, 0)] + p + [x] + q)) == Bulk(p) + 2 + Bulk(q)
  {
    var front := [IChoice(off, 0)] + p;
    BulkOne(IChoice(off, 0));
    BulkConcat([IChoice(off, 0)], p);
    BulkParts(front, x, q);
    BulkChoice(front + [x] + q);
  }

  lemma {:induction false} SeparateWeight(p1: seq<Instr>, p2: seq<Instr>)
    ensures Weight(SeparateParts(p1, p2)) <= Weight(p1) + Weight(p2) + 9
    decreases |p1|
  {
    if FirstPart(p1) == 0 {
      BasicWeight(p1, p2);
    } else {
      var sp := FirstPart(p1);
      var rest := p1[sp..];
      var more := SeparateParts(rest, p2);
      SeparateWeight(rest, p2);
      FirstPartIs(p1);
      BulkSplit(p1, sp);
      if p1[sp - 1].ICommit? || !Interfere(p1[0], ToCharset(p2)) {
        KeptWeight(p1, sp, more);
      } else {
        ReopenedWeight(p1, sp, more);
      }
    }
  }

  lemma BulkSplit(p: seq<Instr>, sp: nat)
    requires 0 < sp <= |p| && (p[sp - 1].IJmp? || p[sp - 1].ICommit?)
    ensures Bulk(p) == Bulk(p[..sp - 1]) + 1 + Bulk(p[sp..])
  {
    assert p == p[..sp - 1] + [p[sp - 1]] + p[sp..];
    BulkParts(p[..sp - 1], p[sp - 1], p[sp..]);
  }

  /** The part stays as it is, up to the jump that ends it. */
  lemma KeptWeight(p1: seq<Instr>, sp: nat, more: seq<Instr>)
    requires sp == FirstPart(p1) > 0
    ensures var P := p1[..sp - 1] + [WithOff(p1[sp - 1], |more| + 1)] + more;
            Weight(P) == Bulk(p1[..sp - 1]) + 1 + Weight(more) + if p1[sp - 1].ICommit? then 0 else 1
  {
    FirstPartIs(p1);
    var x := WithOff(p1[sp - 1], |more| + 1);
    var P := p1[..sp - 1] + [x] + more;
    BulkParts(p1[..sp - 1], x, more);
    assert P[0] == p1[0] && P[sp - 1] == x && P[sp..] == more;
    assert FirstPart(P) == sp;
  }

  /** The choice is put back in: one instruction more, and one test part less. */
  lemma ReopenedWeight(p1: seq<Instr>, sp: nat, more: seq<Instr>)
    requires sp == FirstPart(p1) > 0 && !p1[sp - 1].ICommit?
    ensures sp >= 2
    ensures var P := [WithOff(p1[0], p1[0].off + 1), IChoice(sp, 1)] + p1[1..sp - 1] + [ICommit(|more| + 1)] + more;
            Weight(P) == Bulk(p1[..sp - 1]) + 2 + Weight(more)
  {
    FirstPartIs(p1);
    var t, c := WithOff(p1[0], p1[0].off + 1), IChoice(sp, 1);
    var front := [t, c] + p1[1..sp - 1];
    var P := front + [ICommit(|more| + 1)] + more;
    BulkParts(front, ICommit(|more| + 1), more);
    BulkParts([t], c, p1[1..sp - 1]);
    assert [t] + [c] + p1[1..sp - 1] == front;
    assert p1[..sp - 1] == [p1[0]] + p1[1..sp - 1];
    BulkConcat([p1[0]], p1[1..sp - 1]);
    BulkOne(t);
    BulkOne(p1[0]);
    assert P[0] == t && P[sp] == ICommit(|more| + 1) && P[sp + 1..] == more && |P| == sp + 1 + |more|;
    assert FirstPart(P) == sp + 1;
  }

  lemma UnionWeight(p1: seq<Instr>, p2: seq<Instr>)
    ensures Weight(Union(p1, p2)) <= Weight(p1) + Weight(p2) + 9
  {
    SeparateWeight(p1, p2);
    hide Weight, SeparateParts;
  }

  // ---------- The other combinators ----------

  lemma ConcatWeight(p1: seq<Instr>, p2: seq<Instr>)
    requires Shaped(p1) && Shaped(p2)
    ensures Weight(Concat(p1, p2)) <= Weight(p1) + Weight(p2)
  {
    hide FirstPart;
    if StartsWithFail(p1) || p2 == [] || StartsWithFail(p2) || p1 == [] {
    } else if IsSingleAny(p1) && IsSingleAny(p2) {
      assert Fits(p1, 0) && Fits(p2, 0);
      var m, n := p1[0].n, p2[0].n;
      assert p1 == [p1[0]] && p2 == [p2[0]];
      BulkOne(p1[0]);
      BulkOne(p2[0]);
      BulkAny(m + n);
      AnyWhole(m + n);
    } else {
      BulkConcat(p1, p2);
      JoinNotSplit(p1, p2);
    }
  }

  lemma AnyWhole(n: nat)
    requires n > 0
    ensures FirstPart(AnyCode(n)) == 0
  {
    AnyCodeDoes(n);
  }

  lemma DiffWeight(p1: seq<Instr>, p2: seq<Instr>)
    ensures Weight(Diff(p1, p2)) <= Weight(p1) + Weight(p2) + 9
  {
    DiffNotSplit(p1, p2);
    hide FirstPart;
    if ToCharset(p1).IsCharset? && ToCharset(p2).IsCharset? {
      BulkOne(Diff(p1, p2)[0]);
    } else if IsHeadFail(p2) {
      BulkToTest(p2, |p2| + 1);
      BulkParts(ToTest(p2, |p2| + 1), IFail, p1);
    } else {
      ChoiceBulk(p2, IFailTwice, p1, |p2| + 2);
    }
  }

  lemma UnmWeight(p: seq<Instr>)
    ensures Weight(Unm(p)) <= Weight(p) + 9
  {
    DiffWeight([], p);
    BulkOne(IFail);
    assert FirstPart([IFail]) == 0;
  }

  lemma AndWeight(p: seq<Instr>)
    ensures Weight(PattAnd(p)) <= Weight(p) + 3
  {
    AndNotSplit(p);
    if !StartsWithFail(p) && p != [] {
      assert FirstPart(PattAnd(p)) == 0;
      hide FirstPart;
      if ToCharset(p).IsCharset? {
        BulkConcat(p, [IBack(1)]);
        BulkOne(IBack(1));
      } else {
        var front := [IChoice(|p| + 2, 0)] + p;
        BulkOne(IChoice(|p| + 2, 0));
        BulkOne(IFail);
        BulkConcat([IChoice(|p| + 2, 0)], p);
        BulkParts(front, IBackCommit(2), [IFail]);
        assert front + [IBackCommit(2)] + [IFail] == [IChoice(|p| + 2, 0)] + p + [IBackCommit(2), IFail];
      }
    }
  }

  lemma RepeatsBulk(p: seq<Instr>, cs: set<Byte>, n: nat)
    ensures Bulk(RepeatCharset(p, cs, n)) <= (n + 1) * Bulk(p) + 9
    ensures p != [] ==> Bulk(RepeatHeadFail(p, n)) <= (n + 1) * Bulk(p) + 9
    ensures Bulk(Repeats(p, n)) <= (n + 1) * Bulk(p) + 9
  {
    BulkTimes(p, n);
    assert (n + 1) * Bulk(p) == n * Bulk(p) + Bulk(p);
    BulkConcat(Times(p, n), [ISpan(cs)]);
    BulkOne(ISpan(cs));
    BulkParts(Times(p, n), IChoice(|p| + 2, 0), p + [IPartialCommit(-|p|)]);
    BulkParts(p, IPartialCommit(-|p|), []);
    assert p + [IPartialCommit(-|p|)] + [] == p + [IPartialCommit(-|p|)];
    assert Times(p, n) + [IChoice(|p| + 2, 0)] + (p + [IPartialCommit(-|p|)]) == Repeats(p, n);
    if p != [] {
      BulkToTest(p, |p| + 1);
      BulkConcat(Times(p, n), ToTest(p, |p| + 1));
      BulkParts(Times(p, n) + ToTest(p, |p| + 1), IJmp(-|p|), []);
      assert Times(p, n) + ToTest(p, |p| + 1) + [IJmp(-|p|)] + [] == RepeatHeadFail(p, n);
    }
  }

  lemma {:induction false} OptionalBulk(p: seq<Instr>, n: nat, last: int)
    requires n > 0
    ensures Bulk(OptionalBodies(p, n, last)) == n * (Bulk(p) + 1)
    ensures p != [] ==> Bulk(OptionalHeadFail(p, n)) == n * Bulk(p)
    decreases n
  {
    assert n * (Bulk(p) + 1) == (Bulk(p) + 1) + (n - 1) * (Bulk(p) + 1);
    assert n * Bulk(p) == Bulk(p) + (n - 1) * Bulk(p);
    if n > 1 {
      OptionalBulk(p, n - 1, last);
      BulkParts(p, IPartialCommit(1), OptionalBodies(p, n - 1, last));
    } else {
      BulkParts(p, ICommit(last), []);
      assert p + [ICommit(last)] + [] == p + [ICommit(last)];
    }
    if p != [] {
      BulkToTest(p, n * |p|);
      BulkConcat(ToTest(p, n * |p|), OptionalHeadFail(p, n - 1));
    }
  }

  lemma OptionalsWeight(p: seq<Instr>, n: nat)
    requires n > 0
    ensures Bulk(Optionals(p, n)) == 1 + n * (Bulk(p) + 1) && TestParts(Optionals(p, n)) == 0
  {
    var bodies := OptionalBodies(p, n, 1);
    OptionalBulk(p, n, 1);
    BulkOne(IChoice(1 + n * (|p| + 1), 0));
    BulkConcat([IChoice(1 + n * (|p| + 1), 0)], bodies);
    BulkChoice([IChoice(1 + n * (|p| + 1), 0)] + bodies);
    OptionalsAre(p, n);
    OptionalPart(p, n, [], []);
    hide FirstPart, OptionalForm, Optionals;
    assert TestParts([]) == 0 by { NothingToPart(); }
  }

  lemma NothingToPart()
    ensures TestParts([]) == 0
  {
  }

  // ---------- Expressions that are built ----------

  /** No loop body may be empty by its syntax, or has too many choices nested in it. */
  predicate LoopsConsume(e: Peg) {
    match e
    case Seq(a, b) => LoopsConsume(a) && LoopsConsume(b)
    case Or(a, b) => LoopsConsume(a) && LoopsConsume(b)
    case Minus(a, b) => LoopsConsume(a) && LoopsConsume(b)
    case Not(a) => LoopsConsume(a)
    case And(a) => LoopsConsume(a)
    case AtLeast(a, _) => LoopsConsume(a) && !MayBeEmpty(a) && Nest(a) <= 200
    case AtMost(a, _) => LoopsConsume(a)
    case _ => true
  }

  function LoopCells(n: nat, w: nat): nat {
    (n + 1) * w + 9
  }

  function OptionalCells(n: nat, w: nat): nat {
    n * (w + 1) + 1
  }

  lemma LoopCellsMore(n: nat, w: nat)
    ensures w <= LoopCells(n, w) && (n > 0 ==> w <= OptionalCells(n, w))
  {
    ScaleUp(w, 1, n + 1);
    if n > 0 { ScaleUp(w + 1, 1, n); }
  }

  /** How many cells the code of an expression takes at most; a set takes no more than 9. */
  function Size(e: Peg): nat {
    match e
    case Empty => 0
    case Never => 1
    case Any(n) => (n + 254) / 255
    case NotAny(n) => 3 + n / 255
    case Char(_) => 1
    case Set(_) => 9
    case Seq(a, b) => Size(a) + Size(b)
    case Or(a, b) => Size(a) + Size(b) + 9
    case Minus(a, b) => Size(a) + Size(b) + 9
    case Not(a) => Size(a) + 9
    case And(a) => Size(a) + 3
    case AtLeast(a, n) => LoopCells(n, Size(a))
    case AtMost(a, n) => OptionalCells(n, Size(a))
  }

  ghost predicate Light(e: Peg)
    requires Written(e)
  {
    Compile(e).Code? ==> Weight(Compile(e).code) <= Size(e)
  }

  lemma NotAnyWeight(n: nat)
    requires n > 0
    ensures Weight(NotAnyCode(n)) <= 3 + n / 255
  {
    var P := NotAnyCode(n);
    assert FirstPart(P) == 0 by { NotAnyWhole(n); }
    hide FirstPart;
    if n <= UCHAR_MAX {
      assert P == [IAny(n, 2)] + [IFail];
      BulkConcat([IAny(n, 2)], [IFail]);
      BulkOne(IAny(n, 2));
      BulkOne(IFail);
    } else {
      var rest := AnyCode(n - UCHAR_MAX);
      BulkAny(n - UCHAR_MAX);
      BulkOne(IAny(UCHAR_MAX, |rest| + 3));
      BulkParts([IAny(UCHAR_MAX, |rest| + 3)], IChoice(|rest| + 2, UCHAR_MAX), rest);
      BulkParts([IAny(UCHAR_MAX, |rest| + 3)] + [IChoice(|rest| + 2, UCHAR_MAX)] + rest, IFailTwice, []);
      assert P == [IAny(UCHAR_MAX, |rest| + 3)] + [IChoice(|rest| + 2, UCHAR_MAX)] + rest + [IFailTwice] + [];
    }
  }

  lemma NotAnyWhole(n: nat)
    requires n > 0
    ensures FirstPart(NotAnyCode(n)) == 0
  {
  }

  lemma ScaleUp(n: nat, a: nat, b: nat)
    requires a <= b
    ensures n * a <= n * b
  {
  }

  /** The sizes of the loops over p: one of these is the code, or becomes it when its jumps are followed. */
  predicate LoopSizes(p: seq<Instr>, n: nat, most: nat) {
    && (ToCharset(p).IsCharset? ==> Bulk(RepeatCharset(p, ToCharset(p).cs, n)) <= most)
    && (IsHeadFail(p) ==> Bulk(OptJumps(RepeatHeadFail(p, n))) <= most)
    && Bulk(Repeats(p, n)) <= most
  }

  lemma LoopSize(p: seq<Instr>, e: bool, d: nat, n: nat, w: nat)
    requires Sober(p, e, d) && Bulk(p) <= w
    ensures LoopSizes(p, n, LoopCells(n, w))
  {
    if IsHeadFail(p) { RepeatHeadFailSober(p, e, d, n); }
    hide Sober, Shaped, FirstPart, RepeatCharset, RepeatHeadFail, Repeats, OptJumps, ToCharset;
    ScaleUp(n + 1, Bulk(p), w);
    RepeatsBulk(p, if ToCharset(p).IsCharset? then ToCharset(p).cs else {}, n);
    if IsHeadFail(p) { BulkOpt(RepeatHeadFail(p, n)); }
  }

  lemma StarWeight(p: seq<Instr>, e: bool, d: nat, n: nat, w: nat)
    requires Sober(p, e, d) && Star(p, n).Code? && Weight(p) <= w
    ensures Weight(Star(p, n).code) <= LoopCells(n, w)
  {
    LoopSize(p, e, d, n, w);
    StarSober(p, e, d, n);
    StarIs(p, e, d, n, LoopCells(n, w));
    WholeWeight(Star(p, n).code);
    hide *;
  }

  lemma WholeWeight(p: seq<Instr>)
    requires FirstPart(p) == 0
    ensures Weight(p) == Bulk(p)
  {
  }

  lemma StarIs(p: seq<Instr>, e: bool, d: nat, n: nat, most: nat)
    requires Sober(p, e, d) && LoopSizes(p, n, most) && Star(p, n).Code?
    ensures Bulk(Star(p, n).code) <= most
  {
    if !ToCharset(p).IsCharset? && !IsHeadFail(p) {
      EmptyRefused();
      RepeatsSober(p, e, d, n);
      hide Sober, Repeats, OptJumps, FirstPart;
      BulkOpt(Repeats(p, n));
    } else {
      hide Sober, Repeats, RepeatHeadFail, RepeatCharset, OptJumps;
    }
  }

  /** The code of p^-n, whatever its size. */
  function OptionalCode(p: seq<Instr>, n: nat): seq<Instr>
    requires n > 0
  {
    if IsHeadFail(p) then OptionalHeadFail(p, n) else Optionals(p, n)
  }

  lemma OptionalSize(p: seq<Instr>, n: nat, w: nat)
    requires n > 0 && Bulk(p) <= w
    ensures Bulk(OptionalCode(p, n)) <= OptionalCells(n, w)
    ensures !IsHeadFail(p) ==> TestParts(OptionalCode(p, n)) == 0
  {
    ScaleUp(n, Bulk(p) + 1, w + 1);
    ScaleUp(n, Bulk(p), Bulk(p) + 1);
    if IsHeadFail(p) { OptionalBulk(p, n, 1); } else { OptionalsWeight(p, n); }
    hide OptionalHeadFail, Optionals, TestParts, Bulk;
    assert !IsHeadFail(p) ==> OptionalCode(p, n) == Optionals(p, n);
  }

  lemma OptionallyWeight(p: seq<Instr>, e: bool, d: nat, n: nat, w: nat)
    requires Sober(p, e, d) && n > 0 && Optionally(p, n).Code? && Weight(p) <= w
    ensures Weight(Optionally(p, n).code) <= OptionalCells(n, w)
  {
    OptionallySober(p, e, d, n);
    assert Optionally(p, n).code == OptionalCode(p, n);
    if IsHeadFail(p) { WholeWeight(OptionalCode(p, n)); }
    assert Bulk(p) <= w && Weight(OptionalCode(p, n)) == Bulk(OptionalCode(p, n)) + TestParts(OptionalCode(p, n));
    hide *;
    OptionalSize(p, n, w);
  }

  /** The code of an expression is no larger than that. */
  lemma {:induction false} CompileWeight(e: Peg)
    requires Written(e)
    ensures Light(e)
  {
    hide LoopCells, OptionalCells, Sober, Weight, Concat, Union, Diff, Unm, PattAnd, Star, Bounded, Optionally;
    match e {
      case Seq(a, b) => CompileWeight(a); CompileWeight(b); PairWeight(a, b, Concats);
      case Or(a, b) => CompileWeight(a); CompileWeight(b); PairWeight(a, b, Unites);
      case Minus(a, b) => CompileWeight(a); CompileWeight(b); PairWeight(a, b, Differs);
      case Not(a) =>
        CompileWeight(a);
        if Compile(e).Code? { UnmWeight(Compile(a).code); BoundedIs(Unm(Compile(a).code)); }
      case And(a) =>
        CompileWeight(a);
        if Compile(e).Code? { AndWeight(Compile(a).code); BoundedIs(PattAnd(Compile(a).code)); }
      case AtLeast(a, n) =>
        CompileWeight(a);
        CompileSober(a);
        if Compile(e).Code? { StarWeight(Compile(a).code, MayBeEmpty(a), Nest(a), n, Size(a)); }
      case AtMost(a, n) =>
        CompileWeight(a);
        CompileSober(a);
        if Compile(e).Code? { OptionallyWeight(Compile(a).code, MayBeEmpty(a), Nest(a), n, Size(a)); }
      case _ => LeafWeight(e);
    }
  }

  predicate IsLeaf(e: Peg) {
    e.Empty? || e.Never? || e.Any? || e.NotAny? || e.Char? || e.Set?
  }

  lemma LeafWeight(e: Peg)
    requires Written(e) && IsLeaf(e)
    ensures Light(e)
  {
    NothingToPart();
    hide FirstPart, NotAnyCode, AnyCode;
    match e
    case Any(n) => BulkAny(n); AnyWhole(n);
    case NotAny(n) => NotAnyWeight(n);
    case Never => BulkOne(IFail); NotSplitOne(IFail);
    case Char(c) => BulkOne(IChar(c, 0)); NotSplitOne(IChar(c, 0));
    case Set(cs) => BulkOne(ISet(cs, 0)); NotSplitOne(ISet(cs, 0));
    case Empty =>
  }

  lemma NotSplitOne(x: Instr)
    requires IsCheck(x) || x.IFail?
    ensures FirstPart([x]) == 0
  {
  }

  function JoinCells(j: Join): nat {
    if j.Concats? then 0 else 9
  }

  lemma JoinedWeight(p: seq<Instr>, q: seq<Instr>, j: Join)
    requires Shaped(p) && Shaped(q)
    ensures Weight(Joined(p, q, j)) <= Weight(p) + Weight(q) + JoinCells(j)
  {
    hide Weight, Concat, Union, Diff, Shaped;
    match j
    case Concats => ConcatWeight(p, q);
    case Unites => UnionWeight(p, q);
    case Differs => DiffWeight(p, q);
  }

  lemma CompiledShaped(e: Peg)
    requires Written(e) && Compile(e).Code?
    ensures Shaped(Compile(e).code)
  {
    CompileSober(e);
    SoberWalked(Compile(e).code, MayBeEmpty(e), Nest(e));
  }

  lemma PairWeight(a: Peg, b: Peg, j: Join)
    requires Written(a) && Written(b) && Light(a) && Light(b)
    ensures var r := Both(Compile(a), Compile(b), j); r.Code? ==> Weight(r.code) <= Size(a) + Size(b) + JoinCells(j)
  {
    hide Weight, Joined, Bounded, Compile, Size, Shaped, JoinCells;
    if Compile(a).Code? && Compile(b).Code? {
      CompiledShaped(a);
      CompiledShaped(b);
      BoundedIs(Joined(Compile(a).code, Compile(b).code, j));
      JoinedWeight(Compile(a).code, Compile(b).code, j);
    }
  }

  lemma NotTooBig(p: seq<Instr>, w: nat)
    requires Weight(p) <= w < 32756
    ensures Bounded(p) == Code(p)
  {
    CellsWithin(p);
  }

  /** An expression is built if no loop body may be empty, nor has more than 200 choices nested in it, and if it is not too
      large: only such loops, and such sizes, are ever refused. */
  lemma {:induction false} IsBuilt(e: Peg)
    requires Written(e) && LoopsConsume(e) && Size(e) < 32756
    ensures Compile(e).Code?
  {
    hide LoopCells, OptionalCells, Sober, Weight, Concat, Union, Diff, Unm, PattAnd, Star, Bounded, Optionally;
    match e {
      case Seq(a, b) => IsBuilt(a); IsBuilt(b); PairBuilt(a, b, Concats);
      case Or(a, b) => IsBuilt(a); IsBuilt(b); PairBuilt(a, b, Unites);
      case Minus(a, b) => IsBuilt(a); IsBuilt(b); PairBuilt(a, b, Differs);
      case Not(a) => IsBuilt(a); CompileWeight(a); UnmWeight(Compile(a).code); NotTooBig(Unm(Compile(a).code), Size(e));
      case And(a) => IsBuilt(a); CompileWeight(a); AndWeight(Compile(a).code); NotTooBig(PattAnd(Compile(a).code), Size(e));
      case AtLeast(a, n) => LoopCellsMore(n, Size(a)); IsBuilt(a); StarBuilt(a, n);
      case AtMost(a, n) => LoopCellsMore(n, Size(a)); IsBuilt(a); OptionallyBuilt(a, n);
      case Any(n) => LeafCode(e, AnyCode(n));
      case NotAny(n) => LeafCode(e, NotAnyCode(n));
      case _ =>
    }
  }

  lemma LeafCode(e: Peg, p: seq<Instr>)
    requires Written(e) && Size(e) < 32756 && ((e.Any? && p == AnyCode(e.n)) || (e.NotAny? && p == NotAnyCode(e.n)))
    ensures Bounded(p) == Code(p)
  {
    hide FirstPart, AnyCode, NotAnyCode, Bounded;
    if e.Any? {
      BulkAny(e.n);
      AnyWhole(e.n);
    } else {
      NotAnyWeight(e.n);
    }
    NotTooBig(p, Size(e));
  }

  lemma PairBuilt(a: Peg, b: Peg, j: Join)
    requires Written(a) && Written(b) && Compile(a).Code? && Compile(b).Code?
    requires Size(a) + Size(b) + JoinCells(j) < 32756
    ensures Both(Compile(a), Compile(b), j).Code?
  {
    CompileWeight(a);
    CompileWeight(b);
    CompiledShaped(a);
    CompiledShaped(b);
    hide Weight, Joined, Bounded, Compile, Size, Shaped, JoinCells;
    JoinedWeight(Compile(a).code, Compile(b).code, j);
    NotTooBig(Joined(Compile(a).code, Compile(b).code, j), Size(a) + Size(b) + JoinCells(j));
  }

  lemma StarBuilt(a: Peg, n: nat)
    requires Written(a) && Compile(a).Code? && !MayBeEmpty(a) && Nest(a) <= 200 && LoopCells(n, Size(a)) < 32756
    ensures Star(Compile(a).code, n).Code?
  {
    var p := Compile(a).code;
    BulkWithin(a);
    CompileSober(a);
    AcceptsBody(a);
    AcceptedEnds(p);
    hide *;
    LoopSize(p, MayBeEmpty(a), Nest(a), n, Size(a));
    SmallStar(p, n, LoopCells(n, Size(a)));
  }

  lemma SmallStar(p: seq<Instr>, n: nat, most: nat)
    requires LoopSizes(p, n, most) && most < 32756 && Accepts(p) && !GivesUp(p)
    ensures Star(p, n).Code?
  {
    hide OptJumps, Repeats, RepeatHeadFail, RepeatCharset, Accepts, GivesUp, Bulk, Cells;
    CellsWithin(Repeats(p, n));
    if ToCharset(p).IsCharset? { CellsWithin(RepeatCharset(p, ToCharset(p).cs, n)); }
    if IsHeadFail(p) { CellsWithin(OptJumps(RepeatHeadFail(p, n))); }
  }

  lemma AcceptedEnds(p: seq<Instr>)
    requires Accepts(p)
    ensures !GivesUp(p)
  {
    if GivesUp(p) { WalksUnique(p, At(0, []), Back([]), TooDeep); }
  }

  lemma OptionallyBuilt(a: Peg, n: nat)
    requires Written(a) && Compile(a).Code? && n > 0 && OptionalCells(n, Size(a)) < 32756
    ensures Optionally(Compile(a).code, n).Code?
  {
    BulkWithin(a);
    hide *;
    SmallOptional(Compile(a).code, n, Size(a));
  }

  lemma BulkWithin(a: Peg)
    requires Written(a) && Compile(a).Code?
    ensures Bulk(Compile(a).code) <= Size(a)
  {
    CompileWeight(a);
    hide Compile, Size, Bulk, TestParts, Written;
  }

  lemma SmallOptional(p: seq<Instr>, n: nat, w: nat)
    requires n > 0 && Bulk(p) <= w && OptionalCells(n, w) < 32756
    ensures Optionally(p, n).Code?
  {
    var q := OptionalCode(p, n);
    assert Optionally(p, n) == Bounded(q);
    OptionalSize(p, n, w);
    hide *;
    BulkFits(q, OptionalCells(n, w));
  }

  lemma BulkFits(p: seq<Instr>, w: nat)
    requires Bulk(p) <= w < 32756
    ensures Bounded(p) == Code(p)
  {
    CellsWithin(p);
  }

  // ---------- Why an expression is refused ----------

  /** Some loop body of the expression may be empty by its syntax. */
  predicate HasEmptyLoop(e: Peg) {
    match e
    case Seq(a, b) => HasEmptyLoop(a) || HasEmptyLoop(b)
    case Or(a, b) => HasEmptyLoop(a) || HasEmptyLoop(b)
    case Minus(a, b) => HasEmptyLoop(a) || HasEmptyLoop(b)
    case Not(a) => HasEmptyLoop(a)
    case And(a) => HasEmptyLoop(a)
    case AtLeast(a, _) => MayBeEmpty(a) || HasEmptyLoop(a)
    case AtMost(a, _) => HasEmptyLoop(a)
    case _ => false
  }

  /** Some loop body has more than 200 choices nested. */
  predicate HasDeepLoop(e: Peg) {
    match e
    case Seq(a, b) => HasDeepLoop(a) || HasDeepLoop(b)
    case Or(a, b) => HasDeepLoop(a) || HasDeepLoop(b)
    case Minus(a, b) => HasDeepLoop(a) || HasDeepLoop(b)
    case Not(a) => HasDeepLoop(a)
    case And(a) => HasDeepLoop(a)
    case AtLeast(a, _) => Nest(a) > 200 || HasDeepLoop(a)
    case AtMost(a, _) => HasDeepLoop(a)
    case _ => false
  }

  ghost predicate Justified(e: Peg, r: Result) {
    match r
    case Code(_) => true
    case EmptyLoopBody => HasEmptyLoop(e)
    case TooManyPending => HasDeepLoop(e)
    case PatternTooBig => Size(e) >= 32756
  }

  /** Each refusal has the reason it names. */
  lemma {:induction false} RefusalMeans(e: Peg)
    requires Written(e)
    ensures Justified(e, Compile(e))
  {
    hide LoopCells, OptionalCells, Sober, Weight, Concat, Union, Diff, Unm, PattAnd, Star, Bounded, Optionally, Nest, MayBeEmpty;
    match e {
      case Seq(a, b) => RefusalMeans(a); RefusalMeans(b); PairMeans(a, b, Concats);
      case Or(a, b) => RefusalMeans(a); RefusalMeans(b); PairMeans(a, b, Unites);
      case Minus(a, b) => RefusalMeans(a); RefusalMeans(b); PairMeans(a, b, Differs);
      case Not(a) =>
        RefusalMeans(a);
        if Compile(a).Code? {
          CompileWeight(a);
          UnmWeight(Compile(a).code);
          BoundedMeans(Unm(Compile(a).code), Size(e));
        }
      case And(a) =>
        RefusalMeans(a);
        if Compile(a).Code? {
          CompileWeight(a);
          AndWeight(Compile(a).code);
          BoundedMeans(PattAnd(Compile(a).code), Size(e));
        }
      case AtLeast(a, n) =>
        RefusalMeans(a);
        LoopCellsMore(n, Size(a));
        if Compile(a).Code? { StarMeans(a, n); }
      case AtMost(a, n) =>
        RefusalMeans(a);
        LoopCellsMore(n, Size(a));
        if Compile(a).Code? { OptionallyMeans(a, n); }
      case Any(n) => if Size(e) < 32756 { LeafCode(e, AnyCode(n)); } else { BoundedOnly(AnyCode(n)); }
      case NotAny(n) => if Size(e) < 32756 { LeafCode(e, NotAnyCode(n)); } else { BoundedOnly(NotAnyCode(n)); }
      case _ =>
    }
  }

  lemma BoundedOnly(p: seq<Instr>)
    ensures Bounded(p).Code? || Bounded(p).PatternTooBig?
  {
    hide Cells;
  }

  lemma BoundedMeans(p: seq<Instr>, w: nat)
    requires Weight(p) <= w
    ensures Bounded(p).Code? || (Bounded(p).PatternTooBig? && w >= 32756)
  {
    BoundedOnly(p);
    hide Bounded, Weight;
    if w < 32756 { NotTooBig(p, w); }
  }

  lemma PairMeans(a: Peg, b: Peg, j: Join)
    requires Written(a) && Written(b)
    ensures var r := Both(Compile(a), Compile(b), j);
            || (!Compile(a).Code? && r == Compile(a))
            || (!Compile(b).Code? && r == Compile(b))
            || r.Code? || (r.PatternTooBig? && Size(a) + Size(b) + JoinCells(j) >= 32756)
  {
    hide Joined, Bounded, Compile, Size, JoinCells;
    if Compile(a).Code? && Compile(b).Code? {
      BoundedOnly(Joined(Compile(a).code, Compile(b).code, j));
      if Size(a) + Size(b) + JoinCells(j) < 32756 { PairBuilt(a, b, j); }
    }
  }

  lemma StarMeans(a: Peg, n: nat)
    requires Written(a) && Compile(a).Code?
    ensures var r := Star(Compile(a).code, n);
            || r.Code? || (r.PatternTooBig? && LoopCells(n, Size(a)) >= 32756)
            || (r.TooManyPending? && Nest(a) > 200) || (r.EmptyLoopBody? && MayBeEmpty(a))
  {
    var p := Compile(a).code;
    BulkWithin(a);
    CompileSober(a);
    VerifyEnds(a);
    if GivesUp(p) { GivesUpDeep(a); }
    if Rejects(p) { RejectsEmpty(a); }
    hide *;
    LoopSize(p, MayBeEmpty(a), Nest(a), n, Size(a));
    StarEndings(p, n, LoopCells(n, Size(a)));
  }

  lemma StarEndings(p: seq<Instr>, n: nat, most: nat)
    requires LoopSizes(p, n, most)
    ensures var r := Star(p, n);
            || r.Code? || (r.PatternTooBig? && most >= 32756)
            || (r.TooManyPending? && GivesUp(p)) || (r.EmptyLoopBody? && !GivesUp(p) && !Accepts(p))
  {
    hide OptJumps, Repeats, RepeatHeadFail, RepeatCharset, Accepts, GivesUp, Bulk, Cells;
    CellsWithin(Repeats(p, n));
    if ToCharset(p).IsCharset? { CellsWithin(RepeatCharset(p, ToCharset(p).cs, n)); }
    if IsHeadFail(p) { CellsWithin(OptJumps(RepeatHeadFail(p, n))); }
  }

  lemma OptionallyMeans(a: Peg, n: nat)
    requires Written(a) && Compile(a).Code? && n > 0
    ensures var r := Optionally(Compile(a).code, n); r.Code? || (r.PatternTooBig? && OptionalCells(n, Size(a)) >= 32756)
  {
    var p := Compile(a).code;
    OptionalOnly(p, n);
    hide Optionally, Compile, Size, OptionalCells;
    if OptionalCells(n, Size(a)) < 32756 { OptionallyBuilt(a, n); }
  }

  lemma OptionalOnly(p: seq<Instr>, n: nat)
    requires n > 0
    ensures Optionally(p, n).Code? || Optionally(p, n).PatternTooBig?
  {
    hide Bounded, Optionals, OptionalHeadFail;
    if IsHeadFail(p) { BoundedOnly(OptionalHeadFail(p, n)); } else { BoundedOnly(Optionals(p, n)); }
  }

  lemma BoundedFits(p: seq<Instr>)
    ensures Bounded(p).Code? ==> Bounded(p).code == p && Cells(p) < 32756
  {
  }

  lemma SmallFits(x: Instr)
    requires !x.IAny?
    ensures Cells([x]) < 32756
  {
    BulkOne(x);
    CellsWithin([x]);
  }

  lemma StarFits(p: seq<Instr>, e: bool, d: nat, n: nat)
    requires Sober(p, e, d) && Star(p, n).Code?
    ensures Cells(Star(p, n).code) < 32756
  {
    BoundedFits(RepeatCharset(p, if ToCharset(p).IsCharset? then ToCharset(p).cs else {}, n));
    BoundedFits(Repeats(p, n));
    if IsHeadFail(p) { BoundedFits(OptJumps(RepeatHeadFail(p, n))); }
    if !ToCharset(p).IsCharset? && !IsHeadFail(p) {
      EmptyRefused();
      RepeatsSober(p, e, d, n);
      hide Sober, OptJumps, Repeats, Bounded, FirstPart;
      CellsOpt(Repeats(p, n));
    } else {
      hide Sober, OptJumps, Repeats, RepeatHeadFail, RepeatCharset, Bounded;
    }
  }

  /** No pattern has 32756 cells or more. */
  lemma BuiltFits(e: Peg)
    requires Written(e) && Compile(e).Code?
    ensures Cells(Compile(e).code) < 32756
  {
    match e {
      case AtLeast(a, n) =>
        CompileSober(a);
        hide Sober, Star, Cells;
        StarFits(Compile(a).code, MayBeEmpty(a), Nest(a), n);
      case AtMost(a, n) =>
        var p := Compile(a).code;
        if IsHeadFail(p) { BoundedFits(OptionalHeadFail(p, n)); } else { BoundedFits(Optionals(p, n)); }
        hide Cells, Bounded, OptionalHeadFail, Optionals;
      case Never => SmallFits(IFail);
      case Char(c) => SmallFits(IChar(c, 0));
      case Set(cs) => SmallFits(ISet(cs, 0));
      case _ =>
        hide Cells, Joined, Unm, PattAnd, AnyCode, NotAnyCode;
    }
  }

  lemma {:induction false} CellsSame(p: seq<Instr>, q: seq<Instr>)
    requires |p| == |q| && forall k :: 0 <= k < |p| ==> CellsOf(p[k]) == CellsOf(q[k])
    ensures Cells(p) == Cells(q)
    decreases |p|
  {
    if p != [] { CellsSame(p[1..], q[1..]); }
  }

  lemma CellsOpt(p: seq<Instr>)
    requires Shaped(p)
    ensures Cells(OptJumps(p)) == Cells(p)
  {
    CellsSame(OptJumps(p), p);
  }
}
