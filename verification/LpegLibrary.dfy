/** The library as a program sees it: building a pattern from an expression (lpeg.c:910-942, 1043-1052, 1239-1422,
    1572-1684). */
module LpegLibrary {
  import opened LpegMachine
  import opened LpegSemantics
  import opened LpegBuild
  import opened LpegCorrect
  import opened LpegVerify
  import opened LpegSplit
  import opened LpegCompile
  import opened LpegAccept
  import opened LpegMatch
  import opened LpegPatterns
  /** star_l, for a loop body that is neither a set nor a head-fail pattern. */
  method StarLoop(p1: array<Instr>, n: nat, ghost empty: bool, ghost d: nat) returns (r: Result)
    requires Sober(p1[..], empty, d) && !ToCharset(p1[..]).IsCharset? && !IsHeadFail(p1[..])
    ensures r == Star(p1[..], n)
  {
    var p := RepeatsL(p1, n);
    if Bounded(p[..]).PatternTooBig? { return PatternTooBig; }
    SoberWalked(p1[..], empty, d);
    WalkedChecked(p1[..], empty, d);
    CheckedFinishes(p1[..], ENDLESS);
    VerdictSound(p1[..], ENDLESS);
    hide Sober, Implements, Shaped, LpegVerify.Checked;
    var v := Verify(p1[..]);
    if v.TooManyChoices? { return TooManyPending; }
    if v.MayMatchEmpty? { return EmptyLoopBody; }
    EmptyRefused();
    RepeatsSober(p1[..], empty, d, n);
    OptimizeJumps(p);
    return Code(p[..]);
  }

  method StarL(p1: array<Instr>, n: int, ghost empty: bool, ghost d: nat) returns (r: Result)
    requires Sober(p1[..], empty, d)
    ensures r == if n >= 0 then Star(p1[..], n) else Optionally(p1[..], -n)
  {
    if n >= 0 {
      var st := ToCharset(p1[..]);
      if st.IsCharset? {
        var p := RepeatCharsetL(p1, st.cs, n);
        r := Bounded(p[..]);
      } else if IsHeadFail(p1[..]) {
        var p := RepeatHeadFailL(p1, n);
        RepeatHeadFailSober(p1[..], empty, d, n);
        OptimizeJumps(p);
        r := Bounded(p[..]);
      } else {
        r := StarLoop(p1, n, empty, d);
      }
    } else if IsHeadFail(p1[..]) {
      var p := OptionalHeadFailL(p1, -n);
      r := Bounded(p[..]);
    } else {
      var p := OptionalsL(p1, -n);
      r := Bounded(p[..]);
    }
  }

  method NewCopy(code: seq<Instr>) returns (p: array<Instr>)
    ensures fresh(p) && p[..] == code
  {
    p := NewPatt(|code|);
    var k := CopyPatt(p, 0, code);
    assert p[..] == p[..k];
  }

  function Depth(e: Peg): nat {
    match e
    case Seq(a, b) => 1 + Depth(a) + Depth(b)
    case Or(a, b) => 1 + Depth(a) + Depth(b)
    case Minus(a, b) => 1 + Depth(a) + Depth(b)
    case Not(a) => 1 + Depth(a)
    case And(a) => 1 + Depth(a)
    case AtLeast(a, _) => 1 + Depth(a)
    case AtMost(a, _) => 1 + Depth(a)
    case _ => 0
  }

  /** What a program's expression builds: the parts first, the combinator then. */
  method BuildPattern(e: Peg) returns (r: Result)
    requires Written(e)
    ensures r == Compile(e)
    decreases Depth(e), 1
  {
    match e
    case Empty => r := Code([]);
    case Never => r := Code([IFail]);
    case Char(c) => r := Code([IChar(c, 0)]);
    case Set(cs) => r := Code([ISet(cs, 0)]);
    case Any(n) =>
      var p := NewAny(n);
      r := Bounded(p[..]);
    case NotAny(n) =>
      r := Bounded(NotAnyCode(n));
    case Seq(a, b) => r := BuildPair(a, b, Concats);
    case Or(a, b) => r := BuildPair(a, b, Unites);
    case Minus(a, b) => r := BuildPair(a, b, Differs);
    case Not(a) =>
      r := BuildPattern(a);
      if r.Code? {
        var p := NewCopy(r.code);
        p := UnmL(p);
        r := Bounded(p[..]);
      }
    case And(a) =>
      r := BuildPattern(a);
      if r.Code? {
        var p := NewCopy(r.code);
        p := PattAndL(p);
        r := Bounded(p[..]);
      }
    case AtLeast(a, n) => r := BuildStar(a, n);
    case AtMost(a, n) => r := BuildStar(a, -(n as int));
  }

  method BuildPair(a: Peg, b: Peg, j: Join) returns (r: Result)
    requires Written(a) && Written(b)
    ensures r == Both(Compile(a), Compile(b), j)
    decreases Depth(a) + Depth(b), 2
  {
    hide Joined, Compile, Bounded, Written;
    r := BuildPattern(a);
    if r.Code? {
      var q := BuildPattern(b);
      if !q.Code? { return q; }
      r := JoinPatterns(r.code, q.code, j);
    }
  }

  method JoinPatterns(p: seq<Instr>, q: seq<Instr>, j: Join) returns (r: Result)
    ensures r == Bounded(Joined(p, q, j))
  {
    hide Concat, Union, Diff, Bounded;
    var p1 := NewCopy(p);
    var p2 := NewCopy(q);
    var both;
    match j {
      case Concats => both := ConcatL(p1, p2);
      case Unites => both := UnionL(p1, p2);
      case Differs => both := DiffL(p1, p2);
    }
    r := Bounded(both[..]);
  }

  method BuildStar(a: Peg, n: int) returns (r: Result)
    requires Written(a)
    ensures Compile(a).Code? ==>
              r == if n >= 0 then Star(Compile(a).code, n) else Optionally(Compile(a).code, -n)
    ensures !Compile(a).Code? ==> r == Compile(a)
    decreases Depth(a), 2
  {
    r := BuildPattern(a);
    if r.Code? {
      CompileSober(a);
      var p := NewCopy(r.code);
      r := StarL(p, n, MayBeEmpty(a), Nest(a));
    }
  }
}
