/** Building patterns: the code that each combinator emits (lpeg.c:829-942, 1055-1104, 1239-1248, 1329-1422, 1460-1658). */
module LpegBuild {
  import opened Basics
  import opened LpegMachine

  const ALL: set<Byte> := set x: Byte | 0 <= x < 256
  const UCHAR_MAX := 255
  const MAXPATTSIZE := 32757

  /** The cells of an instruction with a bitmap of 32 bytes: a cell has 4 bytes, or 8 where a pointer has. */
  type SetSize = n: nat | n == 5 || n == 9 witness 9

  /** Nothing else is known of it. */
  const CHARSETINSTSIZE: SetSize

  // ---------- Looking at code ----------

  predicate StartsWithFail(p: seq<Instr>) {
    p != [] && p[0].IFail?
  }

  /** isany: any single IAny instruction, a test among them. */
  predicate IsSingleAny(p: seq<Instr>) {
    |p| == 1 && p[0].IAny?
  }

  datatype CharsetTag = NoInfo | IsCharset(cs: set<Byte>) | ValidStarts(cs: set<Byte>)

  function FillCharset(p: Instr): set<Byte> {
    match p
    case ISet(cs, _) => cs
    case IChar(c, _) => {c}
    case _ => ALL
  }

  /** tocharset */
  function ToCharset(p: seq<Instr>): CharsetTag {
    if p != [] && IsCheck(p[0]) then
      if |p| == 1 && OpStep(p[0]) == 1 then IsCharset(FillCharset(p[0])) else ValidStarts(FillCharset(p[0]))
    else NoInfo
  }

  /** exclusive */
  predicate Exclusive(a: CharsetTag, b: CharsetTag) {
    !a.NoInfo? && !b.NoInfo? && a.cs !! b.cs
  }

  /** isheadfail: only the first instruction, a check, can fail. */
  predicate IsHeadFail(p: seq<Instr>) {
    p != [] && IsCheck(p[0]) && forall k :: 1 <= k < |p| ==> IsNoFail(p[k])
  }

  /** check2test on the first instruction */
  function ToTest(p: seq<Instr>, off: int): seq<Instr>
    requires p != []
  {
    [WithOff(p[0], off)] + p[1..]
  }

  /** optimizechoice: a check behind the choice moves in front of it, as a test. */
  function OptimizeChoice(p: seq<Instr>): seq<Instr>
    requires p != [] && p[0].IChoice?
  {
    if |p| > 1 && IsCheck(p[1]) then
      [WithOff(p[1], p[0].off), IChoice(p[0].off - 1, OpStep(p[1]))] + p[2..]
    else p
  }

  // ---------- Primitive patterns ----------

  /** any, for n > 0 */
  function AnyCode(n: nat): seq<Instr>
    requires n > 0
  {
    if n > UCHAR_MAX then [IAny(UCHAR_MAX, 0)] + AnyCode(n - UCHAR_MAX) else [IAny(n, 0)]
  }

  /** The pattern of the number -n, for n > 0. */
  function NotAnyCode(n: nat): seq<Instr>
    requires n > 0
  {
    if n <= UCHAR_MAX then [IAny(n, 2), IFail]
    else
      var rest := AnyCode(n - UCHAR_MAX);
      [IAny(UCHAR_MAX, |rest| + 3), IChoice(|rest| + 2, UCHAR_MAX)] + rest + [IFailTwice]
  }

  // ---------- concat, difference, predicates ----------

  /** concat_l */
  function Concat(p1: seq<Instr>, p2: seq<Instr>): seq<Instr> {
    if StartsWithFail(p1) || p2 == [] then p1
    else if StartsWithFail(p2) || p1 == [] then p2
    else if IsSingleAny(p1) && IsSingleAny(p2) && p1[0].n + p2[0].n > 0 then AnyCode(p1[0].n + p2[0].n)
    else p1 + p2
  }

  /** diff_l: p2 must not match, and then p1 is matched. */
  function Diff(p1: seq<Instr>, p2: seq<Instr>): seq<Instr> {
    if ToCharset(p1).IsCharset? && ToCharset(p2).IsCharset? then [ISet(ToCharset(p1).cs - ToCharset(p2).cs, 0)]
    else if IsHeadFail(p2) then ToTest(p2, |p2| + 1) + [IFail] + p1
    else OptimizeChoice([IChoice(|p2| + 2, 0)] + p2 + [IFailTwice] + p1)
  }

  /** unm_l */
  function Unm(p: seq<Instr>): seq<Instr> {
    if StartsWithFail(p) then []
    else if p == [] then [IFail]
    else Diff([], p)
  }

  /** pattand_l */
  function PattAnd(p: seq<Instr>): seq<Instr> {
    if StartsWithFail(p) || p == [] then p
    else if ToCharset(p).IsCharset? then p + [IBack(1)]
    else [IChoice(|p| + 2, 0)] + p + [IBackCommit(2), IFail]
  }

  // ---------- Ordered choice ----------

  /** firstpart: the size of the first alternative of code that is itself a choice; 0 for any other code. */
  function FirstPart(p: seq<Instr>): (sp: nat)
    ensures sp <= |p|
  {
    if p == [] then 0
    else if IsTest(p[0]) then
      var e := p[0].off - 1;
      if 0 <= e < |p| && (p[e].IJmp? || p[e].ICommit?) && e + p[e].off == |p| then e + 1 else 0
    else if p[0].IChoice? then
      var e := p[0].off - 1;
      if 0 <= e < |p| && p[e].ICommit? && e + p[e].off == |p| then e + 1 else 0
    else 0
  }

  /** interfere, for a part that starts with a test: a test can fail, so its set is asked for. */
  predicate Interfere(p: Instr, st2: CharsetTag) {
    if IsNoFail(p) then false
    else
      st2.NoInfo? ||
      match p
      case IChar(c, _) => c in st2.cs
      case ISet(cs, _) => !(st2.cs !! cs)
      case _ => true
  }

  function BasicUnion(p1: seq<Instr>, p2: seq<Instr>): seq<Instr> {
    if ToCharset(p1).IsCharset? && ToCharset(p2).IsCharset? then [ISet(ToCharset(p1).cs + ToCharset(p2).cs, 0)]
    else if Exclusive(ToCharset(p1), ToCharset(p2)) || IsHeadFail(p1) then
      ToTest(p1, |p1| + 1) + [IJmp(|p2| + 1)] + p2
    else OptimizeChoice([IChoice(|p1| + 2, 0)] + p1 + [ICommit(|p2| + 1)] + p2)
  }

  /** separateparts: the new alternative goes behind the last of p1. */
  function SeparateParts(p1: seq<Instr>, p2: seq<Instr>): (p: seq<Instr>)
    decreases |p1|
  {
    var sp := FirstPart(p1);
    if sp == 0 then BasicUnion(p1, p2)
    else
      var rest := SeparateParts(p1[sp..], p2);
      if p1[sp - 1].ICommit? || !Interfere(p1[0], ToCharset(p2)) then
        p1[..sp - 1] + [WithOff(p1[sp - 1], |rest| + 1)] + rest
      else
        [WithOff(p1[0], p1[0].off + 1), IChoice(sp, 1)] + p1[1..sp - 1] + [ICommit(|rest| + 1)] + rest
  }

  /** union_l */
  function Union(p1: seq<Instr>, p2: seq<Instr>): seq<Instr> {
    if StartsWithFail(p1) then p2
    else if StartsWithFail(p2) || p1 == [] then p1
    else SeparateParts(p1, p2)
  }

  // ---------- Repetition ----------

  function Times(p: seq<Instr>, n: nat): seq<Instr> {
    if n == 0 then [] else p + Times(p, n - 1)
  }

  function RepeatCharset(p: seq<Instr>, cs: set<Byte>, n: nat): seq<Instr> {
    Times(p, n) + [ISpan(cs)]
  }

  function RepeatHeadFail(p: seq<Instr>, n: nat): seq<Instr>
    requires p != []
  {
    Times(p, n) + ToTest(p, |p| + 1) + [IJmp(-|p|)]
  }

  function Repeats(p: seq<Instr>, n: nat): seq<Instr> {
    Times(p, n) + [IChoice(|p| + 2, 0)] + p + [IPartialCommit(-|p|)]
  }

  function OptionalHeadFail(p: seq<Instr>, n: nat): seq<Instr>
    requires p != []
  {
    if n == 0 then [] else ToTest(p, n * |p|) + OptionalHeadFail(p, n - 1)
  }

  /** n copies of p; a partial commit behind each but the last, which commits. */
  function OptionalBodies(p: seq<Instr>, n: nat, last: int): seq<Instr>
    requires n > 0
  {
    if n == 1 then p + [ICommit(last)] else p + [IPartialCommit(1)] + OptionalBodies(p, n - 1, last)
  }

  function Optionals(p: seq<Instr>, n: nat): seq<Instr>
    requires n > 0
  {
    OptimizeChoice([IChoice(1 + n * (|p| + 1), 0)] + OptionalBodies(p, n, 1))
  }
}
