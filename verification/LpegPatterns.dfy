/** The combinators at work: new arrays of instructions, into which patterns are copied and changed in place
    (lpeg.c:829-942, 1239-1248, 1329-1422, 1460-1658). */
module LpegPatterns {
  import opened Basics
  import opened LpegMachine
  import opened LpegBuild
  import opened LpegCorrect
  import opened LpegRepeat
  import opened LpegJumps

  // ---------- Moving instructions ----------

  /** b is a with the slice a[lo..lo + e], both ends included, turned round. */
  ghost predicate Turned(a: seq<Instr>, b: seq<Instr>, lo: nat, e: int) {
    && e >= -1 && lo + e < |a| == |b|
    && (forall k :: lo <= k <= lo + e ==> b[k] == a[2 * lo + e - k])
    && (forall k :: 0 <= k < |a| && !(lo <= k <= lo + e) ==> b[k] == a[k])
  }

  /** invert */
  method Invert(p: array<Instr>, lo: nat, e: int)
    requires e >= -1 && lo + e < p.Length
    modifies p
    ensures Turned(old(p[..]), p[..], lo, e)
  {
    var i, j := 0, e;
    while i < j
      invariant 0 <= i && i + j == e && i <= j + 2
      invariant forall k :: 0 <= k < p.Length && !(lo <= k <= lo + e) ==> p[k] == old(p[k])
      invariant forall k :: lo + i <= k <= lo + j ==> p[k] == old(p[k])
      invariant forall k :: lo <= k < lo + i || lo + j < k <= lo + e ==> p[k] == old(p[2 * lo + e - k])
    {
      p[lo + i], p[lo + j] := p[lo + j], p[lo + i];
      i, j := i + 1, j - 1;
    }
  }

  /** Where element k comes from when the slice at lo, of e + 1 elements, moves n places to the left. */
  function Origin(lo: nat, e: nat, n: nat, k: nat): int {
    if k < lo || k > lo + e then k else if k + n <= lo + e then k + n else k + n - e - 1
  }

  /** b is a with the slice a[lo..lo + e], both ends included, moved n places to the left. */
  ghost predicate Rotated(a: seq<Instr>, b: seq<Instr>, lo: nat, e: nat, n: nat) {
    && n <= e && lo + e < |a| == |b|
    && forall k: nat :: k < |a| ==> b[k] == a[Origin(lo, e, n, k)]
  }

  lemma TurnedAt(a: seq<Instr>, b: seq<Instr>, lo: nat, e: int, k: nat)
    requires Turned(a, b, lo, e) && k < |a|
    ensures lo + e < |a| == |b| && b[k] == if lo <= k <= lo + e then a[2 * lo + e - k] else a[k]
  {
  }

  lemma TurnedSize(a: seq<Instr>, b: seq<Instr>, lo: nat, e: int)
    requires Turned(a, b, lo, e)
    ensures lo + e < |a| == |b|
  {
  }

  lemma ThreeTurns(a: seq<Instr>, b: seq<Instr>, c: seq<Instr>, d: seq<Instr>, lo: nat, e: nat, n: nat, k: nat)
    requires n <= e && Turned(a, b, lo, n - 1) && Turned(b, c, lo + n, e - n) && Turned(c, d, lo, e) && k < |a|
    ensures |a| == |d| && lo + e < |a| && d[k] == a[Origin(lo, e, n, k)]
  {
    hide Turned;
    TurnedSize(a, b, lo, n - 1);
    TurnedSize(b, c, lo + n, e - n);
    TurnedSize(c, d, lo, e);
    TurnedAt(c, d, lo, e, k);
    var j := if lo <= k <= lo + e then 2 * lo + e - k else k;
    TurnedAt(b, c, lo + n, e - n, j);
    TurnedAt(a, b, lo, n - 1, if lo + n <= j <= lo + e then 2 * lo + n + e - j else j);
  }

  /** Turning both parts of a slice round, and then the whole, exchanges the parts. */
  lemma TurnsRotate(a: seq<Instr>, b: seq<Instr>, c: seq<Instr>, d: seq<Instr>, lo: nat, e: nat, n: nat)
    requires n <= e && Turned(a, b, lo, n - 1) && Turned(b, c, lo + n, e - n) && Turned(c, d, lo, e)
    ensures Rotated(a, d, lo, e, n)
  {
    hide Turned;
    TurnedSize(a, b, lo, n - 1);
    TurnedSize(b, c, lo + n, e - n);
    TurnedSize(c, d, lo, e);
    forall k: nat | k < |a| ensures d[k] == a[Origin(lo, e, n, k)] {
      ThreeTurns(a, b, c, d, lo, e, n, k);
    }
  }

  /** rotate */
  method Rotate(p: array<Instr>, lo: nat, e: nat, n: nat)
    requires n <= e && lo + e < p.Length
    modifies p
    ensures Rotated(old(p[..]), p[..], lo, e, n)
  {
    hide *;
    ghost var a := p[..];
    Invert(p, lo, n - 1);
    ghost var b := p[..];
    Invert(p, lo + n, e - n);
    ghost var c := p[..];
    Invert(p, lo, e);
    TurnsRotate(a, b, c, p[..], lo, e, n);
  }

  lemma Swapped(a: seq<Instr>, b: seq<Instr>, lo: nat)
    requires Rotated(a, b, lo, 1, 1)
    ensures b == a[..lo] + [a[lo + 1], a[lo]] + a[lo + 2..]
  {
  }

  /** optimizechoice, on the code from lo on. */
  method OptimizeChoiceAt(p: array<Instr>, lo: nat)
    requires lo < p.Length && p[lo].IChoice?
    modifies p
    ensures p[..] == old(p[..lo]) + OptimizeChoice(old(p[lo..]))
  {
    ghost var a := p[..];
    if lo + 1 < p.Length && IsCheck(p[lo + 1]) {
      Rotate(p, lo, 1, 1);
      Swapped(a, p[..], lo);
      HoistedCheck(a, lo);
      assert p[lo] == a[lo + 1] && p[lo + 1] == a[lo];
      ghost var b := p[..];
      hide OptimizeChoice, Rotated;
      p[lo + 1] := IChoice(p[lo + 1].off, OpStep(p[lo]));
      p[lo] := WithOff(p[lo], p[lo + 1].off);
      p[lo + 1] := WithOff(p[lo + 1], p[lo + 1].off - 1);
      assert p[..] == b[lo := p[lo]][lo + 1 := p[lo + 1]];
    } else {
      assert a == a[..lo] + a[lo..];
    }
  }

  lemma HoistedCheck(a: seq<Instr>, lo: nat)
    requires lo + 1 < |a| && a[lo].IChoice? && IsCheck(a[lo + 1])
    ensures a[..lo] + OptimizeChoice(a[lo..]) ==
            (a[..lo] + [a[lo + 1], a[lo]] + a[lo + 2..])
              [lo := WithOff(a[lo + 1], a[lo].off)][lo + 1 := IChoice(a[lo].off - 1, OpStep(a[lo + 1]))]
  {
    assert a[lo..][2..] == a[lo + 2..];
  }

  // ---------- optimizejumps ----------

  /** The code when optimizejumps has come to instruction n. */
  ghost predicate Partly(code: seq<Instr>, q: seq<Instr>, n: nat) {
    n <= |code| == |q| && (forall k :: 0 <= k < n ==> q[k] == Retargeted(code, k)) && forall k :: n <= k < |code| ==> q[k] == code[k]
  }

  lemma PartlyJump(code: seq<Instr>, q: seq<Instr>, n: nat, k: nat)
    requires Shaped(code) && Partly(code, q, n) && k < |code| && q[k].IJmp?
    ensures code[k].IJmp? && (q[k].off > 0 <==> code[k].off > 0)
    ensures 0 <= k + q[k].off <= |code|
    ensures q[k].off <= 0 ==> q[k].off == code[k].off && k + q[k].off < |code| && !q[k + q[k].off].IJmp?
    ensures q[k].off > 0 ==> Target(code, k + q[k].off) == Target(code, k)
  {
    assert Fits(code, k);
    var t := k + code[k].off;
    TargetInside(code, t);
    if q[k].off != code[k].off {
      assert Target(code, Target(code, t)) == Target(code, t);
    }
  }

  /** The ends of the chains stay the same. */
  lemma {:induction false} PartlyTarget(code: seq<Instr>, q: seq<Instr>, n: nat, i: int)
    requires Shaped(code) && Partly(code, q, n) && 0 <= i <= |code|
    ensures Target(q, i) == Target(code, i)
    decreases |code| - i
  {
    if i < |code| && q[i].IJmp? {
      PartlyJump(code, q, n, i);
      if q[i].off > 0 { PartlyTarget(code, q, n, i + q[i].off); }
    }
  }

  /** target */
  method FollowJumps(p: array<Instr>, ghost code: seq<Instr>, ghost n: nat, start: int) returns (i: int)
    requires Shaped(code) && Partly(code, p[..], n) && 0 <= start <= p.Length
    ensures i == Target(code, start)
  {
    hide Shaped, Partly, Target;
    ghost var q := p[..];
    assert |q| == |code| by { PartlySize(code, q, n); }
    i := start;
    while i < p.Length && p[i].IJmp?
      invariant 0 <= i <= p.Length && Target(q, i) == Target(q, start)
      decreases if i < p.Length && p[i].IJmp? then (if p[i].off > 0 then p.Length - i + 1 else 1) else 0
    {
      PartlyJump(code, q, n, i);
      TargetStep(q, i);
      i := i + p[i].off;
    }
    TargetStep(q, i);
    PartlyTarget(code, q, n, start);
  }

  lemma PartlySize(code: seq<Instr>, q: seq<Instr>, n: nat)
    requires Partly(code, q, n)
    ensures |q| == |code|
  {
  }

  lemma TargetStep(code: seq<Instr>, i: int)
    requires 0 <= i <= |code|
    ensures i < |code| && code[i].IJmp? && code[i].off > 0 ==> Target(code, i) == Target(code, i + code[i].off)
    ensures i < |code| && code[i].IJmp? && code[i].off <= 0 && 0 <= i + code[i].off && !code[i + code[i].off].IJmp? ==>
              Target(code, i) == Target(code, i + code[i].off)
    ensures i == |code| || !code[i].IJmp? ==> Target(code, i) == i
  {
  }

  /** optimizejumps: the chains are followed in code of which a part has been changed already. */
  method OptimizeJumps(p: array<Instr>)
    requires Shaped(p[..])
    modifies p
    ensures p[..] == OptJumps(old(p[..]))
  {
    ghost var code := p[..];
    hide Shaped, Partly, Retargeted;
    PartlyStart(code);
    for i := 0 to p.Length
      invariant Partly(code, p[..], i)
    {
      ghost var q := p[..];
      PartlyNext(code, q, i);
      if IsJump(p[i]) {
        JumpInside(code, i);
        var t := FollowJumps(p, code, i, i + p[i].off);
        p[i] := WithOff(p[i], t - i);
        assert p[..] == q[i := WithOff(code[i], t - i)];
      }
    }
    PartlyEnd(code, p[..]);
  }

  lemma PartlyStart(code: seq<Instr>)
    ensures Partly(code, code, 0)
  {
  }

  lemma PartlyNext(code: seq<Instr>, q: seq<Instr>, n: nat)
    requires Partly(code, q, n) && n < |code|
    ensures |q| == |code| && q[n] == code[n]
    ensures if IsJump(code[n]) then Partly(code, q[n := WithOff(code[n], Target(code, n + code[n].off) - n)], n + 1)
            else Partly(code, q, n + 1)
  {
  }

  lemma PartlyEnd(code: seq<Instr>, q: seq<Instr>)
    requires Partly(code, q, |code|)
    ensures q == OptJumps(code)
  {
  }

  lemma JumpInside(code: seq<Instr>, k: nat)
    requires Shaped(code) && k < |code| && IsJump(code[k])
    ensures 0 <= k + code[k].off <= |code|
  {
    assert Fits(code, k);
  }

  // ---------- New patterns ----------

  method NewPatt(n: nat) returns (p: array<Instr>)
    ensures fresh(p) && p.Length == n
  {
    p := new Instr[n](_ => IFail);
  }

  /** copypatt: the instructions of a finished pattern, which never changes again, go to a new one. */
  method CopyPatt(dst: array<Instr>, at: nat, src: seq<Instr>) returns (end: nat)
    requires at + |src| <= dst.Length
    modifies dst
    ensures end == at + |src| && dst[..end] == old(dst[..at]) + src && dst[end..] == old(dst[end..])
  {
    for i := 0 to |src|
      invariant dst[..at + i] == old(dst[..at]) + src[..i]
      invariant dst[at + i..] == old(dst[at + i..])
    {
      dst[at + i] := src[i];
    }
    return at + |src|;
  }

  /** addpatt: a whole pattern. */
  method AddPatt(dst: array<Instr>, at: nat, src: array<Instr>) returns (end: nat)
    requires dst != src && at + src.Length <= dst.Length
    modifies dst
    ensures end == at + src.Length && dst[..end] == old(dst[..at]) + src[..] && dst[end..] == old(dst[end..])
  {
    end := CopyPatt(dst, at, src[..]);
  }

  /** setinst */
  method SetInst(p: array<Instr>, k: nat, x: Instr) returns (next: nat)
    requires k < p.Length
    modifies p
    ensures next == k + 1 && p[..next] == old(p[..k]) + [x] && p[next..] == old(p[next..])
  {
    p[k] := x;
    return k + 1;
  }

  /** any */
  method NewAny(n: nat) returns (p: array<Instr>)
    requires n > 0
    ensures fresh(p) && p[..] == AnyCode(n)
  {
    AnyCodeLength(n);
    p := NewPatt((n - 1) / UCHAR_MAX + 1);
    var k: nat, left := 0, n;
    while left > UCHAR_MAX
      invariant 0 < left <= n && k + |AnyCode(left)| == p.Length
      invariant p[..k] + AnyCode(left) == AnyCode(n)
    {
      k := SetInst(p, k, IAny(UCHAR_MAX, 0));
      left := left - UCHAR_MAX;
    }
    k := SetInst(p, k, IAny(left, 0));
  }

  lemma {:induction false} AnyCodeLength(n: nat)
    requires n > 0
    ensures |AnyCode(n)| == (n - 1) / UCHAR_MAX + 1
    decreases n
  {
    if n > UCHAR_MAX { AnyCodeLength(n - UCHAR_MAX); }
  }

  // ---------- concat_l, diff_l, unm_l and pattand_l ----------

  method ConcatL(p1: array<Instr>, p2: array<Instr>) returns (p: array<Instr>)
    ensures p == p1 || p == p2 || fresh(p)
    ensures p[..] == Concat(p1[..], p2[..])
  {
    if StartsWithFail(p1[..]) || p2.Length == 0 { return p1; }
    if StartsWithFail(p2[..]) || p1.Length == 0 { return p2; }
    if IsSingleAny(p1[..]) && IsSingleAny(p2[..]) && p1[0].n + p2[0].n > 0 {
      p := NewAny(p1[0].n + p2[0].n);
    } else {
      p := NewPatt(p1.Length + p2.Length);
      var k := AddPatt(p, 0, p1);
      k := AddPatt(p, k, p2);
      assert p[..] == p[..k];
    }
  }

  method DiffL(p1: array<Instr>, p2: array<Instr>) returns (p: array<Instr>)
    ensures fresh(p) && p[..] == Diff(p1[..], p2[..])
  {
    var st1, st2 := ToCharset(p1[..]), ToCharset(p2[..]);
    if st1.IsCharset? && st2.IsCharset? {
      p := NewPatt(1);
      p[0] := ISet(st1.cs - st2.cs, 0);
    } else if IsHeadFail(p2[..]) {
      p := DiffTest(p1, p2);
    } else {
      p := DiffChoice(p1, p2);
    }
  }

  /** test p2 L1; fail; L1: p1 */
  method DiffTest(p1: array<Instr>, p2: array<Instr>) returns (p: array<Instr>)
    requires p2.Length > 0
    ensures fresh(p) && p[..] == ToTest(p2[..], p2.Length + 1) + [IFail] + p1[..]
  {
    p := NewPatt(p2.Length + 1 + p1.Length);
    var k := AddPatt(p, 0, p2);
    p[0] := WithOff(p[0], p2.Length + 1);
    assert p[..k] == ToTest(p2[..], p2.Length + 1);
    k := SetInst(p, k, IFail);
    k := AddPatt(p, k, p1);
    assert p[..] == p[..k];
  }

  /** choice L1; p2; fail twice; L1: p1 */
  method DiffChoice(p1: array<Instr>, p2: array<Instr>) returns (p: array<Instr>)
    ensures fresh(p) && p[..] == OptimizeChoice([IChoice(p2.Length + 2, 0)] + p2[..] + [IFailTwice] + p1[..])
  {
    p := NewPatt(1 + p2.Length + 1 + p1.Length);
    var k := SetInst(p, 0, IChoice(1 + p2.Length + 1, 0));
    k := AddPatt(p, k, p2);
    k := SetInst(p, k, IFailTwice);
    k := AddPatt(p, k, p1);
    assert p[0..] == p[..k] == [IChoice(p2.Length + 2, 0)] + p2[..] + [IFailTwice] + p1[..];
    hide OptimizeChoice;
    OptimizeChoiceAt(p, 0);
    assert p[0..] == p[..];
  }

  method UnmL(p: array<Instr>) returns (r: array<Instr>)
    ensures fresh(r) && r[..] == Unm(p[..])
  {
    if StartsWithFail(p[..]) {
      r := NewPatt(0);
    } else if p.Length == 0 {
      r := NewPatt(1);
      r[0] := IFail;
    } else {
      var empty := NewPatt(0);
      r := DiffL(empty, p);
    }
  }

  method PattAndL(p1: array<Instr>) returns (p: array<Instr>)
    ensures (p == p1 || fresh(p)) && p[..] == PattAnd(p1[..])
  {
    if StartsWithFail(p1[..]) || p1.Length == 0 { return p1; }
    if ToCharset(p1[..]).IsCharset? {
      p := NewPatt(p1.Length + 1);
      var k := AddPatt(p, 0, p1);
      k := SetInst(p, k, IBack(1));
      assert p[..] == p[..k] == p1[..] + [IBack(1)];
    } else {
      p := AndChoiceL(p1);
    }
  }

  /** choice L1; p1; back commit L2; L1: fail; L2: */
  method AndChoiceL(p1: array<Instr>) returns (p: array<Instr>)
    ensures fresh(p) && p[..] == [IChoice(p1.Length + 2, 0)] + p1[..] + [IBackCommit(2), IFail]
  {
    p := NewPatt(1 + p1.Length + 2);
    var k := SetInst(p, 0, IChoice(1 + p1.Length + 1, 0));
    k := AddPatt(p, k, p1);
    k := SetInst(p, k, IBackCommit(2));
    k := SetInst(p, k, IFail);
    assert p[..] == p[..k];
  }

  // ---------- union_l ----------

  /** The test form of basicUnion. */
  method TestUnionAt(p1: seq<Instr>, p2: seq<Instr>, size: nat) returns (op: array<Instr>)
    requires p1 != []
    ensures fresh(op) && op.Length >= size
    ensures op[size..] == ToTest(p1, |p1| + 1) + [IJmp(|p2| + 1)] + p2
  {
    op := NewPatt(size + |p1| + 1 + |p2|);
    ghost var front := op[..size];
    var k := CopyPatt(op, size, p1);
    op[size] := WithOff(op[size], |p1| + 1);
    assert op[..k] == front + ToTest(p1, |p1| + 1);
    k := SetInst(op, k, IJmp(|p2| + 1));
    k := CopyPatt(op, k, p2);
    Behind(op[..], front, ToTest(p1, |p1| + 1), [IJmp(|p2| + 1)], p2);
  }

  lemma Behind(p: seq<Instr>, front: seq<Instr>, a: seq<Instr>, b: seq<Instr>, c: seq<Instr>)
    requires p == front + a + b + c
    ensures p[|front|..] == a + b + c
  {
  }

  /** The choice form of basicUnion. */
  method ChoiceUnionAt(p1: seq<Instr>, p2: seq<Instr>, size: nat) returns (op: array<Instr>)
    ensures fresh(op) && op.Length >= size
    ensures op[size..] == OptimizeChoice([IChoice(|p1| + 2, 0)] + p1 + [ICommit(|p2| + 1)] + p2)
  {
    op := NewPatt(size + 1 + |p1| + 1 + |p2|);
    ghost var front := op[..size];
    var k := SetInst(op, size, IChoice(1 + |p1| + 1, 0));
    k := CopyPatt(op, k, p1);
    k := SetInst(op, k, ICommit(1 + |p2|));
    k := CopyPatt(op, k, p2);
    assert op[..] == front + ([IChoice(|p1| + 2, 0)] + p1) + [ICommit(|p2| + 1)] + p2;
    Behind(op[..], front, [IChoice(|p1| + 2, 0)] + p1, [ICommit(|p2| + 1)], p2);
    hide OptimizeChoice;
    OptimizeChoiceAt(op, size);
  }

  /** basicUnion: the code of the choice goes behind the first 'size' places, which are left for the parts before. */
  method BasicUnionAt(p1: seq<Instr>, p2: seq<Instr>, size: nat) returns (op: array<Instr>)
    ensures fresh(op) && op.Length >= size && op[size..] == BasicUnion(p1, p2)
  {
    var st1, st2 := ToCharset(p1), ToCharset(p2);
    if st1.IsCharset? && st2.IsCharset? {
      op := NewPatt(size + 1);
      op[size] := ISet(st1.cs + st2.cs, 0);
    } else if Exclusive(st1, st2) || IsHeadFail(p1) {
      op := TestUnionAt(p1, p2, size);
    } else {
      op := ChoiceUnionAt(p1, p2, size);
    }
  }

  /** A part that stays as it is, but for the jump that ends it, is copied in front of the rest. */
  method KeepPart(op: array<Instr>, size: nat, part: seq<Instr>)
    requires part != [] && size + |part| <= op.Length
    modifies op
    ensures var rest := old(op[size + |part|..]); var sp := |part|;
            op[size..] == part[..sp - 1] + [WithOff(part[sp - 1], |rest| + 1)] + rest
  {
    ghost var rest := op[size + |part|..];
    ghost var front := op[..size];
    var end := CopyPatt(op, size, part);
    assert op[..end][..end - 1] == front + part[..|part| - 1];
    op[end - 1] := WithOff(op[end - 1], op.Length - (end - 1));
    assert op[..] == front + part[..|part| - 1] + [op[end - 1]] + rest;
    Behind(op[..], front, part[..|part| - 1], [op[end - 1]], rest);
  }

  /** A part that starts with a test becomes a choice again, and is put in front of the rest. */
  method ReopenPart(op: array<Instr>, size: nat, part: seq<Instr>)
    requires |part| > 1 && IsFixCheckOp(part[0]) && size + |part| + 1 <= op.Length
    modifies op
    ensures var sp := |part|; var rest := old(op[size + sp + 1..]);
            op[size..] == [WithOff(part[0], part[0].off + 1), IChoice(sp, 1)] + part[1..sp - 1] + [ICommit(|rest| + 1)] + rest
  {
    var sp := |part|;
    ghost var rest := op[size + sp + 1..];
    ghost var front := op[..size];
    op[size] := part[0];
    op[size] := WithOff(op[size], op[size].off + 1);
    op[size + 1] := IChoice(sp - 1 + 1, 1);
    ghost var open := [WithOff(part[0], part[0].off + 1), IChoice(sp, 1)];
    assert op[..size + 2] == front + open;
    var k := CopyPatt(op, size + 2, part[1..sp - 1]);
    k := SetInst(op, k, ICommit(op.Length - k));
    assert op[..] == front + (open + part[1..sp - 1]) + [ICommit(|rest| + 1)] + rest;
    Behind(op[..], front, open + part[1..sp - 1], [ICommit(|rest| + 1)], rest);
  }

  /** Whether a part keeps its form. */
  predicate Keeps(p: seq<Instr>, p2: seq<Instr>)
    requires FirstPart(p) > 0
  {
    p[FirstPart(p) - 1].ICommit? || !Interfere(p[0], ToCharset(p2))
  }

  lemma PartKept(p: seq<Instr>, p2: seq<Instr>)
    requires FirstPart(p) > 0 && Keeps(p, p2)
    ensures var sp := FirstPart(p); var part := p[..sp]; var rest := SeparateParts(p[sp..], p2);
            SeparateParts(p, p2) == part[..sp - 1] + [WithOff(part[sp - 1], |rest| + 1)] + rest
  {
    assert p[..FirstPart(p)][..FirstPart(p) - 1] == p[..FirstPart(p) - 1];
  }

  lemma PartReopened(p: seq<Instr>, p2: seq<Instr>)
    requires FirstPart(p) > 0 && !Keeps(p, p2)
    ensures var sp := FirstPart(p); var part := p[..sp]; var rest := SeparateParts(p[sp..], p2);
            && sp > 1 && IsTest(part[0])
            && SeparateParts(p, p2) ==
               [WithOff(part[0], part[0].off + 1), IChoice(sp, 1)] + part[1..sp - 1] + [ICommit(|rest| + 1)] + rest
  {
    assert p[..FirstPart(p)][1..FirstPart(p) - 1] == p[1..FirstPart(p) - 1];
  }

  /** separateparts: the parts are copied in front of the code that the recursion has made, the last one first. */
  method SeparatePartsAt(p1: seq<Instr>, p2: seq<Instr>, size: nat) returns (op: array<Instr>)
    ensures fresh(op) && op.Length >= size && op[size..] == SeparateParts(p1, p2)
    decreases |p1|
  {
    var sp := FirstPart(p1);
    if sp == 0 {
      op := BasicUnionAt(p1, p2, size);
    } else if Keeps(p1, p2) {
      PartKept(p1, p2);
      hide FirstPart, Keeps, SeparateParts;
      op := SeparatePartsAt(p1[sp..], p2, size + sp);
      KeepPart(op, size, p1[..sp]);
    } else {
      PartReopened(p1, p2);
      hide FirstPart, Keeps, SeparateParts;
      op := SeparatePartsAt(p1[sp..], p2, size + sp + 1);
      ReopenPart(op, size, p1[..sp]);
    }
  }

  method UnionL(p1: array<Instr>, p2: array<Instr>) returns (p: array<Instr>)
    ensures (p == p1 || p == p2 || fresh(p)) && p[..] == Union(p1[..], p2[..])
  {
    if StartsWithFail(p1[..]) { return p2; }
    if StartsWithFail(p2[..]) || p1.Length == 0 { return p1; }
    p := SeparatePartsAt(p1[..], p2[..], 0);
    assert p[..] == p[0..];
  }

  // ---------- star_l ----------

  lemma Fewer(m: nat, l: nat)
    requires m > 0
    ensures m * l == l + (m - 1) * l && 0 <= (m - 1) * l
  {
  }

  /** n copies of a pattern, from the beginning of the new one. */
  method AddTimes(p: array<Instr>, p1: array<Instr>, n: nat) returns (k: nat)
    requires p != p1 && n * p1.Length <= p.Length
    modifies p
    ensures k == n * p1.Length && p[..k] == Times(p1[..], n)
  {
    k := 0;
    var left: nat := n;
    while left > 0
      invariant left <= n && 0 <= left * p1.Length && k + left * p1.Length <= p.Length && p[..k] == Times(p1[..], n - left)
    {
      Fewer(left, p1.Length);
      k := AddPatt(p, k, p1);
      TimesOneMore(p1[..], n - left);
      left := left - 1;
    }
    TimesLength(p1[..], n);
  }

  lemma {:induction false} TimesOneMore(p: seq<Instr>, n: nat)
    ensures Times(p, n + 1) == Times(p, n) + p
    decreases n
  {
    if n > 0 { TimesOneMore(p, n - 1); }
  }

  method RepeatCharsetL(p1: array<Instr>, cs: set<Byte>, n: nat) returns (p: array<Instr>)
    ensures fresh(p) && p[..] == RepeatCharset(p1[..], cs, n)
  {
    p := NewPatt(n * p1.Length + 1);
    var k := AddTimes(p, p1, n);
    k := SetInst(p, k, ISpan(cs));
    assert p[..] == p[..k];
  }

  method RepeatHeadFailL(p1: array<Instr>, n: nat) returns (p: array<Instr>)
    requires p1.Length > 0
    ensures fresh(p) && p[..] == RepeatHeadFail(p1[..], n)
  {
    var l1 := p1.Length;
    assert (n + 1) * l1 == n * l1 + l1;
    p := NewPatt((n + 1) * l1 + 1);
    var k := AddTimes(p, p1, n);
    AddTestLoop(p, k, p1);
  }

  /** L2: test p1 L1; jump L2; L1: */
  method AddTestLoop(p: array<Instr>, k: nat, p1: array<Instr>)
    requires p != p1 && p1.Length > 0 && p.Length == k + p1.Length + 1
    modifies p
    ensures p[..] == old(p[..k]) + ToTest(p1[..], p1.Length + 1) + [IJmp(-p1.Length)]
  {
    ghost var front := p[..k];
    var end := AddPatt(p, k, p1);
    p[k] := WithOff(p[k], p1.Length + 1);
    assert p[..end] == front + ToTest(p1[..], p1.Length + 1);
    end := SetInst(p, end, IJmp(-p1.Length));
    assert p[..] == p[..end];
  }

  /** repeats, when verify has accepted p1. */
  method RepeatsL(p1: array<Instr>, n: nat) returns (p: array<Instr>)
    ensures fresh(p) && p[..] == Repeats(p1[..], n)
  {
    var l1 := p1.Length;
    assert (n + 1) * l1 == n * l1 + l1;
    p := NewPatt((n + 1) * l1 + 2);
    var k := AddTimes(p, p1, n);
    k := SetInst(p, k, IChoice(1 + l1 + 1, 0));
    k := AddPatt(p, k, p1);
    k := SetInst(p, k, IPartialCommit(-l1));
    assert p[..] == p[..k];
  }

  /** A copy whose check becomes a test. */
  method AddTest(p: array<Instr>, k: nat, p1: array<Instr>, off: int) returns (end: nat)
    requires p != p1 && p1.Length > 0 && k + p1.Length <= p.Length
    modifies p
    ensures end == k + p1.Length && p[..end] == old(p[..k]) + ToTest(p1[..], off)
  {
    ghost var front := p[..k];
    end := AddPatt(p, k, p1);
    p[k] := WithOff(p[k], off);
    assert p[..end] == front + ToTest(p1[..], off);
  }

  lemma HeadFailStep(p: seq<Instr>, n: nat, front: seq<Instr>)
    requires p != [] && n > 0
    ensures n * |p| == |p| + (n - 1) * |p| && 0 <= (n - 1) * |p|
    ensures front + OptionalHeadFail(p, n) == front + ToTest(p, n * |p|) + OptionalHeadFail(p, n - 1)
  {
  }

  method OptionalHeadFailL(p1: array<Instr>, n: nat) returns (p: array<Instr>)
    requires p1.Length > 0
    ensures fresh(p) && p[..] == OptionalHeadFail(p1[..], n)
  {
    p := NewPatt(n * p1.Length);
    var k: nat, left: nat := 0, n;
    while left > 0
      invariant left <= n && 0 <= left * p1.Length && k + left * p1.Length == p.Length
      invariant p[..k] + OptionalHeadFail(p1[..], left) == OptionalHeadFail(p1[..], n)
    {
      HeadFailStep(p1[..], left, p[..k]);
      hide OptionalHeadFail;
      k := AddTest(p, k, p1, left * p1.Length);
      left := left - 1;
    }
    assert p[..] == p[..k] + [];
  }

  /** i copies of p, each with a partial commit behind it. */
  function PartialBodies(p: seq<Instr>, i: nat): seq<Instr> {
    if i == 0 then [] else PartialBodies(p, i - 1) + p + [IPartialCommit(1)]
  }

  lemma {:induction false} PartialThen(p: seq<Instr>, i: nat, n: nat, last: int)
    requires n > 0
    ensures PartialBodies(p, i) + OptionalBodies(p, n, last) == OptionalBodies(p, i + n, last)
    decreases i
  {
    if i > 0 {
      PartialThen(p, i - 1, n + 1, last);
      assert PartialBodies(p, i) + OptionalBodies(p, n, last) ==
             PartialBodies(p, i - 1) + (p + [IPartialCommit(1)] + OptionalBodies(p, n, last));
    } else {
      assert PartialBodies(p, 0) == [];
    }
  }

  method AddBodies(p: array<Instr>, p1: array<Instr>, n: nat) returns (k: nat)
    requires p != p1 && p.Length == n * (p1.Length + 1) + 1
    modifies p
    ensures k == p.Length && p[..k] == [old(p[0])] + PartialBodies(p1[..], n)
  {
    k := 1;
    var left: nat := n;
    while left > 0
      invariant left <= n && 0 <= left * (p1.Length + 1) && k + left * (p1.Length + 1) == p.Length && k > 0
      invariant p[..k] == [old(p[0])] + PartialBodies(p1[..], n - left)
    {
      Fewer(left, p1.Length + 1);
      ghost var front := p[..k];
      k := AddPatt(p, k, p1);
      k := SetInst(p, k, IPartialCommit(1));
      assert p[..k] == front + (p1[..] + [IPartialCommit(1)]);
      left := left - 1;
    }
  }

  lemma BodiesDone(p: seq<Instr>, n: nat, choice: Instr)
    requires n > 0
    ensures [choice] + PartialBodies(p, n - 1) + p + [ICommit(1)] == [choice] + OptionalBodies(p, n, 1)
    ensures PartialBodies(p, n) == PartialBodies(p, n - 1) + p + [IPartialCommit(1)]
  {
    PartialThen(p, n - 1, 1, 1);
    assert OptionalBodies(p, 1, 1) == p + [ICommit(1)];
  }

  /** All bodies end with a partial commit; the last one is corrected afterwards. */
  method OptionalsL(p1: array<Instr>, n: nat) returns (p: array<Instr>)
    requires n > 0
    ensures fresh(p) && p[..] == Optionals(p1[..], n)
  {
    var size := n * (p1.Length + 1) + 1;
    p := NewPatt(size);
    OptionalChoice(p, p1, n);
    hide OptimizeChoice, OptionalBodies;
    OptimizeChoiceAt(p, 0);
    assert p[0..] == p[..];
  }

  method OptionalChoice(p: array<Instr>, p1: array<Instr>, n: nat)
    requires p != p1 && n > 0 && p.Length == n * (p1.Length + 1) + 1
    modifies p
    ensures p[0..] == [IChoice(1 + n * (p1.Length + 1), 0)] + OptionalBodies(p1[..], n, 1)
  {
    var choice := IChoice(p.Length, 0);
    p[0] := choice;
    var k := AddBodies(p, p1, n);
    BodiesDone(p1[..], n, choice);
    hide PartialBodies, OptionalBodies;
    ghost var front := [choice] + PartialBodies(p1[..], n - 1) + p1[..];
    assert p[..k] == front + [IPartialCommit(1)];
    p[k - 1] := ICommit(1);
    assert p[..k - 1] == front;
    assert p[0..] == front + [ICommit(1)];
  }
}
