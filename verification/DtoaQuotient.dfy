/** Comparing, subtracting, and the quotient of two numbers that is a single digit (dtoa.c:1034-1160, 2118-2241). */
module DtoaQuotient {
  import opened Arithmetic
  import opened DtoaWords
  import opened DtoaBigint
  import opened DtoaShift

  // ---------- cmp ----------

  lemma CompareWords(x: seq<Word>, y: seq<Word>, i: nat)
    requires |x| == |y| && i < |x| && x[i + 1..] == y[i + 1..] && x[i] != y[i]
    ensures if x[i] < y[i] then Val(x) < Val(y) else Val(x) > Val(y)
  {
    if x[i] < y[i] { TopDecides(x, y, i); } else { TopDecides(y, x, i); }
  }

  lemma CompareLengths(x: seq<Word>, y: seq<Word>)
    requires |x| < |y| && (|y| > 1 ==> y[|y| - 1] != 0)
    ensures Val(x) < Val(y) || (Val(x) == Val(y) == 0 && x == [] && y == [0])
  {
    if y[|y| - 1] != 0 {
      LongerIsGreater(x, y);
    } else {
      assert x == [] && y == [0];
      ValOne(0);
    }
  }

  /** cmp: the sign of the difference. Only 0 has two forms, with one word and with none; they are told apart. */
  method Cmp(a: Bigint, b: Bigint) returns (i: int)
    requires a.Valid() && b.Valid() && a.Trimmed() && b.Trimmed() && a.wds + b.wds > 0
    ensures a.Value() < b.Value() ==> i < 0
    ensures a.Value() > b.Value() ==> i > 0
    ensures a.Value() == b.Value() ==> i == a.wds - b.wds
  {
    hide Val;
    i := a.wds;
    var j := b.wds;
    i := i - j;
    if i != 0 {
      if i < 0 { CompareLengths(a.Words(), b.Words()); } else { CompareLengths(b.Words(), a.Words()); }
      return;
    }
    while true
      invariant 0 < j <= a.wds == b.wds
      invariant a.x[j..a.wds] == b.x[j..b.wds]
      decreases j
    {
      j := j - 1;
      if a.x[j] != b.x[j] {
        assert a.Words()[j + 1..] == a.x[j + 1..a.wds] && b.Words()[j + 1..] == b.x[j + 1..b.wds];
        CompareWords(a.Words(), b.Words(), j);
        return if a.x[j] < b.x[j] then -1 else 1;
      }
      assert a.x[j..a.wds] == [a.x[j]] + a.x[j + 1..a.wds] && b.x[j..b.wds] == [b.x[j]] + b.x[j + 1..b.wds];
      if j <= 0 { break; }
    }
    assert a.Words() == b.Words();
    return 0;
  }

  // ---------- Subtracting word by word ----------

  /** The words v stand for u minus l, but for a borrow. */
  ghost predicate Subtracted(v: seq<Word>, borrow: int, u: seq<Word>, l: seq<Word>) {
    Val(v) + Val(l) == Val(u) + Power(BASE, |v|) * borrow
  }

  lemma EmptySubtracted()
    ensures Subtracted([], 0, [], [])
  {
  }

  lemma SubtractedStep(v: seq<Word>, borrow: nat, u: seq<Word>, l: seq<Word>, d: Word, a: Word, b: Word, borrow2: nat)
    requires |v| == |u| == |l| && Subtracted(v, borrow, u, l) && d - BASE * borrow2 == a - b - borrow
    ensures Subtracted(v + [d], borrow2, u + [a], l + [b])
  {
    hide Val;
    ValAppend(v, [d]);
    ValAppend(u, [a]);
    ValAppend(l, [b]);
    ValOne(d);
    ValOne(a);
    ValOne(b);
    PowerAdd(BASE, |v|, 1);
    assert Power(BASE, 1) == BASE;
    hide Power;
    SubtractSum(Power(BASE, |v|), Val(v), Val(u), Val(l), d, a, b, borrow, borrow2);
  }

  lemma SubtractSum(P: nat, v: int, u: int, l: int, d: int, a: int, b: int, borrow: int, borrow2: int)
    requires v + l == u + P * borrow && d - BASE * borrow2 == a - b - borrow
    ensures (v + P * d) + (l + P * b) == (u + P * a) + (P * BASE) * borrow2
  {
    assert P * d + P * b == P * (d + b);
    assert P * a + P * (BASE * borrow2) == P * (a + BASE * borrow2);
    assert P * (d + b) + P * borrow == P * (d + b + borrow);
    assert (P * BASE) * borrow2 == P * (BASE * borrow2);
  }

  /** The borrow is bit 32 of a difference that has wrapped around. */
  lemma BorrowIs(a: Word, b: Word, borrow: nat, y: nat)
    requires borrow <= 1 && y == U64(a - b - borrow)
    ensures (y / BASE) % 2 <= 1 && y % BASE - BASE * ((y / BASE) % 2) == a - b - borrow
  {
    var t: int := a - b - borrow;
    if t < 0 {
      assert t % WRAP == t + WRAP;
      assert y == (WRAP - BASE) + (t + BASE);
      assert y / BASE == BASE - 1;
    } else {
      assert y == t;
    }
  }

  /** Nothing is left to borrow if the difference is not negative. */
  lemma NoBorrow(v: seq<Word>, borrow: nat, u: seq<Word>, l: seq<Word>)
    requires Subtracted(v, borrow, u, l) && Val(l) <= Val(u) && borrow <= 1
    ensures borrow == 0 && Val(v) == Val(u) - Val(l)
  {
    ValBound(v);
    hide Val, Power;
  }

  lemma PadZero(l: seq<Word>)
    ensures Val(l + [0]) == Val(l)
  {
    ValAppend(l, [0]);
    ValOne(0);
  }

  /** The first loop of diff. */
  method DiffBoth(xa: array<Word>, xb: array<Word>, wb: nat, xc: array<Word>) returns (borrow: nat)
    requires xc != xa && xc != xb && 1 <= wb <= xa.Length && wb <= xb.Length && wb <= xc.Length
    modifies xc
    ensures borrow <= 1 && Subtracted(xc[..wb], borrow, xa[..wb], xb[..wb])
  {
    hide Subtracted;
    var i := 0;
    borrow := 0;
    EmptySubtracted();
    assert xc[..0] == [] == xa[..0] == xb[..0];
    while true
      invariant 0 <= i < wb && 0 <= borrow <= 1
      invariant Subtracted(xc[..i], borrow, xa[..i], xb[..i])
      decreases wb - i
    {
      ghost var v, c := xc[..i], borrow;
      var y := U64(xa[i] - xb[i] - borrow);
      BorrowIs(xa[i], xb[i], borrow, y);
      borrow := (y / BASE) % 2;
      xc[i] := y % BASE;
      SubtractedStep(v, c, xa[..i], xb[..i], xc[i], xa[i], xb[i], borrow);
      assert xc[..i + 1] == v + [xc[i]] && xa[..i + 1] == xa[..i] + [xa[i]] && xb[..i + 1] == xb[..i] + [xb[i]];
      i := i + 1;
      if i >= wb { break; }
    }
  }

  /** The second loop of diff: the words that only the greater number has. */
  method DiffRest(xa: array<Word>, wa: nat, ghost l0: seq<Word>, wb: nat, xc: array<Word>, borrow0: nat) returns (ghost l: seq<Word>, borrow: nat)
    requires xc != xa && wb <= wa <= xa.Length && wa <= xc.Length && |l0| == wb && borrow0 <= 1
    requires Subtracted(xc[..wb], borrow0, xa[..wb], l0)
    modifies xc
    ensures borrow <= 1 && Subtracted(xc[..wa], borrow, xa[..wa], l) && Val(l) == Val(l0)
  {
    hide Subtracted, Val;
    var i := wb;
    l, borrow := l0, borrow0;
    while i < wa
      invariant wb <= i <= wa && borrow <= 1 && |l| == i && Val(l) == Val(l0)
      invariant Subtracted(xc[..i], borrow, xa[..i], l)
    {
      ghost var v, c := xc[..i], borrow;
      var y := U64(xa[i] - borrow);
      BorrowIs(xa[i], 0, borrow, y);
      borrow := (y / BASE) % 2;
      xc[i] := y % BASE;
      SubtractedStep(v, c, xa[..i], l, xc[i], xa[i], 0, borrow);
      assert xc[..i + 1] == v + [xc[i]] && xa[..i + 1] == xa[..i] + [xa[i]];
      PadZero(l);
      l := l + [0];
      i := i + 1;
    }
  }

  /** diff: the distance of two numbers; the sign says whether the second is the greater one. */
  method Diff(a0: Bigint, b0: Bigint) returns (c: Bigint)
    requires a0.Valid() && b0.Valid() && a0.Trimmed() && b0.Trimmed() && a0.wds >= 1 && b0.wds >= 1
    ensures fresh(c) && fresh(c.x) && c.Valid() && c.Trimmed() && c.wds >= 1
    ensures c.sign == if a0.Value() < b0.Value() then 1 else 0
    ensures c.Value() == if a0.Value() < b0.Value() then b0.Value() - a0.Value() else a0.Value() - b0.Value()
  {
    hide Val, Power, Subtracted;
    var i := Cmp(a0, b0);
    SameLengths(a0.Words(), b0.Words());
    if i == 0 {
      c := new Bigint(0);
      assert Power(2, 0) == 1 by { PowerNone(); }
      c.wds := 1;
      c.x[0] := 0;
      assert c.Words() == [0];
      ValOne(0);
      return;
    }
    var a, b := a0, b0;
    if i < 0 {
      a, b := b, a;
      i := 1;
    } else {
      i := 0;
    }
    Longer(a.Words(), b.Words());
    c := new Bigint(a.k);
    c.sign := i;
    var wa := DiffWords(a.x, a.wds, b.x, b.wds, c.x);
    c.wds := wa;
  }

  lemma PowerNone()
    ensures Power(2, 0) == 1
  {
  }

  lemma SameLengths(x: seq<Word>, y: seq<Word>)
    requires x != [] && y != [] && (|x| > 1 ==> x[|x| - 1] != 0) && (|y| > 1 ==> y[|y| - 1] != 0)
    ensures Val(x) == Val(y) ==> |x| == |y|
  {
    if |x| < |y| {
      CompareLengths(x, y);
    } else if |y| < |x| {
      CompareLengths(y, x);
    }
  }

  /** The greater number has as many words at least. */
  lemma Longer(x: seq<Word>, y: seq<Word>)
    requires Val(x) > Val(y) && (|y| > 1 ==> y[|y| - 1] != 0) && x != [] && y != []
    ensures |x| >= |y|
  {
    if |x| < |y| { CompareLengths(x, y); }
  }

  method DiffWords(xa: array<Word>, wa0: nat, xb: array<Word>, wb: nat, xc: array<Word>) returns (wa: nat)
    requires xc != xa && xc != xb && 1 <= wb <= wa0 <= xa.Length && wb <= xb.Length && wa0 <= xc.Length
    requires Val(xa[..wa0]) > Val(xb[..wb])
    modifies xc
    ensures 1 <= wa <= wa0 && xc[wa - 1] != 0 && Val(xc[..wa]) == Val(xa[..wa0]) - Val(xb[..wb])
  {
    hide Val, Subtracted;
    var borrow := DiffBoth(xa, xb, wb, xc);
    ghost var l;
    l, borrow := DiffRest(xa, wa0, xb[..wb], wb, xc, borrow);
    ghost var v := xc[..wa0];
    NoBorrow(v, borrow, xa[..wa0], l);
    wa := wa0;
    while xc[wa - 1] == 0
      invariant 1 <= wa <= wa0 && xc[..wa0] == v
      invariant forall h :: wa <= h < wa0 ==> v[h] == 0
      decreases wa
    {
      assert v[wa - 1] == xc[..wa0][wa - 1] == 0;
      if wa == 1 { ValZeros(v); }
      wa := wa - 1;
    }
    ValTrim(v, wa);
    assert v[..wa] == xc[..wa];
  }

  // ---------- quorem ----------

  /** One step of the loops of quorem: q times the divisor is taken from the dividend word by word. */
  method SubtractTimes(bx: array<Word>, sx: array<Word>, n: nat, q: nat) returns (ghost l: seq<Word>, ghost carry0: nat, ghost borrow0: nat)
    requires bx != sx && 1 <= n <= bx.Length && n <= sx.Length && q <= 9
    modifies bx
    ensures |l| == n && bx[n..] == old(bx[n..])
    ensures Scaled(l, carry0, sx[..n], q, 0) && borrow0 <= 1
    ensures Subtracted(bx[..n], borrow0, old(bx[..n]), l)
  {
    hide Subtracted, Scaled;
    var i, carry, borrow := 0, 0, 0;
    ghost var was := bx[..];
    l := [];
    EmptySubtracted();
    EmptyScaled(q, 0);
    assert bx[..0] == [] == was[..0] == sx[..0];
    while true
      invariant 0 <= i < n && 0 <= carry <= INT_MAX && 0 <= borrow <= 1 && |l| == i
      invariant bx[i..] == was[i..]
      invariant Scaled(l, carry, sx[..i], q, 0) && Subtracted(bx[..i], borrow, was[..i], l)
      decreases n - i
    {
      ghost var v, w, c, h := bx[..i], bx[i], carry, borrow;
      assert w == bx[i..][0] == was[i..][0];
      var ys := U64(sx[i] * q + carry);
      SmallCarry(sx[i], q, carry, ys);
      carry := ys / BASE;
      var y := U64(bx[i] - ys % BASE - borrow);
      BorrowIs(bx[i], ys % BASE, borrow, y);
      borrow := (y / BASE) % 2;
      bx[i] := y % BASE;
      ScaledStep(l, sx[i], sx[..i], ys % BASE, q, 0, c, carry);
      SubtractedStep(v, h, was[..i], l, bx[i], w, ys % BASE, borrow);
      l := l + [ys % BASE];
      assert bx[..i + 1] == v + [bx[i]] && sx[..i + 1] == sx[..i] + [sx[i]] && was[..i + 1] == was[..i] + [w];
      i := i + 1;
      assert bx[i..] == was[i..];
      if i >= n { break; }
    }
    carry0, borrow0 := carry, borrow;
    assert was[..n] == old(bx[..n]);
  }

  /** The carry and the borrow that are left over are 0: the product is not greater than the dividend. */
  lemma NothingLeft(v: seq<Word>, borrow: nat, u: seq<Word>, l: seq<Word>, carry: nat, s: seq<Word>, q: nat)
    requires |v| == |u| == |l| == |s| && Scaled(l, carry, s, q, 0) && Subtracted(v, borrow, u, l) && borrow <= 1
    requires q * Val(s) <= Val(u)
    ensures carry == 0 && borrow == 0 && Val(v) == Val(u) - q * Val(s)
  {
    ValBound(u);
    hide Val;
    var P := Power(BASE, |l|);
    assert Val(s) * q == q * Val(s);
    if carry > 0 { MulLess(1, carry, P); }
    assert carry == 0;
    NoBorrow(v, borrow, u, l);
  }

  method SubtractMultiple(bx: array<Word>, sx: array<Word>, n: nat, q: nat)
    requires bx != sx && 1 <= n <= bx.Length && n <= sx.Length && q <= 9
    requires q * Val(sx[..n]) <= Val(bx[..n])
    modifies bx
    ensures Val(bx[..n]) == old(Val(bx[..n])) - q * Val(sx[..n]) && bx[n..] == old(bx[n..])
  {
    hide Subtracted, Scaled, Val;
    ghost var was := bx[..n];
    ghost var l, carry, borrow := SubtractTimes(bx, sx, n, q);
    NothingLeft(bx[..n], borrow, was, l, carry, sx[..n], q);
  }

  /** From the top words alone: the estimate is never too big, and at most one too small. */
  lemma Estimate(P: nat, bt: nat, st: nat, b: nat, s: nat, q: nat)
    requires P > 0 && P * bt <= b < P * bt + P && P * st <= s < P * st + P && b < 10 * s
    requires st >= 0x800_0000 && q == bt / (st + 1)
    ensures q * s <= b < (q + 2) * s && q <= 9 && s > 0
  {
    assert q * (st + 1) <= bt < (q + 1) * (st + 1) by { DivBounds(bt, st + 1, q); }
    EstimateLow(P, bt, st, b, s, q);
    assert P * st > 0 by { MulLess(1, P, st); }
    if q > 9 { MulLess(10, q, s); }
    EstimateHigh(P, bt, st, b, s, q);
  }

  lemma DivBounds(a: nat, d: nat, q: nat)
    requires d > 0 && q == a / d
    ensures q * d <= a < (q + 1) * d
  {
    assert a == d * q + a % d;
  }

  lemma EstimateLow(P: nat, bt: nat, st: nat, b: nat, s: nat, q: nat)
    requires P * bt <= b && s < P * st + P && q * (st + 1) <= bt
    ensures q * s <= b
  {
    assert P * st + P == P * (st + 1);
    MulLess(s, P * (st + 1), q);
    assert q * (P * (st + 1)) == P * (q * (st + 1));
    MulLess(q * (st + 1), bt, P);
  }

  lemma EstimateHigh(P: nat, bt: nat, st: nat, b: nat, s: nat, q: nat)
    requires b < P * bt + P && P * st <= s && bt < (q + 1) * (st + 1) && q <= 9 && st >= 0x800_0000
    ensures b < (q + 2) * s
  {
    assert (q + 1) * (st + 1) == (q + 1) * st + (q + 1);
    assert bt + 1 <= (q + 1) * st + st;
    assert (q + 1) * st + st == (q + 2) * st;
    MulLess(bt + 1, (q + 2) * st, P);
    assert P * (bt + 1) == P * bt + P;
    assert P * ((q + 2) * st) == (q + 2) * (P * st);
    MulLess(P * st, s, q + 2);
  }

  lemma QuotientIs(b: nat, s: nat, q: nat, r: nat)
    requires b == q * s + r && r < s
    ensures b / s == q && b % s == r
  {
    DivBounds(b, s, b / s);
    assert (q + 1) * s == q * s + s;
    Cancel(q, b / s + 1, s);
    Cancel(b / s, q + 1, s);
  }

  /** Fewer words than the divisor, or as many. */
  lemma DividendFits(u: seq<Word>, s: seq<Word>)
    requires FourZeros(s) && (|u| > 1 ==> u[|u| - 1] != 0) && Val(u) < 10 * Val(s)
    ensures |u| <= |s|
    ensures |u| < |s| ==> Val(u) < Val(s)
  {
    hide Val, Power;
    if |u| > |s| {
      ValAtLeast(u);
      PowerGrows(BASE, |s|, |u| - 1);
      TenTimes(s);
    } else if |u| < |s| {
      LongerIsGreater(u, s);
    }
  }

  lemma TenTimes(s: seq<Word>)
    requires FourZeros(s)
    ensures 10 * Val(s) < Power(BASE, |s|)
  {
    var n := |s| - 1;
    var P := Power(BASE, n);
    assert Power(BASE, |s|) == BASE * P;
    hide Val, Power;
    ValTop(s, n);
    assert s[..n + 1] == s;
    ValBound(s[..n]);
    TenSum(P, s[n], Val(s));
  }

  lemma TenSum(P: nat, t: nat, v: nat)
    requires v < P * t + P && t < 0x1000_0000
    ensures 10 * v < BASE * P
  {
    MulLess(t + 1, 0x1000_0000, P);
    assert P * (t + 1) == P * t + P;
  }

  lemma TopEstimate(u: seq<Word>, s: seq<Word>, q: nat)
    requires FourZeros(s) && |u| == |s| && Val(u) < 10 * Val(s) && q == u[|s| - 1] / (s[|s| - 1] + 1)
    ensures q * Val(s) <= Val(u) < (q + 2) * Val(s) && q <= 9
  {
    var n := |s| - 1;
    ValTop(s, n);
    ValTop(u, n);
    assert s[..n + 1] == s && u[..n + 1] == u;
    ValBound(s[..n]);
    ValBound(u[..n]);
    hide Val, Power;
    Estimate(Power(BASE, n), u[n], s[n], Val(u), Val(s), q);
  }

  /** The words that are left of the dividend, without leading zeros. A remainder 0 has one word, or none if the
      divisor has one. */
  method TrimRemainder(b: Bigint, n0: nat)
    requires b.Valid() && b.wds == n0 + 1
    modifies b
    ensures b.Valid() && b.wds <= n0 + 1 && b.next == old(b.next) && b.sign == old(b.sign)
    ensures Val(b.x[..b.wds]) == Val(b.x[..n0 + 1]) && b.Trimmed() && (b.wds == 0 ==> n0 == 0 && b.x[0] == 0)
    ensures b.wds == n0 + 1 <==> b.x[n0] != 0
  {
    hide Val;
    var e, n: int := n0, n0;
    ghost var v := b.x[..n0 + 1];
    if b.x[e] == 0 {
      e := e - 1;
      while e > 0 && b.x[e] == 0
        invariant n - 1 == e && -1 <= e < n0 && (e == -1 ==> n0 == 0)
        invariant forall h :: n <= h <= n0 ==> v[h] == 0
      {
        n := n - 1;
        e := e - 1;
      }
      b.wds := n;
      ValTrim(v, n);
      assert v[..n] == b.x[..n];
    }
  }

  /** The top word of the dividend by that of the divisor, which is taken for greater by 1. */
  function Ratio(bt: Word, st: Word): nat {
    bt / (st + 1)
  }

  /** r is what is left of u when q times s has been taken. */
  ghost predicate Left(u: nat, s: nat, q: nat, r: nat) {
    u == q * s + r
  }

  method TakeMultiple(b: Bigint, S: Bigint, n: nat, q: nat, ghost r: nat)
    requires b.Valid() && S.Valid() && b != S && b.x != S.x && b.wds == S.wds == n + 1 && q <= 9
    requires Left(b.Value(), S.Value(), q, r)
    modifies b, b.x
    ensures b.Valid() && b.Trimmed() && b.next == old(b.next) && b.sign == old(b.sign) && b.wds <= n + 1
    ensures b.Value() == r
    ensures b.wds == 0 ==> n == 0 && b.x[0] == 0
  {
    hide Val;
    SubtractMultiple(b.x, S.x, n + 1, q);
    TrimRemainder(b, n);
  }

  lemma FirstEstimate(u: seq<Word>, s: seq<Word>, q: nat) returns (r: nat)
    requires FourZeros(s) && |u| == |s| && Val(u) < 10 * Val(s) && q == Ratio(u[|s| - 1], s[|s| - 1])
    ensures Left(Val(u), Val(s), q, r) && r < 2 * Val(s) && q <= 9
  {
    hide Val;
    TopEstimate(u, s, q);
    r := Val(u) - q * Val(s);
    assert (q + 2) * Val(s) == q * Val(s) + 2 * Val(s);
  }

  /** At most one correction is needed. */
  lemma Corrected(u: nat, s: nat, q: nat, r: nat)
    requires Left(u, s, q, r) && r < 2 * s && u < 10 * s
    ensures r < s ==> q <= 9
    ensures r >= s ==> Left(r, s, 1, r - s) && Left(u, s, q + 1, r - s) && r - s < s && q + 1 <= 9
  {
    if r < s {
      SingleDigit(u, s, q);
    } else {
      assert (q + 1) * s == q * s + s;
      SingleDigit(u, s, q + 1);
    }
  }

  lemma SingleDigit(b: nat, s: nat, q: nat)
    requires b < 10 * s && q * s <= b
    ensures q <= 9
  {
    Cancel(q, 10, s);
  }

  /** quorem: the quotient, which is a digit, and in place of the dividend the remainder. */
  method QuoRem(b: Bigint, S: Bigint) returns (q: nat)
    requires b.Valid() && S.Valid() && b.Trimmed() && b != S && b.x != S.x && b.x.Length >= 1
    requires FourZeros(S.Words()) && b.Value() < 10 * S.Value() && (b.wds == 0 ==> b.x[0] == 0)
    modifies b, b.x
    ensures b.Valid() && b.Trimmed() && b.next == old(b.next) && b.sign == old(b.sign)
    ensures Left(old(b.Value()), S.Value(), q, b.Value()) && b.Value() < S.Value() && q <= 9
    ensures b.wds == 0 ==> b.x[0] == 0
    ensures old(b.wds) > 0 && S.wds > 1 ==> b.wds > 0
  {
    hide Val, Left, Ratio;
    var n := S.wds;
    ghost var u, s := b.Value(), S.Value();
    DividendFits(b.Words(), S.Words());
    if b.wds < n {
      LeftAll(u, s);
      return 0;
    }
    n := n - 1;
    q := Ratio(b.x[n], S.x[n]);
    ghost var r := FirstEstimate(b.Words(), S.Words(), q);
    Corrected(u, s, q, r);
    if q > 0 { TakeMultiple(b, S, n, q, r); } else { LeftNothing(u, s, r); }
    AsLong(b.Words(), S.Words());
    var i := Cmp(b, S);
    if i >= 0 {
      TakeMultiple(b, S, n, 1, r - s);
      q := q + 1;
    }
  }

  lemma AsLong(u: seq<Word>, s: seq<Word>)
    requires FourZeros(s) && (|u| > 1 ==> u[|u| - 1] != 0) && |u| <= |s|
    ensures Val(u) >= Val(s) ==> |u| == |s|
  {
    if |u| < |s| { CompareLengths(u, s); }
  }

  lemma LeftAll(u: nat, s: nat)
    ensures Left(u, s, 0, u)
  {
  }

  lemma LeftNothing(u: nat, s: nat, r: nat)
    requires Left(u, s, 0, r)
    ensures r == u
  {
  }
}
