/** The digits of a quotient, rounded (dtoa.c:4285-4329). */
module DtoaDigits {
  import opened Arithmetic
  import opened DtoaWords
  import opened DtoaBigint
  import opened DtoaShift
  import opened DtoaQuotient
  import opened DtoaPowers
  import opened DtoaDecimal

  /** What dtoa returns for the number v: no zero at either end; 'after' zeros belong behind them. */
  ghost predicate Shown(ds: seq<char>, after: nat, v: nat) {
    && ds != [] && Digits(ds) && ds[0] != '0' && ds[|ds| - 1] != '0'
    && Dec(ds) * Power(10, after) == v
  }

  lemma OneDigit()
    ensures Digits(['1']) && Dec(['1']) == 1
  {
    DecPush([], '1');
    assert [] + ['1'] == ['1'];
  }

  // ---------- Rounding off ----------

  /** 'roundoff': nines are dropped, and the digit in front of them goes up; if there is none the number becomes the
      next power of ten. */
  method RoundUp(buf: array<char>, s: nat, k: int) returns (s1: nat, k1: int)
    requires 1 <= s <= buf.Length && Digits(buf[..s]) && buf[0] != '0'
    modifies buf
    ensures 1 <= s1 <= s && (k1 == k || k1 == k + 1) && k1 - k + s - s1 >= 0
    ensures Shown(buf[..s1], k1 - k + s - s1, Dec(old(buf[..s])) + 1)
  {
    ghost var ds := buf[..s];
    var t := s;
    while true
      invariant 1 <= t <= s
      invariant forall h :: t <= h < s ==> ds[h] == '9'
      invariant buf[..s] == ds
      decreases t
    {
      t := t - 1;
      assert ds[t] == buf[..s][t] == buf[t];
      if buf[t] != '9' { break; }
      if t == 0 {
        buf[0] := '1';
        assert buf[..1] == ['1'];
        DecNines(ds, 0);
        OneDigit();
        return 1, k + 1;
      }
    }
    buf[t] := (buf[t] as int + 1) as char;
    WentUp(ds, t, buf[..t + 1]);
    return t + 1, k;
  }

  lemma WentUp(ds: seq<char>, t: nat, up: seq<char>)
    requires Digits(ds) && t < |ds| && ds[0] != '0' && ds[t] != '9' && forall h :: t < h < |ds| ==> ds[h] == '9'
    requires |up| == t + 1 && up[..t] == ds[..t] && up[t] as int == ds[t] as int + 1
    ensures Shown(up, |ds| - t - 1, Dec(ds) + 1)
  {
    hide Dec, Power;
    assert ds[..t + 1] == ds[..t] + [ds[t]] && up == ds[..t] + [up[t]];
    DecNines(ds, t + 1);
    DecPush(ds[..t], ds[t]);
    DecPush(ds[..t], up[t]);
    assert Dec(up) == Dec(ds[..t + 1]) + 1;
    assert t > 0 ==> up[0] == up[..t][0] == ds[..t][0];
  }

  /** Zeros at the end are dropped. */
  method TrimZeros(buf: array<char>, s: nat) returns (s1: nat)
    requires 1 <= s <= buf.Length && Digits(buf[..s]) && buf[0] != '0'
    ensures 1 <= s1 <= s && Shown(buf[..s1], s - s1, Dec(buf[..s]))
  {
    var t := s - 1;
    while buf[t] == '0'
      invariant 0 <= t < s
      invariant forall h :: t < h < s ==> buf[h] == '0'
      decreases t
    {
      t := t - 1;
    }
    DecZeros(buf[..s], t + 1);
    assert buf[..s][..t + 1] == buf[..t + 1];
    return t + 1;
  }

  // ---------- One digit after the other ----------

  lemma LeftAdds(u: nat, s: nat, a: nat, c: nat, q: nat, r: nat)
    requires Left(u, s, a, c) && Left(c, s, q, r)
    ensures Left(u, s, a + q, r)
  {
    assert (a + q) * s == a * s + q * s;
  }

  lemma LeftTimes(u: nat, s: nat, q: nat, r: nat, p: nat)
    requires Left(u, s, q, r)
    ensures Left(u * p, s, q * p, r * p)
  {
    assert (q * s) * p == (q * p) * s;
  }

  lemma LeftDigit(c: nat, s: nat, q: nat, r: nat)
    requires Left(c, s, q, r)
    ensures r == 0 && c > 0 ==> q > 0
    ensures r < s && c >= s ==> q > 0
  {
  }

  /** The first i digits of num / den stand in ds, and r is left. */
  ghost predicate Produced(ds: seq<char>, num: nat, den: nat, r: nat) {
    Digits(ds) && ds != [] && ds[0] != '0' && Left(num * Power(10, |ds| - 1), den, Dec(ds), r) && r < den
  }

  /** The state in front of quorem, once for each digit. */
  ghost predicate Producing(ds: seq<char>, num: nat, den: nat, c: nat) {
    Digits(ds) && (ds != [] ==> ds[0] != '0') && (ds == [] ==> c >= den) && 0 < c < 10 * den
    && Left(num * Power(10, |ds|), den, 10 * Dec(ds), c)
  }

  lemma ProducingFirst(num: nat, den: nat)
    requires den <= num < 10 * den
    ensures Producing([], num, den, num)
  {
    assert num * Power(10, 0) == num;
  }

  lemma DigitProduced(ds: seq<char>, num: nat, den: nat, c: nat, q: nat, r: nat, d: char)
    requires Producing(ds, num, den, c) && Left(c, den, q, r) && r < den && q <= 9 && d as int == '0' as int + q
    ensures Produced(ds + [d], num, den, r) && (r == 0 ==> d != '0')
  {
    DecPush(ds, d);
    LeftAdds(num * Power(10, |ds|), den, 10 * Dec(ds), c, q, r);
    LeftDigit(c, den, q, r);
  }

  lemma NextDigit(ds: seq<char>, num: nat, den: nat, r: nat)
    requires Produced(ds, num, den, r) && r > 0
    ensures Producing(ds, num, den, r * 10)
  {
    var p := Power(10, |ds| - 1);
    LeftTimes(num * p, den, Dec(ds), r, 10);
    assert (num * p) * 10 == num * (10 * p);
  }

  /** The digits end early: the rest are zeros. */
  lemma ExactDigits(ds: seq<char>, num: nat, den: nat, n: nat)
    requires Produced(ds, num, den, 0) && |ds| <= n && ds[|ds| - 1] != '0'
    ensures Shown(ds, n - |ds|, Rounded(num, den, n))
  {
    var i := |ds|;
    LeftTimes(num * Power(10, i - 1), den, Dec(ds), 0, Power(10, n - i));
    PowerAdd(10, i - 1, n - i);
    MulAssoc(num, Power(10, i - 1), Power(10, n - i));
    HalfEvenOf(num * Power(10, n - 1), den, Dec(ds) * Power(10, n - i), 0);
  }

  lemma LastDigitOdd(ds: seq<char>)
    requires Digits(ds) && ds != []
    ensures Dec(ds) % 2 == Digit(ds[|ds| - 1]) % 2
  {
    assert Dec(ds) == 10 * Dec(ds[..|ds| - 1]) + Digit(ds[|ds| - 1]);
  }

  lemma RoundedIs(ds: seq<char>, num: nat, den: nat, r: nat)
    requires Produced(ds, num, den, r)
    ensures Rounded(num, den, |ds|) ==
            if 2 * r > den || (2 * r == den && Digit(ds[|ds| - 1]) % 2 == 1) then Dec(ds) + 1 else Dec(ds)
  {
    LastDigitOdd(ds);
    hide Dec, Power, Left, HalfEven, Digit;
    HalfEvenOf(num * Power(10, |ds| - 1), den, Dec(ds), r);
  }

  /** The remainder is 0. */
  lemma ZeroTest(b: Bigint)
    requires b.Valid() && b.Trimmed() && (b.wds == 0 ==> b.x.Length > 0 && b.x[0] == 0)
    ensures b.x.Length > 0 && ((b.x[0] == 0 && b.wds <= 1) <==> b.Value() == 0)
    ensures b.Value() > 0 ==> b.wds >= 1
  {
    if b.wds == 1 {
      assert b.Words() == [b.x[0]];
      ValOne(b.x[0]);
    } else if b.wds > 1 {
      ValAtLeast(b.Words());
    }
  }

  ghost predicate Divisor(S: Bigint)
    reads S`wds, S.x
  {
    S.Valid() && FourZeros(S.Words())
  }

  /** The loop for the digits. It ends with the digits that were asked for, or when nothing is left. */
  method Produce(b0: Bigint, S: Bigint, ilim: nat, buf: array<char>) returns (b: Bigint, s: nat, ghost num: nat)
    requires Full(b0) && Divisor(S) && b0 != S && b0.x != S.x && S.Value() <= b0.Value() < 10 * S.Value()
    requires 1 <= ilim <= buf.Length
    modifies b0, b0.x, buf
    ensures num == old(b0.Value())
    ensures 1 <= s <= ilim && b.Valid() && b.Trimmed() && Produced(buf[..s], num, S.Value(), b.Value())
    ensures b.x.Length > 0 && (b.x[0] == 0 && b.wds <= 1 <==> b.Value() == 0)
    ensures b.Value() == 0 ==> buf[s - 1] != '0'
    ensures b.Value() > 0 ==> s == ilim && b.wds >= 1
    ensures b != S && b.x != S.x && (b == b0 || (fresh(b) && fresh(b.x)))
  {
    hide Val, Power, Left, Produced, Producing, FourZeros;
    num := b0.Value();
    b, s := b0, 0;
    ProducingFirst(num, S.Value());
    assert buf[..0] == [];
    while true
      invariant 0 <= s < ilim && Divisor(S) && S.Value() == old(S.Value())
      invariant Full(b) && b != S && b.x != S.x && (b == b0 || (fresh(b) && fresh(b.x)))
      invariant Producing(buf[..s], num, S.Value(), b.Value())
      decreases ilim - s
    {
      ghost var ds, c := buf[..s], b.Value();
      Below(ds, num, S.Value(), c);
      var q := QuoRem(b, S);
      buf[s] := ('0' as int + q) as char;
      assert buf[..s + 1] == ds + [buf[s]];
      DigitProduced(ds, num, S.Value(), c, q, b.Value(), buf[s]);
      s := s + 1;
      ZeroTest(b);
      if b.x[0] == 0 && b.wds <= 1 { break; }
      if s >= ilim { break; }
      NextDigit(buf[..s], num, S.Value(), b.Value());
      b := MultAdd(b, 10, 0);
      ProducingPositive(buf[..s], num, S.Value(), b.Value());
      TrimmedFull(b);
    }
  }

  lemma Below(ds: seq<char>, num: nat, den: nat, c: nat)
    requires Producing(ds, num, den, c)
    ensures c < 10 * den
  {
  }

  lemma ProducingPositive(ds: seq<char>, num: nat, den: nat, c: nat)
    requires Producing(ds, num, den, c)
    ensures c > 0
  {
  }

  /** 'Round off last digit': what is left decides, and if it is just half of the divisor the digit. */
  method RoundOff(b0: Bigint, S: Bigint, buf: array<char>, s: nat, k: int, ghost num: nat) returns (s1: nat, k1: int)
    requires b0.Valid() && b0.Trimmed() && b0.wds >= 1 && Divisor(S) && b0.Value() > 0
    requires 1 <= s <= buf.Length && Produced(buf[..s], num, S.Value(), b0.Value())
    modifies buf
    ensures 1 <= s1 <= s && (k1 == k || k1 == k + 1) && k1 - k + s - s1 >= 0
    ensures Shown(buf[..s1], k1 - k + s - s1, Rounded(num, S.Value(), s))
  {
    hide Val, Power, Left, Shown, Rounded, Dec, HalfEven;
    ghost var ds := buf[..s];
    RoundedIs(ds, num, S.Value(), b0.Value());
    var b := LShift(b0, 1);
    assert Power(2, 1) == 2 by { SmallPowers(); }
    SameLengths(b.Words(), S.Words());
    var j := Cmp(b, S);
    var dig := buf[s - 1];
    if j > 0 || (j == 0 && (dig as int) % 2 == 1) {
      s1, k1 := RoundUp(buf, s, k);
    } else {
      s1 := TrimZeros(buf, s);
      k1 := k;
    }
  }

  /** The loop and what follows it: the digits of b / S, of which ilim are asked for. */
  method ShowDigits(b0: Bigint, S: Bigint, ilim: nat, k: int, buf: array<char>) returns (s: nat, k1: int)
    requires Full(b0) && Divisor(S) && b0 != S && b0.x != S.x && S.Value() <= b0.Value() < 10 * S.Value()
    requires 1 <= ilim <= buf.Length
    modifies b0, b0.x, buf
    ensures 1 <= s <= ilim && (k1 == k || k1 == k + 1) && k1 - k + ilim - s >= 0
    ensures Shown(buf[..s], k1 - k + ilim - s, Rounded(old(b0.Value()), old(S.Value()), ilim))
  {
    hide Val, Shown, Rounded, Power, Left, Produced, FourZeros, Dec, HalfEven;
    var b, s0;
    ghost var num;
    b, s0, num := Produce(b0, S, ilim, buf);
    if b.x[0] == 0 && b.wds <= 1 {
      ExactDigits(buf[..s0], num, S.Value(), ilim);
      return s0, k;
    }
    s, k1 := RoundOff(b, S, buf, s0, k, num);
  }

  // ---------- The digits are determined by the number ----------

  lemma DecSplit(ds: seq<char>)
    requires Digits(ds) && ds != []
    ensures Dec(ds) / 10 == Dec(ds[..|ds| - 1]) && Dec(ds) % 10 == Digit(ds[|ds| - 1])
  {
  }

  lemma {:induction false} DecPositive(ds: seq<char>)
    requires Digits(ds) && ds != [] && ds[0] != '0'
    ensures Dec(ds) > 0
    decreases |ds|
  {
    if |ds| > 1 { DecPositive(ds[..|ds| - 1]); }
  }

  lemma {:induction false} DecInjective(ds: seq<char>, es: seq<char>)
    requires Digits(ds) && Digits(es) && Dec(ds) == Dec(es)
    requires (ds != [] ==> ds[0] != '0') && (es != [] ==> es[0] != '0')
    ensures ds == es
    decreases |ds|
  {
    if ds != [] { DecPositive(ds); DecSplit(ds); }
    if es != [] { DecPositive(es); DecSplit(es); }
    if ds != [] && es != [] {
      var d, e := ds[..|ds| - 1], es[..|es| - 1];
      DecInjective(d, e);
      assert ds == d + [ds[|ds| - 1]] && es == e + [es[|es| - 1]];
    }
  }

  lemma NoZeroAtTheEnd(ds: seq<char>, a: nat, es: seq<char>, b: nat, v: nat)
    requires Shown(ds, a, v) && Shown(es, b, v)
    ensures a >= b
  {
    if a < b {
      PowerAdd(10, b - a, a);
      DecSplit(ds);
      hide Dec;
      assert Power(10, b - a) == 10 * Power(10, b - a - 1);
      Factor(Dec(ds), Dec(es), Power(10, b - a - 1), Power(10, a), Power(10, b));
    }
  }

  lemma Factor(d: nat, e: nat, p: nat, q: nat, r: nat)
    requires d * q == e * r && r == (10 * p) * q && q > 0
    ensures d % 10 == 0
  {
    MulAssoc(e, 10 * p, q);
    Same(d, e * (10 * p), q);
    assert e * (10 * p) == 10 * (e * p);
  }

  lemma Same(a: nat, b: nat, q: nat)
    requires a * q == b * q && q > 0
    ensures a == b
  {
    if a < b { MulStrict(a, b, q); } else if b < a { MulStrict(b, a, q); }
  }

  /** There is one way to write a number, and one exponent. */
  lemma ShownOnce(ds: seq<char>, a: nat, es: seq<char>, b: nat, v: nat)
    requires Shown(ds, a, v) && Shown(es, b, v)
    ensures ds == es && a == b
  {
    NoZeroAtTheEnd(ds, a, es, b, v);
    NoZeroAtTheEnd(es, b, ds, a, v);
    assert Power(10, a) > 0;
    Same(Dec(ds), Dec(es), Power(10, a));
    DecInjective(ds, es);
  }
}
