/** dtoa from the exact quotient on, for the modes that ask for a number of digits (dtoa.c:4084-4179, 4285-4343). */
module DtoaConvert {
  import opened Arithmetic
  import opened DtoaWords
  import opened DtoaBigint
  import opened DtoaShift
  import opened DtoaQuotient
  import opened DtoaPowers
  import opened DtoaDecimal
  import opened DtoaDigits

  // ---------- The same quotient ----------

  /** num / den, both of them times a common factor. */
  ghost predicate Scaling(b: nat, s: nat, num: nat, den: nat, c: nat) {
    b == num * c && s == den * c && c > 0 && den > 0
  }

  lemma RoundedScaled(b: nat, s: nat, num: nat, den: nat, c: nat, n: int)
    requires Scaling(b, s, num, den, c) && s > 0
    ensures Rounded(b, s, n) == Rounded(num, den, n)
  {
    hide HalfEven, Power;
    if n >= 1 {
      var p := Power(10, n - 1);
      assert (num * c) * p == (num * p) * c;
      HalfEvenScaled(num * p, den, c);
    } else {
      var p := Power(10, 1 - n);
      assert (den * c) * p == (den * p) * c;
      PowerPositive(1 - n);
      MulSign(den, p);
      HalfEvenScaled(num, den * p, c);
    }
  }

  lemma PowerPositive(n: nat)
    ensures Power(10, n) > 0
  {
  }

  lemma ScalingLess(b: nat, s: nat, num: nat, den: nat, c: nat, m: nat)
    requires Scaling(b, s, num, den, c)
    ensures (b < s <==> num < den) && (b < m * s <==> num < m * den) && (m * b < s <==> m * num < den)
  {
    ProductLess(num, den, c);
    MulAssoc(m, den, c);
    MulAssoc(m, num, c);
    ProductLess(num, m * den, c);
    ProductLess(m * num, den, c);
  }

  lemma ProductLess(a: nat, b: nat, c: nat)
    requires c > 0
    ensures a * c < b * c <==> a < b
  {
    if a < b { MulStrict(a, b, c); } else { MulLess(b, a, c); }
  }

  lemma ScalingTen(b: nat, s: nat, num: nat, den: nat, c: nat)
    requires Scaling(b, s, num, den, c)
    ensures Scaling(b * 10, s, num * 10, den, c)
  {
    assert (num * c) * 10 == (num * 10) * c;
  }

  lemma ScalingPowers(b: nat, s: nat, b5: nat, s5: nat, b2: nat, s2: nat, i: nat, p: nat, q: nat)
    requires p == b * Power(5, b5) && q == s * Power(5, s5) && s > 0
    ensures Scaling(p * Power(2, b2 + i), q * Power(2, s2 + i), p * Power(2, b2), q * Power(2, s2), Power(2, i))
  {
    PowerAdd(2, b2, i);
    PowerAdd(2, s2, i);
    MulAssoc(p, Power(2, b2), Power(2, i));
    MulAssoc(q, Power(2, s2), Power(2, i));
    MulSign(s, Power(5, s5));
    MulSign(q, Power(2, s2));
  }

  // ---------- Scaling ----------

  method ShiftIfAny(b: Bigint, k: nat) returns (r: Bigint)
    requires Full(b)
    ensures Full(r) && r.Value() == b.Value() * Power(2, k) && (r == b || (fresh(r) && fresh(r.x)))
  {
    hide Val, Power;
    r := b;
    FullPositive(b);
    if k > 0 {
      r := LShift(b, k);
    } else {
      PowerZero(b.Words());
    }
  }

  /** The divisor gets four leading zero bits, and the dividend is shifted as far. */
  method Arrange(b0: Bigint, S0: Bigint, b2: nat, s2: nat) returns (b: Bigint, S: Bigint, ghost i: nat)
    requires Full(b0) && Full(S0) && b0 != S0 && b0.x != S0.x
    ensures Full(b) && Divisor(S) && b != S && b.x != S.x
    ensures b == b0 || (fresh(b) && fresh(b.x))
    ensures S == S0 || (fresh(S) && fresh(S.x))
    ensures b.Value() == b0.Value() * Power(2, b2 + i) && S.Value() == S0.Value() * Power(2, s2 + i)
  {
    hide Val, Power, FourZeros;
    var d := DShift(S0, s2);
    b := ShiftIfAny(b0, b2 + d);
    S := ShiftIfAny(S0, s2 + d);
    i := d;
    assert FourZeros(S.Words());
  }

  method FiveTo(powers: PowerList, s5: nat) returns (S: Bigint)
    requires powers.Valid()
    modifies powers, powers.list
    ensures powers.Valid() && powers.Apart(S) && Grown(powers)
    ensures fresh(S) && fresh(S.x) && Full(S) && S.Value() == 1 * Power(5, s5)
  {
    hide Val, Power, PowerList.Valid;
    S := FromInt(1);
    TrimmedFull(S);
    if s5 > 0 { S := Pow5Mult(powers, S, s5); } else { FiveNone(1); }
  }

  /** b times 2^b2 and 5^b5, divided by 2^s2 and 5^s5, with a divisor fit for quorem. */
  method Quotient(powers: PowerList, b0: Bigint, b2: nat, b5: nat, s2: nat, s5: nat) returns (b: Bigint, S: Bigint, ghost c: nat)
    requires powers.Valid() && Full(b0) && powers.Apart(b0)
    modifies powers, powers.list, b0, b0.x
    ensures powers.Valid() && powers.Apart(b) && powers.Apart(S) && Full(b) && Divisor(S) && b != S && b.x != S.x
    ensures fresh(S) && fresh(S.x) && (b == b0 || (fresh(b) && fresh(b.x)))
    ensures Scaling(b.Value(), S.Value(), Numerator(old(b0.Value()), b2, b5), Numerator(1, s2, s5), c)
  {
    hide Val, Power, Scaling, FourZeros, PowerList.Valid;
    ghost var v := b0.Value();
    b := b0;
    if b5 > 0 { b := Pow5Mult(powers, b0, b5); } else { FiveNone(v); }
    ghost var p := b.Value();
    assert forall h :: 0 <= h < |powers.list| ==> powers.list[h] in old(powers.list) || fresh(powers.list[h]);
    S := FiveTo(powers, s5);
    ghost var q := S.Value();
    ghost var i;
    b, S, i := Arrange(b, S, b2, s2);
    ScalingPowers(v, 1, b5, s5, b2, s2, i, p, q);
    c := Power(2, i);
  }

  lemma FiveNone(v: nat)
    ensures v == v * Power(5, 0)
  {
  }

  /** b * 5^b5 * 2^b2 */
  function Numerator(b: nat, b2: nat, b5: nat): nat {
    MulSign(b, Power(5, b5));
    MulSign(b * Power(5, b5), Power(2, b2));
    (b * Power(5, b5)) * Power(2, b2)
  }

  // ---------- The whole ----------

  /** The exponent was estimated one too big. */
  predicate Botched(num: nat, den: nat, check: bool) {
    check && num < den
  }

  lemma NoDigits(num: nat, den: nat, n: int)
    requires 0 < num < 10 * den
    ensures n < 0 ==> Rounded(num, den, n) == 0
    ensures n == 0 ==> Rounded(num, den, n) == if num > 5 * den then 1 else 0
  {
    if n <= 0 {
      var p := Power(10, 1 - n);
      assert p == 10 * Power(10, -n);
      assert n < 0 ==> p >= 100 by { if n < 0 { assert Power(10, -n) == 10 * Power(10, -n - 1); } }
      hide Power, HalfEven;
      NoDigitsOf(num, den, p);
      HalfEvenOf(num, den * p, 0, num);
    }
  }

  lemma NoDigitsOf(num: nat, den: nat, p: nat)
    requires 0 < num < 10 * den && p >= 10
    ensures Left(num, den * p, 0, num) && num < den * p
    ensures p == 10 ==> den * p == 10 * den
    ensures p >= 100 ==> 2 * num < den * p
  {
    MulLess(10, p, den);
    if p >= 100 { MulLess(100, p, den); }
  }

  /** One digit or none: the number is at least half of the next power of ten, or it is not. */
  method AtMostOne(b: Bigint, S0: Bigint, ilim: int, k: int, ndigits: int, buf: array<char>) returns (s: nat, k1: int)
    requires Full(b) && Divisor(S0) && b != S0 && b.x != S0.x && 0 < b.Value() < 10 * S0.Value() && ilim <= 0 && buf.Length >= 1
    modifies S0, S0.x, buf
    ensures (s == 0 && k1 == -1 - ndigits && Rounded(b.Value(), old(S0.Value()), ilim) == 0)
            || (s == 1 && k1 == k + 1 && ilim == 0 && Shown(buf[..1], 0, Rounded(b.Value(), old(S0.Value()), ilim)))
  {
    hide Val, Rounded, Power;
    ghost var den := S0.Value();
    NoDigits(b.Value(), den, ilim);
    if ilim < 0 { return 0, -1 - ndigits; }
    var S := MultAdd(S0, 5, 0);
    SameLengths(b.Words(), S.Words());
    var j := Cmp(b, S);
    if j <= 0 { return 0, -1 - ndigits; }
    buf[0] := '1';
    assert buf[..1] == ['1'];
    OneDigit();
    assert Power(10, 0) == 1 by { TenNone(); }
    return 1, k + 1;
  }

  lemma TenNone()
    ensures Power(10, 0) == 1
  {
  }

  /** The number num / den, which is less than 10 and times 10^k the one that was asked for, is written with n digits:
      k1 + 1 is where the decimal point goes. No digits are written for a number that is rounded to 0. */
  ghost predicate Written(ds: seq<char>, k1: int, num: nat, den: nat, n: int, k: int, ndigits: int)
    requires den > 0
  {
    if Rounded(num, den, n) == 0 then ds == [] && k1 == -1 - ndigits
    else
      var after := k1 - k + n - |ds|;
      after >= 0 && (k1 == k || k1 == k + 1) && Shown(ds, after, Rounded(num, den, n))
  }

  lemma ShownPositive(ds: seq<char>, after: nat, v: nat)
    requires Shown(ds, after, v)
    ensures v > 0
  {
    DecPush(ds[..|ds| - 1], ds[|ds| - 1]);
    assert ds == ds[..|ds| - 1] + [ds[|ds| - 1]];
    hide Dec;
    PowerPositive(after);
    MulSign(Dec(ds), Power(10, after));
  }

  /** Modes 2 and 3. ilim is how many digits are wanted if k is the exponent, ilim1 how many if it is k - 1. */
  method Convert(powers: PowerList, b0: Bigint, b2: nat, b5: nat, s2: nat, s5: nat, k0: int, check: bool, ilim0: int, ilim1: int, mode: nat, ndigits: int, buf: array<char>)
    returns (s: nat, k: int)
    requires powers.Valid() && Full(b0) && powers.Apart(b0)
    requires mode == 2 || mode == 3
    requires mode == 2 ==> ilim0 == ilim1 >= 1
    requires mode == 3 ==> ilim1 == ilim0 - 1
    requires ilim0 < buf.Length && 1 < buf.Length
    requires var num, den := Numerator(b0.Value(), b2, b5), Numerator(1, s2, s5);
             num < 10 * den && (if check then den <= 10 * num else den <= num)
    modifies powers, powers.list, b0, b0.x, buf
    ensures powers.Valid() && 0 <= s < buf.Length && buf[s] == '\0'
    ensures var num, den := Numerator(old(b0.Value()), b2, b5), Numerator(1, s2, s5);
            && den > 0
            && (Botched(num, den, check) ==> Written(buf[..s], k, 10 * num, den, ilim1, k0 - 1, ndigits))
            && (!Botched(num, den, check) ==> Written(buf[..s], k, num, den, ilim0, k0, ndigits))
  {
    hide Val, Power, Scaling, FourZeros, PowerList.Valid, Rounded, Shown, Numerator, Written;
    ghost var num, den := Numerator(b0.Value(), b2, b5), Numerator(1, s2, s5);
    ghost var c;
    var b, S;
    b, S, c := Quotient(powers, b0, b2, b5, s2, s5);
    var ilim := ilim0;
    k := k0;
    ScalingLess(b.Value(), S.Value(), num, den, c, 10);
    DivisorFull(S);
    if check {
      SameLengths(b.Words(), S.Words());
      var j := Cmp(b, S);
      if j < 0 {
        k := k - 1;
        ScalingTen(b.Value(), S.Value(), num, den, c);
        b := MultAdd(b, 10, 0);
        TrimmedFull(b);
        num := num * 10;
        ilim := ilim1;
      }
    }
    s, k := Digitize(b, S, mode, ilim, k, ndigits, buf, num, den, c);
  }

  lemma DivisorFull(S: Bigint)
    requires Divisor(S)
    ensures Full(S)
  {
  }

  /** From here on the exponent is right. */
  method Digitize(b: Bigint, S: Bigint, mode: nat, ilim: int, k0: int, ndigits: int, buf: array<char>, ghost num: nat, ghost den: nat, ghost c: nat)
    returns (s: nat, k: int)
    requires Full(b) && Divisor(S) && b != S && b.x != S.x
    requires Scaling(b.Value(), S.Value(), num, den, c) && den > 0 && S.Value() <= b.Value() < 10 * S.Value()
    requires ilim < buf.Length && 1 < buf.Length && (mode == 3 || (mode == 2 && ilim >= 1))
    modifies b, b.x, S, S.x, buf
    ensures 0 <= s < buf.Length && buf[s] == '\0' && Written(buf[..s], k, num, den, ilim, k0, ndigits)
  {
    hide Val, Power, Scaling, FourZeros, Rounded, Shown;
    FullPositive(b);
    ScalingPositive(b.Value(), S.Value(), num, den, c);
    RoundedScaled(b.Value(), S.Value(), num, den, c, ilim);
    if ilim <= 0 && mode == 3 {
      s, k := AtMostOne(b, S, ilim, k0, ndigits, buf);
    } else {
      s, k := ShowDigits(b, S, ilim, k0, buf);
    }
    ghost var ds := buf[..s];
    if s > 0 { ShownPositive(ds, k - k0 + ilim - s, Rounded(num, den, ilim)); }
    buf[s] := '\0';
    assert buf[..s] == ds;
  }

  lemma ScalingPositive(b: nat, s: nat, num: nat, den: nat, c: nat)
    requires Scaling(b, s, num, den, c)
    ensures s > 0
  {
    MulSign(den, c);
  }
}
