/** Decimal digits, and the rounded number they are to show. */
module DtoaDecimal {
  import opened Arithmetic
  import opened DtoaQuotient

  predicate Digits(ds: seq<char>) {
    forall i :: 0 <= i < |ds| ==> '0' <= ds[i] <= '9'
  }

  function Digit(c: char): nat
    requires '0' <= c <= '9'
  {
    c as int - '0' as int
  }

  function Dec(ds: seq<char>): nat
    requires Digits(ds)
    decreases |ds|
  {
    if ds == [] then 0 else 10 * Dec(ds[..|ds| - 1]) + Digit(ds[|ds| - 1])
  }

  lemma DecPush(ds: seq<char>, c: char)
    requires Digits(ds) && '0' <= c <= '9'
    ensures Digits(ds + [c]) && Dec(ds + [c]) == 10 * Dec(ds) + Digit(c)
  {
    assert (ds + [c])[..|ds|] == ds;
  }

  lemma {:induction false} DecZeros(ds: seq<char>, n: nat)
    requires Digits(ds) && n <= |ds| && forall i :: n <= i < |ds| ==> ds[i] == '0'
    ensures Digits(ds[..n]) && Dec(ds) == Dec(ds[..n]) * Power(10, |ds| - n)
    decreases |ds|
  {
    if n == |ds| {
      assert ds[..n] == ds;
    } else {
      var shorter := ds[..|ds| - 1];
      DecZeros(shorter, n);
      assert shorter[..n] == ds[..n];
      TenTimesMore(Dec(shorter), Dec(ds[..n]), Power(10, |ds| - 1 - n));
    }
  }

  lemma TenTimesMore(a: nat, b: nat, p: nat)
    requires a == b * p
    ensures 10 * a == b * (10 * p)
  {
  }

  /** Nines at the end, and one more: they become zeros, and the digit in front of them goes up. */
  lemma {:induction false} DecNines(ds: seq<char>, n: nat)
    requires Digits(ds) && n <= |ds| && forall i :: n <= i < |ds| ==> ds[i] == '9'
    ensures Digits(ds[..n]) && Dec(ds) + 1 == (Dec(ds[..n]) + 1) * Power(10, |ds| - n)
    decreases |ds|
  {
    if n == |ds| {
      assert ds[..n] == ds;
    } else {
      var shorter := ds[..|ds| - 1];
      DecNines(shorter, n);
      assert shorter[..n] == ds[..n];
      TenTimesMore(Dec(shorter) + 1, Dec(ds[..n]) + 1, Power(10, |ds| - 1 - n));
    }
  }

  // ---------- Rounding half to even ----------

  /** The integer nearest to n / d; of two that are equally near, the even one. */
  function HalfEven(n: nat, d: nat): nat
    requires d > 0
  {
    var q, r := n / d, n % d;
    if 2 * r > d || (2 * r == d && q % 2 == 1) then q + 1 else q
  }

  function Distance(a: int, b: int): nat {
    if a < b then b - a else a - b
  }

  lemma HalfEvenOf(n: nat, d: nat, q: nat, r: nat)
    requires Left(n, d, q, r) && r < d
    ensures HalfEven(n, d) == if 2 * r > d || (2 * r == d && q % 2 == 1) then q + 1 else q
  {
    QuotientIs(n, d, q, r);
  }

  lemma Divided(n: nat, d: nat) returns (q: nat, r: nat)
    requires d > 0
    ensures Left(n, d, q, r) && r < d
  {
    q, r := n / d, n % d;
    assert n == d * q + r;
  }

  lemma Multiples(m: nat, q: nat, d: nat)
    ensures m < q ==> m * d + d <= q * d
    ensures (q + 1) * d == q * d + d && (m > q + 1 ==> m * d >= q * d + 2 * d)
  {
    if m < q {
      MulLess(m + 1, q, d);
    } else if m > q + 1 {
      MulLess(q + 2, m, d);
    }
  }

  /** No other integer is nearer, and if one is as near, the result is even. */
  lemma HalfEvenNearest(n: nat, d: nat, m: nat)
    requires d > 0
    ensures var h := HalfEven(n, d);
            && Distance(n, h * d) <= Distance(n, m * d)
            && (Distance(n, h * d) == Distance(n, m * d) ==> m == h || h % 2 == 0)
  {
    hide HalfEven;
    var q, r := Divided(n, d);
    HalfEvenOf(n, d, q, r);
    Multiples(m, q, d);
    NearestOf(n, d, q, r, m, HalfEven(n, d), q * d, m * d);
  }

  lemma NearestOf(n: nat, d: nat, q: nat, r: nat, m: nat, h: nat, qd: nat, md: nat)
    requires d > 0 && n == qd + r && r < d && h == if 2 * r > d || (2 * r == d && q % 2 == 1) then q + 1 else q
    requires (m < q ==> md + d <= qd) && (m == q ==> md == qd) && (m == q + 1 ==> md == qd + d)
    requires m > q + 1 ==> md >= qd + 2 * d
    ensures var hd := if h == q then qd else qd + d;
            && Distance(n, hd) <= Distance(n, md)
            && (Distance(n, hd) == Distance(n, md) ==> m == h || h % 2 == 0)
  {
  }

  /** The same number, written with another denominator. */
  lemma HalfEvenScaled(n: nat, d: nat, c: nat)
    requires d > 0 && c > 0
    ensures d * c > 0 && HalfEven(n * c, d * c) == HalfEven(n, d)
  {
    var q, r := Divided(n, d);
    HalfEvenOf(n, d, q, r);
    ScaledLeft(n, d, c, q, r);
    HalfEvenOf(n * c, d * c, q, r * c);
    ScaledHalf(r, d, c);
  }

  lemma ScaledLeft(n: nat, d: nat, c: nat, q: nat, r: nat)
    requires n == q * d + r && r < d && c > 0
    ensures Left(n * c, d * c, q, r * c) && r * c < d * c && d * c > 0
  {
    assert (q * d) * c == q * (d * c);
    MulStrict(r, d, c);
    MulSign(d, c);
  }

  lemma ScaledHalf(r: nat, d: nat, c: nat)
    requires c > 0
    ensures (2 * r > d <==> 2 * (r * c) > d * c) && (2 * r == d <==> 2 * (r * c) == d * c)
  {
    assert 2 * (r * c) == (2 * r) * c;
    if 2 * r > d {
      MulStrict(d, 2 * r, c);
    } else if 2 * r < d {
      MulStrict(2 * r, d, c);
    }
  }

  /** n digits of a number between 1 and 10, as an integer; no digits or fewer than none of it are taken too. */
  function Rounded(num: nat, den: nat, n: int): nat
    requires den > 0
  {
    if n >= 1 then HalfEven(num * Power(10, n - 1), den)
    else
      MulSign(den, Power(10, 1 - n));
      HalfEven(num, den * Power(10, 1 - n))
  }
}
