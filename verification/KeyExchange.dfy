/** Multiplication and powers modulo the greatest 64-bit prime, in words that wrap around (lcrypt.c:632-676). */
module KeyExchange {
  import opened Arithmetic
  import opened Basics

  const WRAP := 0x1_0000_0000_0000_0000
  const P := 0xffff_ffff_ffff_ffc5

  type U64 = x: int | 0 <= x < WRAP

  /** Arithmetic on uint64_t. */
  function Wrap(x: int): U64 {
    x % WRAP
  }

  lemma WrapIs(x: int)
    requires -WRAP <= x < 2 * WRAP
    ensures Wrap(x) == if x < 0 then x + WRAP else if x < WRAP then x else x - WRAP
  {
  }

  // ---------- Remainders ----------

  lemma Multiple(r: int, k: int)
    ensures (r + P * k) % P == r % P
  {
  }

  lemma ModMul(x: nat, y: nat)
    ensures ((x % P) * y) % P == (x * y) % P && (x * (y % P)) % P == (x * y) % P
  {
    var k, h := x / P, y / P;
    assert x == P * k + x % P && y == P * h + y % P;
    assert x * y == (x % P) * y + P * (k * y) by { Distribute(P, k, x % P, y); }
    assert x * y == x * (y % P) + P * (h * x) by { Distribute(P, h, y % P, x); }
    Multiple((x % P) * y, k * y);
    Multiple(x * (y % P), h * x);
  }

  lemma Distribute(p: int, k: int, r: int, y: int)
    ensures (p * k + r) * y == r * y + p * (k * y)
  {
  }

  /** One bit of b. */
  lemma BitStep(m: nat, a: nat, b: nat, m1: nat, a1: nat, k: int, h: int)
    requires m1 == m + (if b % 2 == 1 then a else 0) - P * k && a1 == 2 * a - P * h
    ensures (m1 + a1 * (b / 2)) % P == (m + a * b) % P
  {
    var c := b / 2;
    assert b == 2 * c + b % 2;
    assert a * b == (2 * a) * c + (if b % 2 == 1 then a else 0) by { SplitBit(a, c, b); }
    assert (2 * a - P * h) * c == (2 * a) * c - P * (h * c);
    assert m + a * b == (m1 + a1 * c) + P * (k + h * c);
    Multiple(m1 + a1 * c, k + h * c);
  }

  lemma SplitBit(a: int, c: int, b: int)
    requires b == 2 * c + b % 2
    ensures a * b == (2 * a) * c + (if b % 2 == 1 then a else 0)
  {
    assert a * (2 * c) == (2 * a) * c;
    if b % 2 == 1 { assert a * (2 * c + 1) == a * (2 * c) + a; }
  }

  /** What is still to be added is the product a * b. */
  ghost predicate Owed(m: nat, a: nat, b: nat, wanted: nat) {
    (m + a * b) % P == wanted
  }

  lemma OwedStep(m: nat, a: nat, b: nat, m1: nat, a1: nat, wanted: nat)
    requires Owed(m, a, b, wanted)
    requires m1 == (if b % 2 == 1 then m + a else m) || m1 == (if b % 2 == 1 then m + a else m) - P
    requires a1 == 2 * a || a1 == 2 * a - P
    ensures Owed(m1, a1, b / 2, wanted)
  {
    var sum := if b % 2 == 1 then m + a else m;
    BitStep(m, a, b, m1, a1, if m1 == sum then 0 else 1, if a1 == 2 * a then 0 else 1);
  }

  lemma OwedFirst(a: nat, b: nat)
    ensures Owed(0, a, b, Times(a, b))
  {
  }

  lemma OwedEnds(m: nat, a: nat, wanted: nat)
    requires Owed(m, a, 0, wanted) && m < P
    ensures m == wanted
  {
  }

  /** The product modulo P. */
  function Times(x: nat, y: nat): nat {
    (x * y) % P
  }

  /** One round of mul_mod_p: no sum leaves the word. */
  method MulStep(m0: U64, a0: U64, b: U64) returns (m: U64, a: U64)
    requires a0 <= P && m0 < P
    ensures a <= P && m < P
    ensures m == (if b % 2 == 1 then m0 + a0 else m0) || m == (if b % 2 == 1 then m0 + a0 else m0) - P
    ensures a == 2 * a0 || a == 2 * a0 - P
  {
    hide Wrap;
    m, a := m0, a0;
    WrapIs(P - a);
    if b % 2 == 1 {
      var t := Wrap(P - a);
      WrapIs(m - t);
      WrapIs(m + a);
      if m >= t { m := Wrap(m - t); } else { m := Wrap(m + a); }
    }
    WrapIs(a * 2);
    WrapIs(Wrap(a * 2) - P);
    if a >= Wrap(P - a) {
      a := Wrap(Wrap(a * 2) - P);
    } else {
      a := Wrap(a * 2);
    }
  }

  /** mul_mod_p: the sums that would leave the word are taken modulo P on the way. */
  method MulModP(a0: U64, b0: U64) returns (m: U64)
    requires a0 <= P
    ensures m == Times(a0, b0)
  {
    hide Owed, Times;
    var a: U64, b: U64 := a0, b0;
    m := 0;
    OwedFirst(a0, b0);
    while b > 0
      invariant a <= P && m < P
      invariant Owed(m, a, b, Times(a0, b0))
      decreases b
    {
      var m1, a1 := MulStep(m, a, b);
      OwedStep(m, a, b, m1, a1, Times(a0, b0));
      m, a, b := m1, a1, b / 2;
    }
    OwedEnds(m, a, Times(a0, b0));
  }

  /** What powmodp returns: only P to the power of 1 is not taken modulo P. */
  function PowMod(a: nat, b: nat): nat {
    if a == P && b == 1 then P else Power(a, b) % P
  }

  lemma {:induction false} ReducedBase(a: nat, b: nat)
    ensures Power(a % P, b) % P == Power(a, b) % P
    decreases b
  {
    if b > 0 {
      ReducedBase(a, b - 1);
      ModMul(a % P, Power(a % P, b - 1));
      ModMul(a % P, Power(a, b - 1));
      ModMul(a, Power(a, b - 1));
    }
  }

  lemma PowOne(a: nat)
    ensures Power(a, 1) == a
  {
    assert Power(a, 1) == a * Power(a, 0);
  }

  lemma {:induction false} PowerOfP(b: nat)
    requires b > 0
    ensures Power(P, b) % P == 0
  {
    Multiple(0, Power(P, b - 1));
  }

  lemma TimesMod(x: nat, y: nat)
    ensures Times(x % P, y) == Times(x, y) && Times(x, y % P) == Times(x, y)
  {
    ModMul(x, y);
  }

  /** Squaring, and once more for an odd exponent. */
  lemma SquareStep(a: nat, b: nat, t: nat)
    requires a <= P && b > 1 && t == PowMod(a, b / 2)
    ensures t <= P
    ensures PowMod(a, b) == if b % 2 == 1 then Times(Times(t, t), a) else Times(t, t)
  {
    var h := Power(a, b / 2);
    PowOne(a);
    PowerAdd(a, b / 2, b / 2);
    PowerAdd(a, 2 * (b / 2), b % 2);
    assert Power(a, 0) == 1;
    assert t == h || t == h % P;
    hide Power;
    assert PowMod(a, b) == Power(a, b) % P;
    assert Power(a, b) == if b % 2 == 1 then (h * h) * a else h * h;
    hide PowMod;
    SquareIs(h, a, t, Power(a, b), b % 2 == 1);
  }

  lemma SquareIs(h: nat, a: nat, t: nat, all: nat, odd: bool)
    requires (t == h || t == h % P) && all == if odd then (h * h) * a else h * h
    ensures all % P == if odd then Times(Times(t, t), a) else Times(t, t)
  {
    assert h * h % P == Times(h, h);
    assert (h * h) * a % P == Times(h * h, a);
    TimesMod(h * h, a);
    TimesMod(h, h);
    TimesMod(h, h % P);
    hide Times;
  }

  // ---------- When pow_mod_p returns ----------

  /** pow_mod_p calls itself with half the exponent until that is 1: it returns within so many calls. */
  predicate Returns(b: nat, depth: nat)
    decreases depth
  {
    b == 1 || (depth > 0 && Returns(b / 2, depth - 1))
  }

  lemma {:induction false} ZeroNeverReturns(depth: nat)
    ensures !Returns(0, depth)
    decreases depth
  {
    if depth > 0 { ZeroNeverReturns(depth - 1); }
  }

  lemma {:induction false} HalvingReturns(b: nat, depth: nat)
    requires 0 < b < 2 * Power(2, depth)
    ensures Returns(b, depth)
    decreases depth
  {
    if b != 1 { HalvingReturns(b / 2, depth - 1); }
  }

  lemma SomePowerAbove(b: nat) returns (depth: nat)
    ensures b < 2 * Power(2, depth)
  {
    depth := 0;
    while b >= 2 * Power(2, depth)
      decreases b - Power(2, depth)
    {
      depth := depth + 1;
    }
  }

  /** pow_mod_p returns exactly for exponents other than 0. */
  lemma ReturnsExactly(b: nat)
    ensures (exists depth: nat :: Returns(b, depth)) <==> b != 0
  {
    forall depth: nat | b == 0 ensures !Returns(b, depth) { ZeroNeverReturns(depth); }
    if b != 0 {
      var enough := SomePowerAbove(b);
      HalvingReturns(b, enough);
      hide Returns;
      assert exists depth: nat :: Returns(b, depth);
    }
  }

  /** For 64-bit exponents 63 calls are enough; for 0 no number is. */
  lemma DeepEnough(b: U64, depth: nat)
    requires depth >= 63
    ensures Returns(b, depth) <==> b != 0
  {
    if b == 0 {
      ZeroNeverReturns(depth);
    } else {
      Power63();
      PowerGrows(2, 63, depth);
      HalvingReturns(b, depth);
    }
  }

  lemma Power63()
    ensures 2 * Power(2, 63) == WRAP
  {
    assert Power(2, 2) == 2 * Power(2, 1) && Power(2, 3) == 2 * Power(2, 2) && Power(2, 7) == 128;
    assert Power(2, 14) == 0x4000 by { PowerAdd(2, 7, 7); }
    assert Power(2, 28) == 0x1000_0000 by { PowerAdd(2, 14, 14); }
    assert Power(2, 56) == 0x100_0000_0000_0000 by { PowerAdd(2, 28, 28); }
    PowerAdd(2, 56, 7);
  }

  /** The modulus is 59 less than 2 to the power of 64. */
  lemma PIs()
    ensures P == Power(2, 64) - 59
  {
    Power63();
  }

  /** pow_mod_p, on a stack with room for so many calls behind this one; None is a stack that overflows. */
  method PowModP(a: U64, b: U64, depth: nat) returns (r: Option<U64>)
    requires a <= P
    ensures r.Some? <==> Returns(b, depth)
    ensures r.Some? ==> r.value == PowMod(a, b)
    decreases depth
  {
    if b == 1 {
      PowOne(a);
      return Some(a);
    }
    if depth == 0 { return None; }
    r := PowModP(a, b / 2, depth - 1);
    if r.None? { return None; }
    if b == 0 { ZeroNeverReturns(depth - 1); }
    SquareStep(a, b, r.value);
    var t := MulModP(r.value, r.value);
    if b % 2 == 1 { t := MulModP(t, a); }
    r := Some(t);
  }

  /** powmodp: with the exponent 0 it never returns, and it does not reduce the base P itself. */
  method PowModp(a0: U64, b: U64, depth: nat) returns (r: Option<U64>)
    ensures r.Some? <==> Returns(b, depth)
    ensures depth >= 63 ==> (r.Some? <==> b != 0)
    ensures r.Some? ==> r.value == PowMod(a0, b) && (r.value == Power(a0, b) % P <==> !(a0 == P && b == 1))
  {
    var a := a0;
    if a > P { a := a % P; }
    ReducedBase(a0, b);
    PowOne(a0);
    if depth >= 63 { DeepEnough(b, depth); }
    r := PowModP(a, b, depth);
    if b == 0 { ZeroNeverReturns(depth); }
  }

  /** Both sides come to the same key. */
  lemma KeysAgree(g: nat, x: nat, y: nat)
    requires x >= 1 && y >= 1
    ensures PowMod(PowMod(g, x), y) == PowMod(PowMod(g, y), x)
  {
    KeyIs(g, x, y);
    KeyIs(g, y, x);
    PowerPower(g, x, y);
    PowerPower(g, y, x);
    assert x * y == y * x;
    if x * y == 1 { OneOne(x, y); }
    if g == P && (x == 1) != (y == 1) { PowerOfP(x * y); }
  }

  lemma OneOne(x: nat, y: nat)
    requires x >= 1 && y >= 1 && x * y == 1
    ensures x == 1 && y == 1
  {
    if x > 1 { MulLess(2, x, y); }
  }

  lemma KeyIs(g: nat, x: nat, y: nat)
    requires x >= 1 && y >= 1
    ensures PowMod(PowMod(g, x), y) == if g == P && x == 1 && y == 1 then P else Power(Power(g, x), y) % P
  {
    PowOne(g);
    ReducedBase(Power(g, x), y);
  }
}
