/** Big integers and their arithmetic (dtoa.c:533-667, 788-913, the branches with ULLong and Pack_32). */
module DtoaBigint {
  import opened Arithmetic
  import opened DtoaWords

  /** Arithmetic on ULLong. */
  function U64(y: int): nat {
    y % WRAP
  }

  /** What is behind the words in use is arbitrary. */
  class Bigint {
    const k: nat
    const x: array<Word>
    var sign: nat
    var wds: nat
    var next: Bigint?

    ghost predicate Valid()
      reads this`wds
    {
      x.Length == Power(2, k) && wds <= x.Length
    }

    ghost function Words(): seq<Word>
      reads this`wds, x
      requires Valid()
    {
      x[..wds]
    }

    ghost function Value(): nat
      reads this`wds, x
      requires Valid()
    {
      Val(Words())
    }

    /** No leading zero, unless it is the only word. */
    ghost predicate Trimmed()
      reads this`wds, x
      requires Valid()
    {
      wds > 1 ==> x[wds - 1] != 0
    }

    /** Balloc */
    constructor (k: nat)
      ensures Valid() && this.k == k && fresh(x) && sign == 0 && wds == 0 && next == null
    {
      this.k := k;
      this.x := new Word[Power(2, k)];
      sign, wds, next := 0, 0, null;
    }
  }

  /** i2b */
  method FromInt(i: Word) returns (b: Bigint)
    ensures fresh(b) && fresh(b.x) && b.Valid() && b.Trimmed() && b.wds == 1 && b.Value() == i && b.next == null
  {
    b := new Bigint(1);
    assert Power(2, 1) == 2 * Power(2, 0);
    b.x[0] := i;
    b.wds := 1;
    assert b.x[..1] == [i];
    ValOne(i);
  }

  method Copy(b1: Bigint, b: Bigint)
    requires b.Valid() && b1.Valid() && b1 != b && b1.x != b.x && b.wds <= b1.x.Length
    modifies b1, b1.x
    ensures b1.Valid() && b1.sign == b.sign && b1.wds == b.wds && b1.Words() == b.Words() && b1.next == old(b1.next)
  {
    b1.sign, b1.wds := b.sign, b.wds;
    var i := 0;
    while i < b.wds
      invariant 0 <= i <= b.wds
      invariant b1.x[..i] == b.x[..i]
      modifies b1.x
    {
      b1.x[i] := b.x[i];
      i := i + 1;
    }
  }

  // ---------- Multiply by a small number and add another ----------

  const INT_MAX := 0x7fff_ffff

  /** The words v stand for u times m plus a, but for a carry. */
  ghost predicate Scaled(v: seq<Word>, carry: int, u: seq<Word>, m: nat, a: nat) {
    Val(v) + Power(BASE, |v|) * carry == Val(u) * m + a
  }

  lemma ScaledStep(v: seq<Word>, w: Word, u: seq<Word>, d: Word, m: nat, a: nat, carry: nat, carry2: nat)
    requires |v| == |u| && Scaled(v, carry, u, m, a) && d + BASE * carry2 == w * m + carry
    ensures Scaled(v + [d], carry2, u + [w], m, a)
  {
    ValAppend(v, [d]);
    ValAppend(u, [w]);
    ValOne(d);
    ValOne(w);
    PowerAdd(BASE, |v|, 1);
    assert Power(BASE, 1) == BASE;
    AddStep(Power(BASE, |v|), Val(v), Val(u), m, w, carry, d, carry2, a);
  }

  lemma AddStep(P: nat, v: int, u: int, m: nat, w: int, carry: int, d: int, carry2: int, a: int)
    requires v + P * carry == u * m + a && d + BASE * carry2 == w * m + carry
    ensures (v + P * d) + (P * BASE) * carry2 == (u + P * w) * m + a
  {
    assert P * (d + BASE * carry2) == P * (w * m + carry);
    assert P * (BASE * carry2) == (P * BASE) * carry2;
    assert P * (w * m) == (P * w) * m;
  }

  /** One word is multiplied; the carry stays small. */
  lemma SmallCarry(w: Word, m: nat, carry: nat, y: nat)
    requires m <= INT_MAX && carry <= INT_MAX && y == U64(w * m + carry)
    ensures y == w * m + carry && 0 <= y / BASE <= INT_MAX && y % BASE + BASE * (y / BASE) == w * m + carry
    ensures y / BASE == 0 && m > 0 && w != 0 ==> y % BASE != 0
  {
    MulLess(w, BASE - 1, m);
    assert w * m + carry < BASE * (m + 1);
    if m > 0 && w != 0 { MulLess(1, w, m); }
  }

  /** The loop of multadd: every word is multiplied, and the carry goes on to the next. */
  method MulWords(x: array<Word>, wds: nat, m: nat, a: nat) returns (carry: nat)
    requires 1 <= wds <= x.Length && m <= INT_MAX && a <= INT_MAX
    modifies x
    ensures Scaled(x[..wds], carry, old(x[..wds]), m, a) && carry <= INT_MAX && x[wds..] == old(x[wds..])
    ensures carry == 0 && m > 0 && old(x[wds - 1]) != 0 ==> x[wds - 1] != 0
  {
    hide Scaled;
    var i := 0;
    carry := a;
    ghost var was := x[..];
    assert Scaled([], carry, [], m, a) by { EmptyScaled(m, a); }
    assert x[..0] == [] == was[..0];
    while true
      invariant 0 <= i < wds && carry <= INT_MAX
      invariant Scaled(x[..i], carry, was[..i], m, a)
      invariant x[i..] == was[i..]
      decreases wds - i
    {
      ghost var v, w, c := x[..i], x[i], carry;
      assert w == x[i..][0] == was[i..][0];
      var y := U64(x[i] * m + carry);
      SmallCarry(w, m, carry, y);
      carry := y / BASE;
      x[i] := y % BASE;
      ScaledStep(v, w, was[..i], x[i], m, a, c, carry);
      assert x[..i + 1] == v + [x[i]] && was[..i + 1] == was[..i] + [w];
      i := i + 1;
      assert x[i..] == was[i..];
      if i >= wds { break; }
    }
  }

  lemma EmptyScaled(m: nat, a: nat)
    ensures Scaled([], a, [], m, a)
  {
  }

  /** The carry is the top word. */
  lemma ScaledTop(v: seq<Word>, carry: Word, u: seq<Word>, m: nat, a: nat)
    requires Scaled(v, carry, u, m, a)
    ensures Val(v + [carry]) == Val(u) * m + a && (carry == 0 ==> Val(v) == Val(u) * m + a)
  {
    ValAppend(v, [carry]);
    ValOne(carry);
  }

  /** multadd */
  method MultAdd(b: Bigint, m: nat, a: nat) returns (r: Bigint)
    requires b.Valid() && b.wds >= 1 && m <= INT_MAX && a <= INT_MAX
    modifies b, b.x
    ensures r.Valid() && r.wds >= 1 && r.Value() == old(b.Value()) * m + a
    ensures old(b.Trimmed()) && m > 0 ==> r.Trimmed()
    ensures r == b || (fresh(r) && fresh(r.x))
  {
    hide Scaled;
    r := b;
    ghost var u := b.Words();
    var carry := MulWords(b.x, b.wds, m, a);
    ghost var v := b.Words();
    ScaledTop(v, carry, u, m, a);
    if carry > 0 {
      if b.wds >= b.x.Length {
        r := new Bigint(b.k + 1);
        Copy(r, b);
      }
      r.x[r.wds] := carry;
      r.wds := r.wds + 1;
      assert r.Words() == v + [carry];
    }
  }

  // ---------- Multiply ----------

  /** The words v stand for u plus y times a, but for a carry. */
  ghost predicate Added(v: seq<Word>, carry: int, u: seq<Word>, y: nat, a: seq<Word>) {
    Val(v) + Power(BASE, |v|) * carry == Val(u) + y * Val(a)
  }

  lemma AddedStep(v: seq<Word>, carry: nat, u: seq<Word>, y: nat, a: seq<Word>, ai: Word, ci: Word, w: Word, carry2: nat)
    requires |v| == |u| == |a| && Added(v, carry, u, y, a) && w + BASE * carry2 == ai * y + ci + carry
    ensures Added(v + [w], carry2, u + [ci], y, a + [ai])
  {
    ValAppend(v, [w]);
    ValAppend(u, [ci]);
    ValAppend(a, [ai]);
    ValOne(w);
    ValOne(ci);
    ValOne(ai);
    PowerAdd(BASE, |v|, 1);
    assert Power(BASE, 1) == BASE;
    RowStep(Power(BASE, |v|), Val(v), Val(u), Val(a), y, ai, ci, carry, w, carry2);
  }

  lemma RowStep(P: nat, v: int, u: int, A: int, y: nat, ai: int, ci: int, carry: int, w: int, carry2: int)
    requires v + P * carry == u + y * A && w + BASE * carry2 == ai * y + ci + carry
    ensures (v + P * w) + (P * BASE) * carry2 == (u + P * ci) + y * (A + P * ai)
  {
    assert P * (w + BASE * carry2) == P * (ai * y + ci + carry);
    assert P * (BASE * carry2) == (P * BASE) * carry2;
    assert P * (ai * y) == y * (P * ai);
  }

  lemma ProductFits(x: Word, y: Word, c: Word, carry: Word, z: nat)
    requires z == U64(x * y + c + carry)
    ensures z % BASE + BASE * (z / BASE) == x * y + c + carry && 0 <= z / BASE < BASE
  {
    MulLess(x, BASE - 1, y);
    MulLess(y, BASE - 1, BASE - 1);
  }

  lemma AddedTop(v: seq<Word>, carry: Word, u: seq<Word>, y: nat, a: seq<Word>)
    requires Added(v, carry, u, y, a)
    ensures Val(v + [carry]) == Val(u) + y * Val(a)
  {
    ValAppend(v, [carry]);
    ValOne(carry);
  }

  lemma EmptyAdded(y: nat)
    ensures Added([], 0, [], y, [])
  {
  }

  /** One line of the product: y times a is added to the words from j on. The word behind them takes the carry. */
  method AddRow(c: array<Word>, a: array<Word>, wa: nat, y: Word, j: nat)
    requires a != c && 0 < wa <= a.Length && j + wa < c.Length
    modifies c
    ensures c[..j] == old(c[..j]) && c[j + wa + 1..] == old(c[j + wa + 1..])
    ensures Val(c[j..j + wa + 1]) == Val(old(c[j..j + wa])) + y * Val(a[..wa])
  {
    hide Added;
    var i, carry := 0, 0;
    ghost var was := c[..];
    EmptyAdded(y);
    assert c[j..j + 0] == [] == was[j..j + 0] == a[..0];
    while true
      invariant 0 <= i < wa && 0 <= carry < BASE
      invariant c[..j] == was[..j] && c[j + i..] == was[j + i..]
      invariant Added(c[j..j + i], carry, was[j..j + i], y, a[..i])
      decreases wa - i
    {
      ghost var v, ci, c0 := c[j..j + i], c[j + i], carry;
      assert ci == c[j + i..][0] == was[j + i..][0];
      var z := U64(a[i] * y + c[j + i] + carry);
      ProductFits(a[i], y, ci, carry, z);
      carry := z / BASE;
      c[j + i] := z % BASE;
      AddedStep(v, c0, was[j..j + i], y, a[..i], a[i], ci, c[j + i], carry);
      assert c[j..j + i + 1] == v + [c[j + i]] && was[j..j + i + 1] == was[j..j + i] + [ci] && a[..i + 1] == a[..i] + [a[i]];
      i := i + 1;
      assert c[j + i..] == was[j + i..];
      if i >= wa { break; }
    }
    ghost var v := c[j..j + wa];
    c[j + wa] := carry;
    assert c[j..j + wa + 1] == v + [carry];
    AddedTop(v, carry, was[j..j + wa], y, a[..wa]);
  }

  /** The words p stand for a times b. */
  ghost predicate IsProduct(p: seq<Word>, a: seq<Word>, b: seq<Word>) {
    Val(p) == Val(a) * Val(b)
  }

  /** A product, line by line. */
  lemma RowAdded(lo: seq<Word>, hi: seq<Word>, hi2: seq<Word>, a: seq<Word>, b: seq<Word>, y: Word)
    requires |lo| == |b| && IsProduct(lo + hi, a, b) && Val(hi2) == Val(hi) + y * Val(a)
    ensures IsProduct(lo + hi2, a, b + [y])
  {
    hide Val, Power;
    ValAppend(lo, hi);
    ValAppend(lo, hi2);
    ValAppend(b, [y]);
    ValOne(y);
    hide IsProduct;
    ProductIs(lo + hi, a, b);
    RowSum(Power(BASE, |lo|), Val(lo), Val(hi), Val(hi2), Val(a), y, Val(b), Val(lo + hi), Val(lo + hi2), Val(b + [y]));
    IsProductOf(lo + hi2, a, b + [y]);
  }

  lemma RowSum(P: nat, lo: int, hi: int, hi2: int, A: int, y: int, B: int, was: int, now: int, B2: int)
    requires was == lo + P * hi && now == lo + P * hi2 && was == A * B && hi2 == hi + y * A && B2 == B + P * y
    ensures now == A * B2
  {
    assert P * (hi + y * A) == P * hi + P * (y * A);
    assert P * (y * A) == A * (P * y);
  }

  lemma IsProductOf(p: seq<Word>, a: seq<Word>, b: seq<Word>)
    requires Val(p) == Val(a) * Val(b)
    ensures IsProduct(p, a, b)
  {
  }

  lemma ZeroRow(p: seq<Word>, a: seq<Word>, b: seq<Word>)
    requires IsProduct(p, a, b)
    ensures IsProduct(p + [0], a, b + [0])
  {
    ValAppend(p, [0]);
    ValAppend(b, [0]);
    ValOne(0);
  }

  /** mult */
  method Mult(a0: Bigint, b0: Bigint) returns (c: Bigint)
    requires a0.Valid() && b0.Valid() && a0.wds >= 1 && b0.wds >= 1
    ensures fresh(c) && fresh(c.x) && c.Valid() && c.next == null && c.Value() == a0.Value() * b0.Value()
    ensures c.wds > 0 ==> c.x[c.wds - 1] != 0
  {
    hide IsProduct, Val;
    var a, b := a0, b0;
    if a.wds < b.wds { a, b := b, a; }
    var k := a.k;
    var wc := a.wds + b.wds;
    if wc > a.x.Length { k := k + 1; }
    c := new Bigint(k);
    assert wc <= c.x.Length;
    var i := 0;
    while i < wc
      invariant 0 <= i <= wc
      invariant forall h :: 0 <= h < i ==> c.x[h] == 0
      modifies c.x
    {
      c.x[i] := 0;
      i := i + 1;
    }
    MultRows(a.x, a.wds, b.x, b.wds, c.x);
    ghost var p := c.x[..wc];
    ProductIs(p, a0.Words(), b0.Words());
    while wc > 0 && c.x[wc - 1] == 0
      invariant 0 <= wc <= |p|
      invariant forall h :: wc <= h < |p| ==> p[h] == 0
    {
      wc := wc - 1;
    }
    c.wds := wc;
    ValTrim(p, wc);
    assert p[..wc] == c.x[..wc] == c.Words();
    assert c.Value() == Val(p) == Val(a0.Words()) * Val(b0.Words());
  }

  lemma ProductIs(p: seq<Word>, a: seq<Word>, b: seq<Word>)
    requires IsProduct(p, a, b) || IsProduct(p, b, a)
    ensures Val(p) == Val(a) * Val(b)
  {
    hide Val;
  }

  lemma NoProduct(p: seq<Word>, a: seq<Word>)
    requires forall h :: 0 <= h < |p| ==> p[h] == 0
    ensures IsProduct(p, a, [])
  {
    ValZeros(p);
  }

  /** The words of c start as zeros. */
  method MultRows(a: array<Word>, wa: nat, b: array<Word>, wb: nat, c: array<Word>)
    requires 1 <= wa <= a.Length && wb <= b.Length && c != a && c != b && wa + wb <= c.Length
    requires forall h :: 0 <= h < wa + wb ==> c[h] == 0
    modifies c
    ensures IsProduct(c[..wa + wb], a[..wa], b[..wb])
  {
    hide IsProduct, Val;
    var j := 0;
    NoProduct(c[..wa], a[..wa]);
    assert b[..0] == [] && c[..wa + 0] == c[..wa];
    while j < wb
      invariant 0 <= j <= wb
      invariant IsProduct(c[..wa + j], a[..wa], b[..j])
      invariant forall h :: wa + j <= h < wa + wb ==> c[h] == 0
    {
      ghost var was := c[..];
      assert b[..j + 1] == b[..j] + [b[j]];
      if b[j] != 0 {
        AddRow(c, a, wa, b[j], j);
        forall h | wa + j + 1 <= h < wa + wb ensures c[h] == 0 {
          assert c[h] == c[j + wa + 1..][h - (j + wa + 1)] == was[j + wa + 1..][h - (j + wa + 1)];
        }
        assert was[..j] + was[j..j + wa] == was[..wa + j] && c[..j] + c[j..j + wa + 1] == c[..wa + (j + 1)];
        RowAdded(was[..j], was[j..j + wa], c[j..j + wa + 1], a[..wa], b[..j], b[j]);
      } else {
        ZeroRow(c[..wa + j], a[..wa], b[..j]);
        assert c[..wa + (j + 1)] == c[..wa + j] + [0];
      }
      j := j + 1;
    }
  }
}
