/** Shifting left, and the shift that gives a divisor four leading zero bits (dtoa.c:706-739, 974-1032, 2104-2117). */
module DtoaShift {
  import opened Arithmetic
  import opened DtoaWords
  import opened DtoaBigint

  /** The bits that leave a word are the next carry; the carry that comes in fills the bits that have become free, so
      that '|' adds. */
  lemma ShiftWord(w: Word, K: nat, R: nat, z: nat)
    requires K * R == BASE && z < K
    ensures 0 <= (w * K) % BASE + z < BASE && 0 <= w / R < K
    ensures ((w * K) % BASE + z) + BASE * (w / R) == w * K + z
  {
    var h, l := w / R, w % R;
    assert w == R * h + l;
    MulAssoc(K, R, h);
    assert w * K == BASE * h + l * K;
    MulLess(l + 1, R, K);
    assert l * K + K <= BASE;
    assert (w * K) % BASE == l * K by { ModIs(w * K, h, l * K); }
    if h >= K { MulLess(K, h, R); }
  }

  lemma ModIs(x: nat, h: nat, l: nat)
    requires x == BASE * h + l && l < BASE
    ensures x % BASE == l
  {
  }

  /** The loop for a shift by less than a word. */
  method ShiftWords(x: array<Word>, wds: nat, k: nat, x1: array<Word>, n: nat) returns (z: nat)
    requires x != x1 && 1 <= wds <= x.Length && n + wds <= x1.Length && 0 < k < 32
    modifies x1
    ensures x1[..n] == old(x1[..n]) && z < Power(2, k)
    ensures Scaled(x1[n..n + wds], z, x[..wds], Power(2, k), 0)
  {
    hide Scaled;
    var i := 0;
    var K, R := Power(2, k), Power(2, 32 - k);
    WordPower(k);
    z := 0;
    EmptyScaled(K, 0);
    assert x1[n..n + 0] == [] == x[..0];
    ghost var was := x1[..n];
    while true
      invariant 0 <= i < wds && 0 <= z < K && x1[..n] == was
      invariant Scaled(x1[n..n + i], z, x[..i], K, 0)
      decreases wds - i
    {
      ghost var v, z0 := x1[n..n + i], z;
      ShiftWord(x[i], K, R, z);
      x1[n + i] := (x[i] * K) % BASE + z;
      z := x[i] / R;
      ScaledStep(v, x[i], x[..i], x1[n + i], K, 0, z0, z);
      assert x1[n..n + (i + 1)] == v + [x1[n + i]] && x[..i + 1] == x[..i] + [x[i]];
      i := i + 1;
      if i >= wds { break; }
    }
  }

  lemma WordPower(k: nat)
    requires k <= 32
    ensures Power(2, k) * Power(2, 32 - k) == BASE && Power(2, 32) == BASE && Power(2, k) > 0
  {
    PowerAdd(2, k, 32 - k);
    PowerTwo32();
  }

  lemma PowerTwo32()
    ensures Power(2, 32) == BASE && Power(2, 4) == 16
  {
    assert Power(2, 2) == 2 * Power(2, 1);
    assert Power(2, 4) == 16 by { PowerAdd(2, 2, 2); }
    assert Power(2, 8) == 256 by { PowerAdd(2, 4, 4); }
    assert Power(2, 16) == 65536 by { PowerAdd(2, 8, 8); }
    PowerAdd(2, 16, 16);
  }

  lemma PowerWords(n: nat)
    ensures Power(2, 32 * n) == Power(BASE, n)
  {
    PowerTwo32();
    PowerPower(2, 32, n);
  }

  lemma Doubled(k: nat)
    ensures Power(2, k + 1) == 2 * Power(2, k)
  {
  }

  /** The loop for a shift by whole words. */
  method CopyWords(x: array<Word>, wds: nat, x1: array<Word>, n: nat)
    requires x != x1 && 1 <= wds <= x.Length && n + wds <= x1.Length
    modifies x1
    ensures x1[..n] == old(x1[..n]) && x1[n..n + wds] == x[..wds]
  {
    var i := 0;
    ghost var low := x1[..n];
    while true
      invariant 0 <= i < wds
      invariant x1[..n] == low && x1[n..n + i] == x[..i]
      decreases wds - i
    {
      x1[n + i] := x[i];
      assert x1[n..n + (i + 1)] == x1[n..n + i] + [x[i]];
      i := i + 1;
      if i >= wds { break; }
    }
  }

  method LowZeros(x1: array<Word>, n: nat)
    requires n <= x1.Length
    modifies x1
    ensures forall h :: 0 <= h < n ==> x1[h] == 0
  {
    var i := 0;
    while i < n
      invariant 0 <= i <= n
      invariant forall h :: 0 <= h < i ==> x1[h] == 0
    {
      x1[i] := 0;
      i := i + 1;
    }
  }

  /** A size class with room for n1 words. */
  method Room(b: Bigint, n1: nat) returns (k1: nat)
    requires b.Valid()
    ensures n1 <= Power(2, k1)
  {
    k1 := b.k;
    var i := b.x.Length;
    while n1 > i
      invariant i == Power(2, k1) && i >= 1
      decreases n1 - i
    {
      Doubled(k1);
      i := 2 * i;
      k1 := k1 + 1;
    }
  }

  /** The words of b1 behind the low zeros, and how many words there are in all. */
  method ShiftInto(x: array<Word>, wds: nat, k: nat, x1: array<Word>) returns (n1: nat)
    requires x != x1 && 1 <= wds <= x.Length && k / 32 + wds + 1 <= x1.Length
    requires forall h :: 0 <= h < k / 32 ==> x1[h] == 0
    modifies x1
    ensures wds <= n1 <= x1.Length
    ensures Val(x1[..n1]) == Val(x[..wds]) * Power(2, k)
    ensures (wds > 1 ==> x[wds - 1] != 0) && Val(x[..wds]) > 0 ==> x1[n1 - 1] != 0
  {
    hide Scaled, Power, Val;
    var n := k / 32;
    var k0 := k % 32;
    n1 := n + wds;
    ghost var low, w := x1[..n], x[..wds];
    if k0 != 0 {
      var z := ShiftWords(x, wds, k0, x1, n);
      ghost var v := x1[n..n + wds];
      PowerMonotone(k0);
      x1[n + wds] := z;
      if z != 0 { n1 := n1 + 1; }
      assert x1[..n1] == low + if z == 0 then v else v + [z];
      ShiftedBy(low, v, z, w, k, n, k0);
    } else {
      CopyWords(x, wds, x1, n);
      assert x1[..n1] == low + w;
      PowerZero(w);
      ShiftedAll(low, w, w, k, n, 0);
      NotZero(w);
    }
  }

  /** lshift */
  method LShift(b: Bigint, k: nat) returns (b1: Bigint)
    requires b.Valid() && b.wds >= 1
    ensures fresh(b1) && fresh(b1.x) && b1.Valid() && b1.wds >= 1 && b1.sign == 0
    ensures b1.Value() == b.Value() * Power(2, k)
    ensures b.Trimmed() && b.Value() > 0 ==> b1.Trimmed() && b1.x[b1.wds - 1] != 0
  {
    hide Power, Val;
    var k1 := Room(b, k / 32 + b.wds + 1);
    b1 := new Bigint(k1);
    LowZeros(b1.x, k / 32);
    b1.wds := ShiftInto(b.x, b.wds, k, b1.x);
  }

  lemma ShiftedBy(low: seq<Word>, v: seq<Word>, z: Word, w: seq<Word>, k: nat, n: nat, k0: nat)
    requires |low| == n && (forall h :: 0 <= h < n ==> low[h] == 0) && k == 32 * n + k0
    requires v != [] && |v| == |w| && Scaled(v, z, w, Power(2, k0), 0) && Power(2, k0) > 0
    ensures var t := if z == 0 then v else v + [z];
            && Val(low + t) == Val(w) * Power(2, k)
            && ((|w| > 1 ==> w[|w| - 1] != 0) && Val(w) > 0 ==> (low + t)[|low + t| - 1] != 0)
  {
    hide Scaled, Power, Val;
    ScaledTop(v, z, w, Power(2, k0), 0);
    ShiftedAll(low, if z == 0 then v else v + [z], w, k, n, k0);
    TopStays(v, z, w, k0);
  }

  lemma PowerMonotone(k: nat)
    requires k < 32
    ensures Power(2, k) < BASE
  {
    PowerGrows(2, k, 31);
    PowerTwo32();
  }

  lemma PowerZero(w: seq<Word>)
    ensures Val(w) == Val(w) * Power(2, 0)
  {
  }

  lemma NotZero(w: seq<Word>)
    requires w != []
    ensures Val(w) > 0 && |w| == 1 ==> w[0] != 0
  {
    if |w| == 1 { assert w == [w[0]]; ValOne(w[0]); }
  }

  lemma ShiftedAll(low: seq<Word>, v: seq<Word>, w: seq<Word>, k: nat, n: nat, k0: nat)
    requires |low| == n && (forall h :: 0 <= h < n ==> low[h] == 0) && k == 32 * n + k0
    requires Val(v) == Val(w) * Power(2, k0)
    ensures Val(low + v) == Val(w) * Power(2, k)
  {
    hide Val, Power;
    ValAppend(low, v);
    ValZeros(low);
    PowerWords(n);
    PowerAdd(2, 32 * n, k0);
    ShiftedSum(Power(BASE, n), Val(v), Val(w), Power(2, k0), Power(2, k));
  }

  lemma ShiftedSum(P: nat, v: nat, w: nat, K: nat, all: nat)
    requires v == w * K && all == P * K
    ensures P * v == w * all
  {
    assert P * (w * K) == w * (P * K);
  }

  /** Where nothing is carried out of the top word, it does not become 0. */
  lemma TopStays(v: seq<Word>, z: nat, w: seq<Word>, k: nat)
    requires v != [] && |v| == |w| && z < BASE && Scaled(v, z, w, Power(2, k), 0) && Power(2, k) > 0
    ensures z == 0 && Val(w) > 0 && (|w| > 1 ==> w[|w| - 1] != 0) ==> v[|v| - 1] != 0
  {
    if z == 0 && Val(w) > 0 && (|w| > 1 ==> w[|w| - 1] != 0) {
      NotZero(w);
      ValAtLeast(w);
      MulLess(1, Power(2, k), Val(w));
      if v[|v| - 1] == 0 {
        ValTrim(v, |v| - 1);
        ValBound(v[..|v| - 1]);
      }
    }
  }

  // ---------- Leading zeros ----------

  lemma TimesPower(x: nat, y: nat, k: nat, d: nat)
    requires y == x * Power(2, k)
    ensures y * Power(2, d) == x * Power(2, k + d)
  {
    PowerAdd(2, k, d);
    MulAssoc(x, Power(2, k), Power(2, d));
  }

  /** hi0bits: how many of the 32 bits of a word are zeros at its high end. The masks ask whether the word is small. */
  method HiZeros(x0: Word) returns (k: nat)
    ensures x0 == 0 ==> k == 32
    ensures x0 > 0 ==> k < 32 && Power(2, 31) <= x0 * Power(2, k) < BASE
  {
    hide Power;
    var x: nat := x0;
    SmallPowers();
    k := 0;
    if x < 0x1_0000 {
      k := 16;
      x := x * 0x1_0000;
    }
    TimesPower(x0, x, k, 8);
    if x < 0x100_0000 {
      k := k + 8;
      x := x * 0x100;
    }
    TimesPower(x0, x, k, 4);
    if x < 0x1000_0000 {
      k := k + 4;
      x := x * 0x10;
    }
    TimesPower(x0, x, k, 2);
    if x < 0x4000_0000 {
      k := k + 2;
      x := x * 4;
    }
    TimesPower(x0, x, k, 1);
    if x < 0x8000_0000 {
      k := k + 1;
      if x < 0x4000_0000 { return 32; }
    }
  }

  lemma SmallPowers()
    ensures Power(2, 0) == 1 && Power(2, 1) == 2 && Power(2, 2) == 4 && Power(2, 4) == 16 && Power(2, 8) == 256
    ensures Power(2, 16) == 0x1_0000 && Power(2, 27) == 0x800_0000 && Power(2, 31) == 0x8000_0000
  {
    assert Power(2, 1) == 2 * Power(2, 0);
    assert Power(2, 2) == 2 * Power(2, 1);
    assert Power(2, 4) == 16 by { PowerAdd(2, 2, 2); }
    assert Power(2, 8) == 256 by { PowerAdd(2, 4, 4); }
    assert Power(2, 16) == 65536 by { PowerAdd(2, 8, 8); }
    assert Power(2, 3) == 2 * Power(2, 2);
    assert Power(2, 11) == 2048 by { PowerAdd(2, 8, 3); }
    assert Power(2, 27) == 0x800_0000 by { PowerAdd(2, 16, 11); }
    PowerAdd(2, 27, 4);
  }

  /** The top word has exactly four leading zero bits. */
  ghost predicate FourZeros(w: seq<Word>) {
    w != [] && 0x800_0000 <= w[|w| - 1] < 0x1000_0000
  }

  /** dshift: '&' with 31 takes the remainder, also of a negative number. */
  method DShift(b: Bigint, p2: nat) returns (i: nat)
    requires b.Valid() && b.wds >= 1 && b.x[b.wds - 1] != 0
    ensures i < 32
    ensures forall w :: Val(w) == b.Value() * Power(2, p2 + i) && (|w| > 1 ==> w[|w| - 1] != 0) && w != [] ==> FourZeros(w)
  {
    hide Power, Val;
    var h := HiZeros(b.x[b.wds - 1]);
    var rv: int := -4;
    rv := rv + h;
    if p2 > 0 { rv := rv - p2; }
    i := rv % 32;
    forall w: seq<Word> | Val(w) == b.Value() * Power(2, p2 + i) && (|w| > 1 ==> w[|w| - 1] != 0) && w != []
      ensures FourZeros(w)
    {
      var c := (p2 + i + 4 - h) / 32;
      assert p2 + i + 4 == h + 32 * c;
      ShiftedFour(b.Words(), h, p2 + i, c, w);
    }
  }

  lemma ShiftedFour(u: seq<Word>, h: nat, k: nat, c: int, w: seq<Word>)
    requires u != [] && h < 32 && k + 4 == h + 32 * c && Power(2, 31) <= u[|u| - 1] * Power(2, h) < BASE
    requires Val(w) == Val(u) * Power(2, k) && w != [] && (|w| > 1 ==> w[|w| - 1] != 0)
    ensures FourZeros(w)
  {
    var m, n := |u| - 1, |u| - 1 + c;
    hide Val, Power;
    SmallPowers();
    SixteenTimes(Val(u), Val(w), h, k, c);
    TopBounds(u, h);
    PowerAdd(BASE, m, c);
    Between(Power(BASE, m), Power(BASE, c), Val(u) * Power(2, h), Val(w), Power(BASE, n));
    TopFromValue(w, n);
  }

  lemma SixteenTimes(u: nat, w: nat, h: nat, k: nat, c: nat)
    requires k + 4 == h + 32 * c && w == u * Power(2, k)
    ensures w * 16 == (u * Power(2, h)) * Power(BASE, c)
  {
    hide Power;
    SmallPowers();
    PowerWords(c);
    TimesPower(u, w, k, 4);
    TimesPower(u, u * Power(2, h), h, 32 * c);
  }

  lemma TopBounds(u: seq<Word>, h: nat)
    requires u != [] && h < 32 && Power(2, 31) <= u[|u| - 1] * Power(2, h) < BASE
    ensures Power(2, 31) * Power(BASE, |u| - 1) <= Val(u) * Power(2, h) < BASE * Power(BASE, |u| - 1)
  {
    hide Val, Power;
    var m, t := |u| - 1, u[|u| - 1];
    ValTop(u, m);
    assert u[..m + 1] == u;
    ValBound(u[..m]);
    WordPower(h);
    TopFits(t, Power(2, h), Power(2, 32 - h));
    TopProduct(Power(BASE, m), t, Val(u), Power(2, h), Power(2, 32 - h), Power(2, 31));
  }

  lemma TopFits(t: nat, H: nat, G: nat)
    requires t * H < BASE && H * G == BASE
    ensures t + 1 <= G
  {
    if t >= G { MulLess(G, t, H); }
  }

  lemma TopProduct(P: nat, t: nat, u: nat, H: nat, G: nat, low: nat)
    requires P * t <= u < P * t + P && low <= t * H && t + 1 <= G && H * G == BASE && H > 0
    ensures low * P <= u * H < BASE * P
  {
    MulLess(low, t * H, P);
    MulLess(P * t, u, H);
    assert (P * t) * H == (t * H) * P;
    MulStrict(u, P * (t + 1), H);
    MulLess(t + 1, G, P * H);
    assert (P * (t + 1)) * H == (t + 1) * (P * H);
    assert G * (P * H) == BASE * P;
  }

  lemma Between(P: nat, C: nat, y: nat, w: nat, Q: nat)
    requires 0x8000_0000 * P <= y < BASE * P && w * 16 == y * C && Q == P * C && C > 0
    ensures 0x800_0000 * Q <= w < 0x1000_0000 * Q
  {
    MulLess(0x8000_0000 * P, y, C);
    MulStrict(y, BASE * P, C);
    assert (0x8000_0000 * P) * C == 0x8000_0000 * Q && (BASE * P) * C == BASE * Q;
  }

  /** The value shows the number of words and the top one. */
  lemma TopFromValue(w: seq<Word>, n: nat)
    requires w != [] && (|w| > 1 ==> w[|w| - 1] != 0)
    requires 0x800_0000 * Power(BASE, n) <= Val(w) < 0x1000_0000 * Power(BASE, n)
    ensures |w| == n + 1 && FourZeros(w)
  {
    var m := |w| - 1;
    ValTop(w, m);
    assert w[..m + 1] == w;
    ValBound(w[..m]);
    NotZero(w);
    ValAtLeast(w);
    ValBound(w);
    SameLength(m, n, Val(w));
    TopRange(Power(BASE, m), w[m], Val(w));
  }

  lemma SameLength(m: nat, n: nat, v: nat)
    requires Power(BASE, m) <= v < Power(BASE, m + 1) && Power(BASE, n) <= v < Power(BASE, n + 1)
    ensures m == n
  {
    if m < n {
      PowerGrows(BASE, m + 1, n);
    } else if n < m {
      PowerGrows(BASE, n + 1, m);
    }
  }

  lemma TopRange(P: nat, t: nat, v: nat)
    requires P > 0 && P * t <= v < P * t + P && 0x800_0000 * P <= v < 0x1000_0000 * P
    ensures 0x800_0000 <= t < 0x1000_0000
  {
    assert P * t + P == P * (t + 1);
    Cancel(0x800_0000, t + 1, P);
    Cancel(t, 0x1000_0000, P);
  }

  lemma Cancel(a: nat, b: nat, P: nat)
    requires a * P < b * P
    ensures a < b
  {
    if b <= a { MulLess(b, a, P); }
  }
}
