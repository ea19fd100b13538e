/** SHA-1 (lsha1.c:79-171, the rounds in a ring of sixteen words). */
module Sha1 {

  type Word = bv32

  /** The hash value, and the working variables of a block. */
  datatype Five = Five(a: Word, b: Word, c: Word, d: Word, e: Word)

  /** rol, by the numbers of bits that are used. */
  function Rol1(x: Word): Word { (x << 1) | (x >> 31) }

  function Rol5(x: Word): Word { (x << 5) | (x >> 27) }

  function Rol8(x: Word): Word { (x << 8) | (x >> 24) }

  function Rol24(x: Word): Word { (x << 24) | (x >> 8) }

  function Rol30(x: Word): Word { (x << 30) | (x >> 2) }

  // ---------- FIPS 180-4, sections 4.1.1, 4.2.1 and 6.1.2 ----------

  function F(t: nat, x: Word, y: Word, z: Word): Word {
    if t < 20 then (x & y) ^ (!x & z)
    else if t < 40 then x ^ y ^ z
    else if t < 60 then (x & y) ^ (x & z) ^ (y & z)
    else x ^ y ^ z
  }

  function K(t: nat): Word {
    if t < 20 then 0x5A827999 else if t < 40 then 0x6ED9EBA1 else if t < 60 then 0x8F1BBCDC else 0xCA62C1D6
  }

  /** The message schedule. */
  function W(m: seq<Word>, t: nat): Word
    requires |m| == 16
  {
    if t < 16 then m[t] else Rol1(W(m, t - 3) ^ W(m, t - 8) ^ W(m, t - 14) ^ W(m, t - 16))
  }

  function Sum(r: Word, f: Word, e: Word, k: Word, w: Word): Word {
    r + f + e + k + w
  }

  function OneRound(t: nat, s: Five, w: Word): Five {
    Five(Sum(Rol5(s.a), F(t, s.b, s.c, s.d), s.e, K(t), w), s.a, Rol30(s.b), s.c, s.d)
  }

  function Rounds(m: seq<Word>, h: Five, t: nat): Five
    requires |m| == 16
    decreases t
  {
    if t == 0 then h else OneRound(t - 1, Rounds(m, h, t - 1), W(m, t - 1))
  }

  function Plus(h: Five, s: Five): Five {
    Five(s.a + h.a, s.b + h.b, s.c + h.c, s.d + h.d, s.e + h.e)
  }

  /** Four bytes as a word, the highest first. */
  function BigWord(b0: bv8, b1: bv8, b2: bv8, b3: bv8): Word {
    (b0 as Word << 24) | (b1 as Word << 16) | (b2 as Word << 8) | b3 as Word
  }

  function Words(block: seq<bv8>): (m: seq<Word>)
    requires |block| == 64
    ensures |m| == 16
  {
    seq(16, i requires 0 <= i < 16 => BigWord(block[4 * i], block[4 * i + 1], block[4 * i + 2], block[4 * i + 3]))
  }

  function Compress(h: Five, block: seq<bv8>): Five
    requires |block| == 64
  {
    Plus(h, Rounds(Words(block), h, 80))
  }

  // ---------- The transformation ----------

  /** How the machine reads four bytes, the lowest first. */
  function LittleWord(b0: bv8, b1: bv8, b2: bv8, b3: bv8): Word {
    (b3 as Word << 24) | (b2 as Word << 16) | (b1 as Word << 8) | b0 as Word
  }

  /** blk0 turns the bytes of a word around. */
  function Turned(x: Word): Word {
    (Rol24(x) & 0xFF00FF00) | (Rol8(x) & 0x00FF00FF)
  }

  lemma TurnedIs(b0: bv8, b1: bv8, b2: bv8, b3: bv8)
    ensures Turned(LittleWord(b0, b1, b2, b3)) == BigWord(b0, b1, b2, b3)
  {
  }

  /** The logical functions as the macros write them. */
  function Mixed(t: nat, w: Word, x: Word, y: Word): Word {
    if t < 20 then (w & (x ^ y)) ^ y
    else if t < 40 then w ^ x ^ y
    else if t < 60 then ((w | x) & y) | (w & x)
    else w ^ x ^ y
  }

  lemma MixedIs(t: nat, w: Word, x: Word, y: Word)
    ensures Mixed(t, w, x, y) == F(t, w, x, y)
  {
    Choose(w, x, y);
    Majority(w, x, y);
  }

  lemma Choose(w: Word, x: Word, y: Word)
    ensures (w & (x ^ y)) ^ y == (w & x) ^ (!w & y)
  {
  }

  lemma Majority(w: Word, x: Word, y: Word)
    ensures ((w | x) & y) | (w & x) == (w & x) ^ (w & y) ^ (x & y)
  {
  }

  /** In front of round i the ring holds the last sixteen words of the schedule, and those of the block that have not
      been turned yet. */
  ghost predicate Ring(l: seq<Word>, raw: seq<Word>, m: seq<Word>, i: nat)
    requires |l| == |raw| == |m| == 16
  {
    && (forall t :: 0 <= t < i <= t + 16 ==> l[t % 16] == W(m, t))
    && (forall t :: i <= t < 16 ==> l[t] == raw[t] && Turned(raw[t]) == m[t])
  }

  /** blk0 and blk */
  method Blk(l: array<Word>, i: nat, ghost raw: seq<Word>, ghost m: seq<Word>) returns (x: Word)
    requires l.Length == |raw| == |m| == 16 && Ring(l[..], raw, m, i)
    modifies l
    ensures Ring(l[..], raw, m, i + 1) && x == W(m, i)
  {
    if i < 16 {
      x := Turned(l[i]);
    } else {
      assert W(m, i - 3) == l[..][(i - 3) % 16] == l[(i + 13) % 16];
      assert W(m, i - 8) == l[..][(i - 8) % 16] == l[(i + 8) % 16];
      assert W(m, i - 14) == l[..][(i - 14) % 16] == l[(i + 2) % 16];
      assert W(m, i - 16) == l[..][(i - 16) % 16] == l[i % 16];
      x := Rol1(l[(i + 13) % 16] ^ l[(i + 8) % 16] ^ l[(i + 2) % 16] ^ l[i % 16]);
    }
    ghost var was := l[..];
    l[i % 16] := x;
    RingNext(was, l[..], raw, m, i, x);
  }

  lemma OtherPlace(t: nat, i: nat)
    requires t < i < t + 16
    ensures t % 16 != i % 16
  {
  }

  lemma RingNext(was: seq<Word>, l: seq<Word>, raw: seq<Word>, m: seq<Word>, i: nat, x: Word)
    requires |was| == |raw| == |m| == 16 && Ring(was, raw, m, i) && l == was[i % 16 := x] && x == W(m, i)
    ensures Ring(l, raw, m, i + 1)
  {
    hide W;
    forall t: nat | t < i + 1 <= t + 16 ensures l[t % 16] == W(m, t) {
      if t < i {
        OtherPlace(t, i);
        assert was[t % 16] == W(m, t);
      }
    }
  }

  /** R0 to R4: v, w, x, y and z take turns in being the five variables. */
  method R(l: array<Word>, i: nat, v: Word, w0: Word, x: Word, y: Word, z0: Word, ghost raw: seq<Word>, ghost m: seq<Word>, ghost h: Five)
    returns (w: Word, z: Word)
    requires l.Length == |raw| == |m| == 16 && Ring(l[..], raw, m, i) && Rounds(m, h, i) == Five(v, w0, x, y, z0)
    modifies l
    ensures Ring(l[..], raw, m, i + 1) && Rounds(m, h, i + 1) == Five(z, v, w, x, y)
  {
    hide W, Ring, Mixed, Rol5, Rol30, K, OneRound, Grown;
    var b := Blk(l, i, raw, m);
    z := Grown(z0, Mixed(i, w0, x, y), b, K(i), Rol5(v));
    w := Rol30(w0);
    assert Rounds(m, h, i + 1) == OneRound(i, Rounds(m, h, i), W(m, i));
    hide Rounds;
    RoundIs(i, v, w0, x, y, z0, b);
  }

  lemma RoundIs(i: nat, v: Word, w: Word, x: Word, y: Word, z: Word, b: Word)
    ensures OneRound(i, Five(v, w, x, y, z), b) == Five(Grown(z, Mixed(i, w, x, y), b, K(i), Rol5(v)), v, Rol30(w), x, y)
  {
    hide F, Mixed, K, Rol5, Rol30, Sum, Grown;
    MixedIs(i, w, x, y);
    SameSum(z, F(i, w, x, y), b, K(i), Rol5(v));
  }

  /** The sum in the order of the macros. */
  function Grown(z: Word, f: Word, b: Word, k: Word, r: Word): Word {
    z + (f + b + k + r)
  }

  lemma SameSum(z: Word, f: Word, b: Word, k: Word, r: Word)
    ensures Grown(z, f, b, k, r) == Sum(r, f, z, k, b)
  {
  }

  /** SHA1_Transform */
  method Transform(h: Five, buffer: seq<bv8>) returns (r: Five)
    requires |buffer| == 64
    ensures r == Compress(h, buffer)
  {
    hide W, Ring, OneRound, Rounds;
    var l := new Word[16](i requires 0 <= i < 16 =>
      LittleWord(buffer[4 * i], buffer[4 * i + 1], buffer[4 * i + 2], buffer[4 * i + 3]));
    ghost var raw, m := l[..], Words(buffer);
    Loaded(l[..], buffer);
    var a, b, c, d, e := h.a, h.b, h.c, h.d, h.e;
    NoRounds(m, h);
    var i := 0;
    while i < 80
      invariant 0 <= i <= 80 && i % 5 == 0 && l.Length == 16
      invariant Ring(l[..], raw, m, i) && Rounds(m, h, i) == Five(a, b, c, d, e)
      modifies l
    {
      b, e := R(l, i, a, b, c, d, e, raw, m, h);
      a, d := R(l, i + 1, e, a, b, c, d, raw, m, h);
      e, c := R(l, i + 2, d, e, a, b, c, raw, m, h);
      d, b := R(l, i + 3, c, d, e, a, b, raw, m, h);
      c, a := R(l, i + 4, b, c, d, e, a, raw, m, h);
      i := i + 5;
    }
    r := Plus(h, Five(a, b, c, d, e));
  }

  lemma NoRounds(m: seq<Word>, h: Five)
    requires |m| == 16
    ensures Rounds(m, h, 0) == h
  {
  }

  lemma Loaded(l: seq<Word>, buffer: seq<bv8>)
    requires |buffer| == 64 && |l| == 16
    requires forall i :: 0 <= i < 16 ==> l[i] == LittleWord(buffer[4 * i], buffer[4 * i + 1], buffer[4 * i + 2], buffer[4 * i + 3])
    ensures Ring(l, l, Words(buffer), 0)
  {
    forall t | 0 <= t < 16 ensures Turned(l[t]) == Words(buffer)[t] {
      TurnedIs(buffer[4 * t], buffer[4 * t + 1], buffer[4 * t + 2], buffer[4 * t + 3]);
    }
  }
}
