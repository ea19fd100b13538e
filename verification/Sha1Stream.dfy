/** Hashing a message that comes in pieces (lsha1.c:71-77, 174-242). */
module Sha1Stream {
  import opened Sha1

  const W32 := 0x1_0000_0000

  const H0 := Five(0x67452301, 0xEFCDAB89, 0x98BADCFE, 0x10325476, 0xC3D2E1F0)

  // ---------- FIPS 180-4, sections 5.1.1 and 6.1.2 ----------

  function HashAll(h: Five, s: seq<bv8>): Five
    requires |s| % 64 == 0
    decreases |s|
  {
    if s == [] then h else HashAll(Compress(h, s[..64]), s[64..])
  }

  /** Byte i of a word, the highest first. */
  function WordByte(w: nat, i: nat): bv8 {
    ((if i == 0 then w / 0x100_0000 else if i == 1 then w / 0x1_0000 else if i == 2 then w / 0x100 else w) % 256) as bv8
  }

  /** The 64 bits of a count, the high word first. */
  function TwoWords(high: nat, low: nat): (s: seq<bv8>)
    ensures |s| == 8
  {
    seq(8, i requires 0 <= i < 8 => WordByte(if i >= 4 then low else high, i % 4))
  }

  function LengthBytes(n: nat): (s: seq<bv8>)
    ensures |s| == 8
  {
    TwoWords(n / W32 % W32, n % W32)
  }

  function Zeros(n: nat): (s: seq<bv8>)
    ensures |s| == n
  {
    seq(n, i requires 0 <= i < n => 0)
  }

  /** How many zero bytes stand between the bit 1 and the length. */
  function PadZeros(n: nat): (k: nat)
    ensures k < 64 && (n + 1 + k) % 64 == 56
  {
    (119 - n % 64) % 64
  }

  /** The bit 1, zeros, and eight bytes for the length. */
  function PaddedWith(s: seq<bv8>, length: seq<bv8>): (p: seq<bv8>)
    requires |length| == 8
    ensures |p| % 64 == 0
  {
    PadFits(|s|, PadZeros(|s|));
    s + [0x80] + Zeros(PadZeros(|s|)) + length
  }

  function Padded(s: seq<bv8>): (p: seq<bv8>)
    ensures |p| % 64 == 0
  {
    PaddedWith(s, LengthBytes(8 * |s|))
  }

  lemma PadFits(n: nat, k: nat)
    requires (n + 1 + k) % 64 == 56
    ensures (n + 1 + k + 8) % 64 == 0
  {
  }

  function DigestByte(h: Five, i: nat): bv8 {
    var w := if i / 4 == 0 then h.a else if i / 4 == 1 then h.b else if i / 4 == 2 then h.c else if i / 4 == 3 then h.d else h.e;
    ((if i % 4 == 0 then w >> 24 else if i % 4 == 1 then w >> 16 else if i % 4 == 2 then w >> 8 else w) & 0xFF) as bv8
  }

  function Digest(h: Five): seq<bv8> {
    seq(20, i requires 0 <= i < 20 => DigestByte(h, i))
  }

  function Hash(s: seq<bv8>): seq<bv8> {
    Digest(HashAll(H0, Padded(s)))
  }

  lemma {:induction false} HashBlock(h: Five, s: seq<bv8>, b: seq<bv8>)
    requires |s| % 64 == 0 && |b| == 64
    ensures HashAll(h, s + b) == Compress(HashAll(h, s), b)
    decreases |s|
  {
    hide Compress;
    if s == [] {
      assert s + b == b && b[..64] == b && b[64..] == [];
    } else {
      assert (s + b)[..64] == s[..64] && (s + b)[64..] == s[64..] + b;
      HashBlock(Compress(h, s[..64]), s[64..], b);
    }
  }

  // ---------- The count of bits ----------

  /** The two words of the count after another len bytes; what is taken for the carry is a comparison. */
  function CountLow(c0: nat, len: nat): nat {
    (c0 + 8 * len) % W32
  }

  function CountHigh(c0: nat, c1: nat, len: nat): nat {
    ((if CountLow(c0, len) < 8 * len then c1 + 1 else c1) + len / 0x2000_0000) % W32
  }

  /** The count is right exactly for pieces of less than 2^29 bytes, and where there is a carry indeed. */
  lemma CountExact(n: nat, len: nat)
    ensures var c0, c1 := 8 * n % W32, 8 * n / W32 % W32;
            && CountLow(c0, len) == 8 * (n + len) % W32
            && (CountHigh(c0, c1, len) == 8 * (n + len) / W32 % W32 <==> len < 0x2000_0000 || c0 + 8 * len % W32 >= W32)
  {
    var c0, q := 8 * n % W32, 8 * n / W32;
    var l0, p := 8 * len % W32, 8 * len / W32;
    assert 8 * n == W32 * q + c0 && 8 * len == W32 * p + l0;
    assert p == len / 0x2000_0000;
    assert 8 * (n + len) == W32 * (q + p) + (c0 + l0);
    var carry := if c0 + l0 >= W32 then 1 else 0;
    Split(8 * (n + len), q + p + carry, c0 + l0 - W32 * carry);
    Split(c0 + 8 * len, p + carry, c0 + l0 - W32 * carry);
    Same(q, p, if CountLow(c0, len) < 8 * len then 1 else 0, carry);
  }

  lemma Split(x: nat, q: nat, r: nat)
    requires x == W32 * q + r && r < W32
    ensures x / W32 == q && x % W32 == r
  {
  }

  lemma Same(q: nat, p: nat, c: nat, carry: nat)
    requires c <= 1 && carry <= 1
    ensures (q % W32 + c + p) % W32 == (q + p + carry) % W32 <==> c == carry
  {
  }

  /** The two words hold the number of bits of n bytes. */
  predicate Counted(n: nat, c0: nat, c1: nat) {
    c0 == 8 * n % W32 && c1 == 8 * n / W32 % W32
  }

  /** Where the carry is taken right. */
  predicate CarryRight(c0: nat, len: nat) {
    len < 0x2000_0000 || c0 + 8 * len % W32 >= W32
  }

  lemma StillCounted(n: nat, c0: nat, c1: nat, len: nat)
    requires Counted(n, c0, c1)
    ensures Counted(n + len, CountLow(c0, len), CountHigh(c0, c1, len)) <==> CarryRight(c0, len)
  {
    CountExact(n, len);
  }

  lemma ShortCarries(c0: nat, len: nat)
    requires len < 0x2000_0000
    ensures CarryRight(c0, len)
  {
  }

  class Context {
    var h: Five
    var count0: nat
    var count1: nat
    const buffer: array<bv8>
    ghost var data: seq<bv8>

    /** What is hashed is the whole blocks of the data; the rest waits in the buffer. The high word of the count may be
        wrong. */
    ghost predicate Valid()
      reads this, buffer
    {
      && buffer.Length == 64
      && count0 == 8 * |data| % W32 && count1 < W32
      && h == HashAll(H0, data[..|data| - |data| % 64])
      && buffer[..|data| % 64] == data[|data| - |data| % 64..]
    }

    /** sat_SHA1_Init */
    constructor ()
      ensures Valid() && data == [] && count1 == 0 && fresh(buffer)
    {
      h, count0, count1, data := H0, 0, 0, [];
      buffer := new bv8[64];
    }

    method Fill(j: nat, from: seq<bv8>)
      requires j + |from| <= buffer.Length
      modifies buffer
      ensures buffer[..j] == old(buffer[..j]) && buffer[j..j + |from|] == from
    {
      forall i | 0 <= i < |from| { buffer[j + i] := from[i]; }
    }

    /** The blocks of a piece: the first fills up the buffer, the others are taken from the piece. */
    method Blocks(input: seq<bv8>, j: nat) returns (i: nat)
      requires buffer.Length == 64 && j == |data| % 64 && j + |input| > 63
      requires h == HashAll(H0, data[..|data| - j]) && buffer[..j] == data[|data| - j..]
      modifies this`h, buffer
      ensures i <= |input| < i + 64 && (|data| + i) % 64 == 0
      ensures h == HashAll(H0, (data + input)[..|data| + i])
    {
      hide HashAll, Compress;
      i := 64 - j;
      Fill(j, input[..i]);
      BlockIs(data, input, j, buffer[..]);
      h := Transform(h, buffer[..]);
      while i + 63 < |input|
        invariant 64 - j <= i <= |input| && (|data| + i) % 64 == 0
        invariant h == HashAll(H0, (data + input)[..|data| + i])
        modifies this`h
      {
        InputNext(data, input, i);
        h := Transform(h, input[i..i + 64]);
        i := i + 64;
      }
    }

    /** The place in the buffer, and the count of the bits to come. */
    method Count(len: nat) returns (j: nat)
      requires count0 == 8 * |data| % W32 && count1 < W32
      modifies this`count0, this`count1
      ensures j == |data| % 64 && count0 == 8 * (|data| + len) % W32 && count1 < W32
      ensures count1 == CountHigh(old(count0), old(count1), len)
    {
      hide CountHigh, CountLow;
      j := count0 / 8 % 64;
      CountsGoOn(|data|, count0, count1, len);
      PlaceIs(|data|, count0);
      count1 := CountHigh(count0, count1, len);
      count0 := CountLow(count0, len);
    }

    /** sat_SHA1_Update */
    method Update(input: seq<bv8>)
      requires Valid()
      modifies this, buffer
      ensures Valid() && data == old(data) + input && count1 == CountHigh(old(count0), old(count1), |input|)
    {
      hide HashAll, Compress, CountHigh, CountLow;
      var len := |input|;
      var j := Count(len);
      var i := 0;
      if j + len > 63 {
        i := Blocks(input, j);
        j := 0;
      }
      Fill(j, input[i..]);
      RestIs(data, input, i, j, buffer[..]);
      data := data + input;
    }

    /** The bit 1, and zeros up to the place for the length. */
    method Pad()
      requires Valid()
      modifies this, buffer
      ensures Valid() && data == old(data) + [0x80] + Zeros(PadZeros(|old(data)|))
    {
      hide HashAll, Compress, Zeros, PadZeros, CountLow, CountHigh, Counted, CarryRight;
      ghost var was := data;
      Update([0x80]);
      ghost var k := 0;
      ZerosNone(data);
      PlaceIs(|data|, count0);
      while count0 / 8 % 64 != 56
        invariant Valid() && 0 <= k <= PadZeros(|was|) && data == was + [0x80] + Zeros(k)
        invariant count0 / 8 % 64 == |data| % 64
        decreases PadZeros(|was|) - k
      {
        NotYet(|was|, k);
        Update([0]);
        k := k + 1;
        ZerosMore(was + [0x80], k);
        PlaceIs(|data|, count0);
      }
      Enough(|was|, k);
    }

    /** sat_SHA1_Final: the length is the count, right or wrong. Nothing is left in the context. */
    method Final() returns (digest: seq<bv8>)
      requires Valid()
      modifies this, buffer
      ensures digest == Digest(HashAll(H0, PaddedWith(old(data), TwoWords(old(count1), old(count0)))))
      ensures old(Counted(|data|, count0, count1)) ==> digest == Hash(old(data))
      ensures h == Five(0, 0, 0, 0, 0) && count0 == count1 == 0 && forall i :: 0 <= i < buffer.Length ==> buffer[i] == 0
    {
      hide HashAll, Compress, WordByte, DigestByte, Zeros, PadZeros, TwoWords, CountLow, CountHigh, CarryRight;
      ghost var was := data;
      var finalcount := TwoWords(count1, count0);
      Pad();
      Update(finalcount);
      assert data == PaddedWith(was, finalcount);
      assert data[..|data|] == data;
      digest := Digest(h);
      h, count0, count1 := Five(0, 0, 0, 0, 0), 0, 0;
      forall i | 0 <= i < buffer.Length { buffer[i] := 0; }
    }
  }

  lemma CountsGoOn(n: nat, c0: nat, c1: nat, len: nat)
    requires c0 == 8 * n % W32 && c1 < W32
    ensures CountLow(c0, len) == 8 * (n + len) % W32 && CountHigh(c0, c1, len) < W32
  {
    CountExact(n, len);
  }

  /** count[0] >> 3 & 63 */
  lemma PlaceIs(n: nat, c0: nat)
    requires c0 == 8 * n % W32
    ensures c0 / 8 % 64 == n % 64
  {
    var q, r := n / 0x2000_0000, n % 0x2000_0000;
    assert n == 0x2000_0000 * q + r;
    assert 8 * n == W32 * q + 8 * r;
    Split(8 * n, q, 8 * r);
    assert n == 64 * (0x80_0000 * q + r / 64) + r % 64;
  }

  lemma BlockIs(was: seq<bv8>, input: seq<bv8>, j: nat, buffer: seq<bv8>)
    requires j == |was| % 64 && j + |input| > 63 && |buffer| == 64
    requires buffer[..j] == was[|was| - j..] && buffer[j..64] == input[..64 - j]
    ensures Compress(HashAll(H0, was[..|was| - j]), buffer) == HashAll(H0, (was + input)[..|was| + (64 - j)])
  {
    hide HashAll, Compress;
    var done := was[..|was| - j];
    HashBlock(H0, done, buffer);
    assert done + buffer == (was + input)[..|was| + (64 - j)] by {
      assert buffer == buffer[..j] + buffer[j..64];
      assert was == done + was[|was| - j..];
    }
  }

  lemma HashNext(all: seq<bv8>, p: nat)
    requires p + 64 <= |all| && p % 64 == 0
    ensures HashAll(H0, all[..p + 64]) == Compress(HashAll(H0, all[..p]), all[p..p + 64])
  {
    hide HashAll, Compress;
    HashBlock(H0, all[..p], all[p..p + 64]);
    assert all[..p + 64] == all[..p] + all[p..p + 64];
  }

  lemma InputNext(was: seq<bv8>, input: seq<bv8>, i: nat)
    requires i + 64 <= |input| && (|was| + i) % 64 == 0
    ensures (|was| + (i + 64)) % 64 == 0
    ensures HashAll(H0, (was + input)[..|was| + (i + 64)]) == Compress(HashAll(H0, (was + input)[..|was| + i]), input[i..i + 64])
  {
    hide HashAll, Compress;
    HashNext(was + input, |was| + i);
    assert (was + input)[|was| + i..|was| + i + 64] == input[i..i + 64];
  }

  lemma ZerosNone(s: seq<bv8>)
    ensures s + Zeros(0) == s
  {
  }

  lemma ZerosMore(s: seq<bv8>, k: nat)
    requires k > 0
    ensures s + Zeros(k - 1) + [0] == s + Zeros(k)
  {
    assert Zeros(k) == Zeros(k - 1) + [0];
  }

  lemma NotYet(n: nat, k: nat)
    requires k <= PadZeros(n) && (n + 1 + k) % 64 != 56
    ensures k < PadZeros(n)
  {
  }

  lemma Enough(n: nat, k: nat)
    requires k <= PadZeros(n) && (n + 1 + k) % 64 == 56
    ensures k == PadZeros(n)
  {
  }

  /** The pieces of a message, none of them too long. */
  ghost predicate Short(pieces: seq<seq<bv8>>) {
    forall i :: 0 <= i < |pieces| ==> |pieces[i]| < 0x2000_0000
  }

  function Joined(pieces: seq<seq<bv8>>): seq<bv8> {
    if pieces == [] then [] else pieces[0] + Joined(pieces[1..])
  }

  lemma RestSize(n: nat, len: nat, i: nat, j: nat)
    requires i <= len && j + (len - i) < 64 && ((i == 0 && j == n % 64) || (j == 0 && (n + i) % 64 == 0))
    ensures (n + len) % 64 == j + (len - i)
  {
    assert n + len == (n + i) + (len - i);
  }

  lemma RestIs(was: seq<bv8>, input: seq<bv8>, i: nat, j: nat, buffer: seq<bv8>)
    requires |buffer| == 64 && i <= |input| && j + (|input| - i) < 64 && buffer[j..j + (|input| - i)] == input[i..]
    requires (i == 0 && j == |was| % 64 && buffer[..j] == was[|was| - j..]) || (j == 0 && (|was| + i) % 64 == 0)
    ensures var all := was + input; var m := |all| % 64;
            && m == j + (|input| - i) && buffer[..m] == all[|all| - m..]
            && (i == 0 && j == |was| % 64 ==> all[..|all| - m] == was[..|was| - j])
            && (j == 0 && (|was| + i) % 64 == 0 ==> all[..|all| - m] == all[..|was| + i])
  {
    var all := was + input;
    var m := j + (|input| - i);
    RestSize(|was|, |input|, i, j);
    assert buffer[..m] == buffer[..j] + buffer[j..m];
  }

  lemma FirstPiece(was: seq<bv8>, pieces: seq<seq<bv8>>)
    ensures pieces == [] ==> was == was + Joined(pieces)
    ensures pieces != [] ==>
              (was + pieces[0]) + Joined(pieces[1..]) == was + Joined(pieces)
  {
  }

  /** The high word of the count after the pieces. */
  function HighAfter(n: nat, c1: nat, pieces: seq<seq<bv8>>): nat
    decreases |pieces|
  {
    if pieces == [] then c1 else HighAfter(n + |pieces[0]|, CountHigh(8 * n % W32, c1, |pieces[0]|), pieces[1..])
  }

  method UpdateAll(c: Context, pieces: seq<seq<bv8>>)
    requires c.Valid()
    modifies c, c.buffer
    ensures c.Valid() && c.data == old(c.data) + Joined(pieces)
    ensures c.count1 == HighAfter(|old(c.data)|, old(c.count1), pieces)
    decreases |pieces|
  {
    hide *;
    AllPieces(c);
    FirstPiece(c.data, pieces);
    HighFirst(|c.data|, c.count0, c.count1, pieces);
    if pieces != [] {
      c.Update(pieces[0]);
      UpdateAll(c, pieces[1..]);
    }
  }

  lemma AllPieces(c: Context)
    requires c.Valid()
    ensures c.count0 == 8 * |c.data| % W32 && c.count1 < W32
  {
  }

  lemma HighFirst(n: nat, c0: nat, c1: nat, pieces: seq<seq<bv8>>)
    requires c0 == 8 * n % W32
    ensures HighAfter(n, c1, pieces) ==
            if pieces == [] then c1 else HighAfter(n + |pieces[0]|, CountHigh(c0, c1, |pieces[0]|), pieces[1..])
  {
  }

  /** However a message is cut, what is hashed is the whole, padded; only the length may be wrong. */
  method HashPieces(pieces: seq<seq<bv8>>) returns (digest: seq<bv8>)
    ensures var s := Joined(pieces); var high := HighAfter(0, 0, pieces);
            && digest == Digest(HashAll(H0, PaddedWith(s, TwoWords(high, 8 * |s| % W32))))
            && (Counted(|s|, 8 * |s| % W32, high) ==> digest == Hash(s))
  {
    hide Hash, HashAll, Joined, HighAfter, Digest, PaddedWith, TwoWords, Counted;
    var c := new Context();
    UpdateAll(c, pieces);
    assert [] + Joined(pieces) == Joined(pieces);
    AllPieces(c);
    digest := c.Final();
  }

  /** The length is right if no piece is too long. */
  lemma {:induction false} ShortCounted(n: nat, c1: nat, pieces: seq<seq<bv8>>)
    requires Short(pieces) && Counted(n, 8 * n % W32, c1)
    ensures Counted(n + |Joined(pieces)|, 8 * (n + |Joined(pieces)|) % W32, HighAfter(n, c1, pieces))
    decreases |pieces|
  {
    if pieces != [] {
      var len := |pieces[0]|;
      hide CountHigh, CountLow, Counted;
      StillCounted(n, 8 * n % W32, c1, len);
      ShortCarries(8 * n % W32, len);
      CountedLow(n + len, CountLow(8 * n % W32, len), CountHigh(8 * n % W32, c1, len));
      ShortCounted(n + len, CountHigh(8 * n % W32, c1, len), pieces[1..]);
    }
  }

  lemma CountedLow(n: nat, c0: nat, c1: nat)
    requires Counted(n, c0, c1)
    ensures c0 == 8 * n % W32
  {
  }
}
