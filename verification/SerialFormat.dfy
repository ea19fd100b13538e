/** The bytes of each kind of value, in numbers (lserialize.c:9-29, 226-350): the low three bits of the first byte are the
    type and the high five the cookie, and numbers have their low byte first. */
module SerialFormat {
  import opened Basics
  import opened Serial

  /** The number in the bytes from place i on. */
  function Two(s: seq<Byte>, i: nat): int
    requires i + 2 <= |s|
  {
    (s[i] as int) + 0x100 * (s[i + 1] as int)
  }

  function Four(s: seq<Byte>, i: nat): int
    requires i + 4 <= |s|
  {
    Two(s, i) + 0x1_0000 * Two(s, i + 2)
  }

  function Eight(s: seq<Byte>, i: nat): int
    requires i + 8 <= |s|
  {
    Four(s, i) + 0x1_0000_0000 * Four(s, i + 4)
  }

  lemma UnlittleTwo(s: seq<Byte>)
    requires |s| == 2
    ensures Unlittle(s) == Two(s, 0)
  {
    assert Unlittle(s[1..]) == s[1] + 256 * Unlittle(s[2..]);
  }

  lemma UnlittleFour(s: seq<Byte>)
    requires |s| == 4
    ensures Unlittle(s) == Four(s, 0)
  {
    UnlittleTwo(s[2..]);
    assert s[1..][1..] == s[2..];
    assert Unlittle(s[1..]) == s[1] + 256 * Unlittle(s[2..]);
  }

  lemma UnlittleEight(s: seq<Byte>)
    requires |s| == 8
    ensures Unlittle(s) == Eight(s, 0)
  {
    UnlittleFour(s[4..]);
    assert s[1..][1..] == s[2..] && s[2..][1..] == s[3..] && s[3..][1..] == s[4..];
    assert Unlittle(s[1..]) == s[1] + 256 * Unlittle(s[2..]);
    assert Unlittle(s[2..]) == s[2] + 256 * Unlittle(s[3..]);
    assert Unlittle(s[3..]) == s[3] + 256 * Unlittle(s[4..]);
  }

  lemma LittleOne(n: nat)
    requires n < 0x100
    ensures Little(n, 1) == [n]
  {
    assert Little(n, 1) == [n] + Little(n / 256, 0);
  }

  lemma LittleTwo(n: nat)
    requires n < 0x1_0000
    ensures Two(Little(n, 2), 0) == n
  {
    Limits();
    hide Little, Limit;
    LittleBack(n, 2);
    UnlittleTwo(Little(n, 2));
  }

  lemma LittleFour(n: nat)
    requires n < 0x1_0000_0000
    ensures Four(Little(n, 4), 0) == n
  {
    Limits();
    hide Little, Limit;
    LittleBack(n, 4);
    UnlittleFour(Little(n, 4));
  }

  lemma LittleEight(n: nat)
    requires n < 0x1_0000_0000_0000_0000
    ensures Eight(Little(n, 8), 0) == n
  {
    Limits();
    hide Little, Limit;
    LittleBack(n, 8);
    UnlittleEight(Little(n, 8));
  }

  lemma Behind(b: Byte, s: seq<Byte>)
    ensures |s| >= 2 ==> Two([b] + s, 1) == Two(s, 0)
    ensures |s| >= 4 ==> Four([b] + s, 1) == Four(s, 0)
    ensures |s| >= 8 ==> Eight([b] + s, 1) == Eight(s, 0)
  {
  }

  /** An integer takes one, two, three, five or nine bytes; a negative one is written modulo 2 to the power of 32 or 64. */
  ghost predicate IntegerBytes(i: int, e: seq<Byte>) {
    if i == 0 then e == [2]
    else if 0 < i < 0x100 then e == [10, i]
    else if 0x100 <= i < 0x1_0000 then |e| == 3 && e[0] == 18 && Two(e, 1) == i
    else if -0x8000_0000 <= i < 0x8000_0000 then
      |e| == 5 && e[0] == 34 && Four(e, 1) == if i < 0 then i + 0x1_0000_0000 else i
    else |e| == 9 && e[0] == 50 && Eight(e, 1) == if i < 0 then i + 0x1_0000_0000_0000_0000 else i
  }

  /** The first byte of a text shows its length up to 31; else two or four bytes follow. */
  ghost predicate TextBytes(s: seq<Byte>, e: seq<Byte>) {
    if |s| < 32 then e == [4 + 8 * |s|] + s
    else if |s| < 0x1_0000 then |e| == 3 + |s| && e[0] == 21 && Two(e, 1) == |s| && e[3..] == s
    else |e| == 5 + |s| && e[0] == 37 && Four(e, 1) == |s| && e[5..] == s
  }

  lemma Wrapped(i: int, m: int)
    requires 0 < m && -m <= i < m
    ensures i % m == if i < 0 then i + m else i
  {
    if i < 0 { assert (i + m) % m == i + m; }
  }

  /** The number that is written, its width, and the first byte. */
  lemma IntegerParts(i: int)
    requires -0x8000_0000_0000_0000 <= i < 0x8000_0000_0000_0000
    ensures var n, k, c := IntBits(i), IntWidth(i), Head(TYPE_NUMBER, IntCookie(i));
            && EncInt(i) == [c] + Little(n, k)
            && (if i == 0 then k == 0 && c == 2
                else if 0 < i < 0x100 then k == 1 && c == 10 && n == i
                else if 0x100 <= i < 0x1_0000 then k == 2 && c == 18 && n == i
                else if -0x8000_0000 <= i < 0x8000_0000 then k == 4 && c == 34 && n == if i < 0 then i + 0x1_0000_0000 else i
                else k == 8 && c == 50 && n == if i < 0 then i + 0x1_0000_0000_0000_0000 else i)
  {
    EncIntIs(i);
    hide Little, EncInt;
    if -0x8000_0000 <= i < 0x8000_0000 {
      Wrapped(i, 0x1_0000_0000);
    } else {
      Wrapped(i, 0x1_0000_0000_0000_0000);
    }
  }

  lemma IntegerIs(i: int)
    requires -0x8000_0000_0000_0000 <= i < 0x8000_0000_0000_0000
    ensures IntegerBytes(i, EncInt(i))
  {
    IntegerParts(i);
    var n, k, c := IntBits(i), IntWidth(i), Head(TYPE_NUMBER, IntCookie(i));
    hide Little, Two, Four, Eight, EncInt, IntBits, IntWidth, IntCookie, Head;
    Behind(c, Little(n, k));
    if k == 0 {
      assert Little(n, 0) == [];
    } else if k == 1 {
      LittleOne(n);
    } else if k == 2 {
      LittleTwo(n);
    } else if k == 4 {
      LittleFour(n);
    } else {
      LittleEight(n);
    }
  }

  lemma LongText(s: seq<Byte>, k: nat)
    requires 32 <= |s| < 0x8000_0000 && k == if |s| < 0x1_0000 then 2 else 4
    ensures EncText(s) == [if k == 2 then 21 else 37] + (Little(|s|, k) + s)
  {
    hide Little;
  }

  lemma TextIs(s: seq<Byte>)
    requires |s| < 0x8000_0000
    ensures TextBytes(s, EncText(s))
  {
    if |s| >= 32 {
      var k := if |s| < 0x1_0000 then 2 else 4;
      var l := Little(|s|, k);
      LongText(s, k);
      hide Little, Two, Four, Eight, EncText;
      Front(l, s);
      if k == 2 {
        LittleTwo(|s|);
        Behind(21, l + s);
      } else {
        LittleFour(|s|);
        Behind(37, l + s);
      }
    }
  }

  lemma Front(l: seq<Byte>, s: seq<Byte>)
    ensures |l| == 2 ==> Two(l + s, 0) == Two(l, 0)
    ensures |l| == 4 ==> Four(l + s, 0) == Four(l, 0)
  {
  }

  /** A table shows the length of its array part up to 30 in its first byte, else an integer follows; then come the array,
      the pairs, and nil. */
  ghost predicate Layout(v: Value, e: seq<Byte>)
    requires Proper(v)
  {
    match v
    case Nil => e == [0]
    case Boolean(b) => e == [if b then 9 else 1]
    case Integer(i) => IntegerBytes(i, e)
    case Real(bits) => e == [66] + bits
    case Text(s) => TextBytes(s, e)
    case Table(items, hash) =>
      exists d ::
        && (if Length(items) < 31 then d == [6 + 8 * Length(items)]
            else d != [] && d[0] == 254 && IntegerBytes(Length(items), d[1..]))
        && e == d + (EncAll(items) + EncPairs(hash))
    case Other => e == []
  }

  /** The bytes of every value. */
  lemma EncIs(v: Value)
    requires Proper(v)
    ensures Layout(v, Enc(v))
  {
    match v
    case Integer(i) => IntegerIs(i);
    case Text(s) => TextIs(s);
    case Table(items, hash) =>
      hide EncInt, IntegerBytes;
      IntegerIs(Length(items));
      var d := EncSize(Length(items));
      assert Enc(v) == d + (EncAll(items) + EncPairs(hash));
    case _ =>
  }

  /** The array part and the pairs, one behind the other. */
  lemma PartsAre(items: Values, hash: Pairs)
    requires ProperAll(items) && ProperPairs(hash)
    ensures EncAll(items) == if items.Item? then Enc(items.v) + EncAll(items.rest) else []
    ensures EncPairs(hash) == if hash.Pair? then Enc(hash.key) + (Enc(hash.value) + EncPairs(hash.rest)) else [0]
  {
  }

  // ---------- How deep a value may be ----------

  function Max(a: nat, b: nat): nat {
    if a < b then b else a
  }

  /** The greatest number of tables around a part of the value. */
  function Depth(v: Value): nat {
    match v
    case Table(items, hash) => Max(DepthOfItems(items), DepthOfPairs(hash))
    case _ => 0
  }

  function DepthOfItems(vs: Values): nat {
    match vs
    case End => 0
    case Item(v, rest) => Max(1 + Depth(v), DepthOfItems(rest))
  }

  function DepthOfPairs(ps: Pairs): nat {
    match ps
    case NoPair => 0
    case Pair(k, v, rest) => Max(1 + Max(Depth(k), Depth(v)), DepthOfPairs(rest))
  }

  /** Exactly the values without unsupported parts and at most 32 tables deep can be packed. */
  lemma {:induction false} PackableIs(v: Value, depth: nat)
    requires depth <= 32
    ensures Packable(v, depth) <==> !HasOther(v) && depth + Depth(v) <= 32
    decreases v
  {
    match v
    case Table(items, hash) =>
      ItemsPackable(items, depth);
      PairsPackable(hash, depth);
    case _ =>
  }

  lemma {:induction false} ItemsPackable(vs: Values, depth: nat)
    requires depth <= 32
    ensures PackableAll(vs, depth + 1) <==> !HasOtherAll(vs) && depth + DepthOfItems(vs) <= 32
    decreases vs
  {
    if vs.Item? {
      if depth < 32 { PackableIs(vs.v, depth + 1); }
      ItemsPackable(vs.rest, depth);
    }
  }

  lemma {:induction false} PairsPackable(ps: Pairs, depth: nat)
    requires depth <= 32
    ensures PackablePairs(ps, depth + 1) <==> !HasOtherPairs(ps) && depth + DepthOfPairs(ps) <= 32
    decreases ps
  {
    if ps.Pair? {
      if depth < 32 {
        PackableIs(ps.key, depth + 1);
        PackableIs(ps.value, depth + 1);
      }
      PairsPackable(ps.rest, depth);
    }
  }

  // ---------- What is refused ----------

  /** What was read is read all the same when more bytes follow. */
  ghost predicate More<T>(r: Parsed<T>, q: Parsed<T>, u: seq<Byte>) {
    r.Got? ==> q == Got(r.value, r.rest + u)
  }

  lemma TakeMore(s: seq<Byte>, n: nat, u: seq<Byte>)
    ensures More(Take(s, n), Take(s + u, n), u)
  {
    if n <= |s| {
      assert (s + u)[..n] == s[..n] && (s + u)[n..] == s[n..] + u;
    }
  }

  lemma IntMore(cookie: nat, s: seq<Byte>, u: seq<Byte>)
    ensures More(DecInt(cookie, s), DecInt(cookie, s + u), u)
  {
    TakeMore(s, 1, u);
    TakeMore(s, 2, u);
    TakeMore(s, 4, u);
    TakeMore(s, 8, u);
    hide Take, Unlittle, Signed;
  }

  lemma TextMore(s: seq<Byte>, n: nat, u: seq<Byte>)
    ensures More(DecText(s, n), DecText(s + u, n), u)
  {
    TakeMore(s, n, u);
    hide Take;
  }

  lemma LongMore(cookie: nat, s: seq<Byte>, u: seq<Byte>)
    ensures More(DecLong(cookie, s), DecLong(cookie, s + u), u)
  {
    TakeMore(s, cookie, u);
    if Take(s, cookie).Got? {
      TextMore(Take(s, cookie).rest, Unlittle(Take(s, cookie).value), u);
    }
    hide Take, Unlittle, DecText;
  }

  lemma SizeMore(cookie: nat, s: seq<Byte>, u: seq<Byte>)
    ensures More(DecSize(cookie, s), DecSize(cookie, s + u), u)
  {
    TakeMore(s, 1, u);
    if Take(s, 1).Got? {
      IntMore(Take(s, 1).value[0] / 8, Take(s, 1).rest, u);
    }
    hide DecInt;
  }

  lemma {:induction false} ValueMore(s: seq<Byte>, u: seq<Byte>)
    ensures More(Dec(s), Dec(s + u), u)
    decreases |s|, 0
  {
    TakeMore(s, 1, u);
    if Take(s, 1).Got? {
      var b, t := Take(s, 1).value, Take(s, 1).rest;
      BodyMore(b[0] % 8, b[0] / 8, t, u);
    }
    hide DecBody;
  }

  lemma {:induction false} BodyMore(kind: nat, cookie: nat, t: seq<Byte>, u: seq<Byte>)
    ensures More(DecBody(kind, cookie, t), DecBody(kind, cookie, t + u), u)
    decreases |t|, 3
  {
    hide Take, DecInt, DecText, DecLong, DecTable;
    if kind == TYPE_NUMBER {
      if cookie == NUMBER_REAL {
        TakeMore(t, 8, u);
      } else {
        IntMore(cookie, t, u);
      }
    } else if kind == TYPE_SHORT_STRING {
      TextMore(t, cookie, u);
    } else if kind == TYPE_LONG_STRING {
      LongMore(cookie, t, u);
    } else if kind == TYPE_TABLE {
      TableMore(cookie, t, u);
    }
  }

  lemma {:induction false} TableMore(cookie: nat, t: seq<Byte>, u: seq<Byte>)
    ensures More(DecTable(cookie, t), DecTable(cookie, t + u), u)
    decreases |t|, 2
  {
    SizeMore(cookie, t, u);
    var size := DecSize(cookie, t);
    if size.Got? {
      AllMore(size.value, size.rest, u);
      var items := DecAll(size.value, size.rest);
      if items.Got? {
        PairsMore(items.rest, u);
      }
    }
    hide DecSize, DecAll, DecPairs;
  }

  lemma {:induction false} AllMore(n: int, s: seq<Byte>, u: seq<Byte>)
    ensures More(DecAll(n, s), DecAll(n, s + u), u)
    decreases |s|, 1
  {
    if n > 0 {
      ValueMore(s, u);
      if Dec(s).Got? { AllMore(n - 1, Dec(s).rest, u); }
      hide Dec;
    }
  }

  lemma {:induction false} PairsMore(s: seq<Byte>, u: seq<Byte>)
    ensures More(DecPairs(s), DecPairs(s + u), u)
    decreases |s|, 1
  {
    ValueMore(s, u);
    if Dec(s).Got? && !Dec(s).value.Nil? {
      var t := Dec(s).rest;
      ValueMore(t, u);
      if Dec(t).Got? { PairsMore(Dec(t).rest, u); }
    }
    hide Dec;
  }

  /** A value that is cut off is refused, wherever it is cut. */
  lemma CutIsInvalid(v: Value, k: nat)
    requires Proper(v) && !HasOther(v) && k < |Enc(v)|
    ensures Dec(Enc(v)[..k]) == Invalid
  {
    hide Enc, Dec;
    var e := Enc(v);
    ValueBack(v, []);
    assert e + [] == e && e[..k] + e[k..] == e;
    ValueMore(e[..k], e[k..]);
  }

  /** First bytes that nothing can follow: a type that does not exist, and widths of numbers and of lengths that do not. */
  lemma RefusedHeads(b: Byte, t: seq<Byte>)
    requires var c := b / 8;
             || b % 8 == 7
             || (b % 8 == 2 && c != 0 && c != 1 && c != 2 && c != 4 && c != 6 && c != 8)
             || (b % 8 == 5 && c != 2 && c != 4)
    ensures Dec([b] + t) == Invalid
  {
    TakeFront([b], t);
    hide Take;
  }
}
