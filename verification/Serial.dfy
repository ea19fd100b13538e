/** The format of serialized values: what is written for each, and how it is read (lserialize.c:9-29, 226-350, 363-407,
    452-493, 526-648). */
module Serial {
  import opened Basics

  const MAX_COOKIE := 32
  const MAX_DEPTH := 32
  const TYPE_NIL := 0
  const TYPE_BOOLEAN := 1
  const TYPE_NUMBER := 2
  const TYPE_SHORT_STRING := 4
  const TYPE_LONG_STRING := 5
  const TYPE_TABLE := 6
  const NUMBER_ZERO := 0
  const NUMBER_BYTE := 1
  const NUMBER_WORD := 2
  const NUMBER_DWORD := 4
  const NUMBER_QWORD := 6
  const NUMBER_REAL := 8

  /** A table is given by the values at 1, 2, ... up to its length, and by the other pairs in the order in which they
      are visited. A real is given by its eight bytes. */
  datatype Value =
    | Nil | Boolean(b: bool) | Integer(i: int) | Real(bits: seq<Byte>) | Text(s: seq<Byte>)
    | Table(items: Values, hash: Pairs)
    | Other

  datatype Values = End | Item(v: Value, rest: Values)

  datatype Pairs = NoPair | Pair(key: Value, value: Value, rest: Pairs)

  function Length(vs: Values): nat {
    match vs
    case End => 0
    case Item(_, rest) => 1 + Length(rest)
  }

  const INT_LIMIT := 0x8000_0000
  const LONG_LIMIT := 0x8000_0000_0000_0000

  /** A value as the program has it: integers have 64 bits, lengths are ints, and no key is nil. */
  predicate Proper(v: Value) {
    match v
    case Integer(i) => -LONG_LIMIT <= i < LONG_LIMIT
    case Real(bits) => |bits| == 8
    case Text(s) => |s| < INT_LIMIT
    case Table(items, hash) => Length(items) < INT_LIMIT && ProperAll(items) && ProperPairs(hash)
    case _ => true
  }

  predicate ProperAll(vs: Values) {
    match vs
    case End => true
    case Item(v, rest) => Proper(v) && ProperAll(rest)
  }

  predicate ProperPairs(ps: Pairs) {
    match ps
    case NoPair => true
    case Pair(k, v, rest) => !k.Nil? && Proper(k) && Proper(v) && ProperPairs(rest)
  }

  /** The value can be packed at this depth: no kind that is not supported, and at most MAX_DEPTH tables around it. */
  predicate Packable(v: Value, depth: nat) {
    depth <= MAX_DEPTH && !v.Other? && (v.Table? ==> PackableAll(v.items, depth + 1) && PackablePairs(v.hash, depth + 1))
  }

  predicate PackableAll(vs: Values, depth: nat) {
    match vs
    case End => true
    case Item(v, rest) => Packable(v, depth) && PackableAll(rest, depth)
  }

  predicate PackablePairs(ps: Pairs, depth: nat) {
    match ps
    case NoPair => true
    case Pair(k, v, rest) => Packable(k, depth) && Packable(v, depth) && PackablePairs(rest, depth)
  }

  // ---------- Numbers as bytes ----------

  /** COMBINE_TYPE */
  function Head(kind: nat, cookie: nat): Byte
    requires kind < 8 && cookie < 32
  {
    kind + 8 * cookie
  }

  /** The k lowest bytes of a number, the lowest first. */
  function Little(n: nat, k: nat): (s: seq<Byte>)
    ensures |s| == k
    decreases k
  {
    if k == 0 then [] else [n % 256] + Little(n / 256, k - 1)
  }

  function Unlittle(s: seq<Byte>): nat
    decreases |s|
  {
    if s == [] then 0 else s[0] + 256 * Unlittle(s[1..])
  }

  function Limit(k: nat): nat {
    if k == 0 then 1 else 256 * Limit(k - 1)
  }

  lemma {:induction false} LittleBack(n: nat, k: nat)
    requires n < Limit(k)
    ensures Unlittle(Little(n, k)) == n
    decreases k
  {
    if k > 0 { LittleBack(n / 256, k - 1); }
  }

  lemma Limits()
    ensures Limit(1) == 0x100 && Limit(2) == 0x1_0000 && Limit(4) == 0x1_0000_0000
    ensures Limit(8) == 0x1_0000_0000_0000_0000
  {
    assert Limit(3) == 0x100_0000 && Limit(5) == 0x100_0000_0000 && Limit(6) == 0x1_0000_0000_0000;
    assert Limit(7) == 0x100_0000_0000_0000;
  }

  /** The bits of a signed number. */
  function Signed(n: nat, limit: nat): int {
    if n < limit then n else n - 2 * limit
  }

  // ---------- What is written ----------

  /** wb_integer */
  function EncInt(v: int): seq<Byte>
    requires -LONG_LIMIT <= v < LONG_LIMIT
  {
    if v == 0 then [Head(TYPE_NUMBER, NUMBER_ZERO)]
    else if v < -INT_LIMIT || v >= INT_LIMIT then [Head(TYPE_NUMBER, NUMBER_QWORD)] + Little(v % (2 * LONG_LIMIT), 8)
    else if v < 0 then [Head(TYPE_NUMBER, NUMBER_DWORD)] + Little(v % (2 * INT_LIMIT), 4)
    else if v < 0x100 then [Head(TYPE_NUMBER, NUMBER_BYTE)] + Little(v, 1)
    else if v < 0x1_0000 then [Head(TYPE_NUMBER, NUMBER_WORD)] + Little(v, 2)
    else [Head(TYPE_NUMBER, NUMBER_DWORD)] + Little(v, 4)
  }

  /** wb_string */
  function EncText(s: seq<Byte>): seq<Byte>
    requires |s| < INT_LIMIT
  {
    if |s| < MAX_COOKIE then [Head(TYPE_SHORT_STRING, |s|)] + s
    else if |s| < 0x1_0000 then [Head(TYPE_LONG_STRING, 2)] + Little(|s|, 2) + s
    else [Head(TYPE_LONG_STRING, 4)] + Little(|s|, 4) + s
  }

  function EncSize(n: nat): seq<Byte>
    requires n < INT_LIMIT
  {
    if n >= MAX_COOKIE - 1 then [Head(TYPE_TABLE, MAX_COOKIE - 1)] + EncInt(n) else [Head(TYPE_TABLE, n)]
  }

  /** pack_one */
  function Enc(v: Value): seq<Byte>
    requires Proper(v)
  {
    match v
    case Nil => [Head(TYPE_NIL, 0)]
    case Boolean(b) => [Head(TYPE_BOOLEAN, if b then 1 else 0)]
    case Integer(i) => EncInt(i)
    case Real(bits) => [Head(TYPE_NUMBER, NUMBER_REAL)] + bits
    case Text(s) => EncText(s)
    case Table(items, hash) => EncSize(Length(items)) + (EncAll(items) + EncPairs(hash))
    case Other => []
  }

  function EncAll(vs: Values): seq<Byte>
    requires ProperAll(vs)
  {
    match vs
    case End => []
    case Item(v, rest) => Enc(v) + EncAll(rest)
  }

  /** wb_table_hash: nil is the end. */
  function EncPairs(ps: Pairs): seq<Byte>
    requires ProperPairs(ps)
  {
    match ps
    case NoPair => [Head(TYPE_NIL, 0)]
    case Pair(k, v, rest) => Enc(k) + (Enc(v) + EncPairs(rest))
  }

  // ---------- What is read ----------

  datatype Parsed<T> = Invalid | Got(value: T, rest: seq<Byte>)

  /** The next n bytes. */
  function Take(s: seq<Byte>, n: nat): (r: Parsed<seq<Byte>>)
    ensures r.Got? ==> |r.rest| + n == |s| && r.value + r.rest == s
  {
    if n <= |s| then Got(s[..n], s[n..]) else Invalid
  }

  /** get_integer */
  function DecInt(cookie: nat, s: seq<Byte>): (r: Parsed<int>)
    ensures r.Got? ==> |r.rest| <= |s|
  {
    if cookie == NUMBER_ZERO then Got(0, s)
    else if cookie == NUMBER_BYTE then (match Take(s, 1) case Got(b, t) => Got(Unlittle(b), t) case Invalid => Invalid)
    else if cookie == NUMBER_WORD then (match Take(s, 2) case Got(b, t) => Got(Unlittle(b), t) case Invalid => Invalid)
    else if cookie == NUMBER_DWORD then (match Take(s, 4) case Got(b, t) => Got(Signed(Unlittle(b), INT_LIMIT), t) case Invalid => Invalid)
    else if cookie == NUMBER_QWORD then (match Take(s, 8) case Got(b, t) => Got(Signed(Unlittle(b), LONG_LIMIT), t) case Invalid => Invalid)
    else Invalid
  }

  /** The string behind its length. */
  function DecText(s: seq<Byte>, n: nat): (r: Parsed<Value>)
    ensures r.Got? ==> |r.rest| <= |s|
  {
    match Take(s, n) case Got(b, t) => Got(Text(b), t) case Invalid => Invalid
  }

  function DecLong(cookie: nat, s: seq<Byte>): (r: Parsed<Value>)
    ensures r.Got? ==> |r.rest| <= |s|
  {
    if cookie != 2 && cookie != 4 then Invalid
    else match Take(s, cookie) case Got(b, t) => DecText(t, Unlittle(b)) case Invalid => Invalid
  }

  /** The length of the array part of a table. */
  function DecSize(cookie: nat, s: seq<Byte>): (r: Parsed<int>)
    ensures r.Got? ==> |r.rest| <= |s|
  {
    if cookie != MAX_COOKIE - 1 then Got(cookie, s)
    else
      match Take(s, 1)
      case Invalid => Invalid
      case Got(b, t) => if b[0] % 8 != TYPE_NUMBER || b[0] / 8 == NUMBER_REAL then Invalid else DecInt(b[0] / 8, t)
  }

  /** unpack_one and push_value */
  function Dec(s: seq<Byte>): (r: Parsed<Value>)
    ensures r.Got? ==> |r.rest| < |s|
    decreases |s|, 0
  {
    match Take(s, 1)
    case Invalid => Invalid
    case Got(b, t) => DecBody(b[0] % 8, b[0] / 8, t)
  }

  function DecBody(kind: nat, cookie: nat, t: seq<Byte>): (r: Parsed<Value>)
    ensures r.Got? ==> |r.rest| <= |t|
    decreases |t|, 3
  {
    if kind == TYPE_NIL then Got(Nil, t)
    else if kind == TYPE_BOOLEAN then Got(Boolean(cookie != 0), t)
    else if kind == TYPE_NUMBER then
      if cookie == NUMBER_REAL then (match Take(t, 8) case Got(x, u) => Got(Real(x), u) case Invalid => Invalid)
      else (match DecInt(cookie, t) case Got(i, u) => Got(Integer(i), u) case Invalid => Invalid)
    else if kind == TYPE_SHORT_STRING then DecText(t, cookie)
    else if kind == TYPE_LONG_STRING then DecLong(cookie, t)
    else if kind == TYPE_TABLE then DecTable(cookie, t)
    else Invalid
  }

  /** unpack_table */
  function DecTable(cookie: nat, t: seq<Byte>): (r: Parsed<Value>)
    ensures r.Got? ==> |r.rest| <= |t|
    decreases |t|, 2
  {
    match DecSize(cookie, t)
    case Invalid => Invalid
    case Got(n, u) =>
      match DecAll(n, u)
      case Invalid => Invalid
      case Got(items, w) => match DecPairs(w) case Got(hash, x) => Got(Table(items, hash), x) case Invalid => Invalid
  }

  function DecAll(n: int, s: seq<Byte>): (r: Parsed<Values>)
    ensures r.Got? ==> |r.rest| <= |s|
    decreases |s|, 1
  {
    if n <= 0 then Got(End, s)
    else
      match Dec(s)
      case Invalid => Invalid
      case Got(v, t) => match DecAll(n - 1, t) case Got(vs, u) => Got(Item(v, vs), u) case Invalid => Invalid
  }

  function DecPairs(s: seq<Byte>): (r: Parsed<Pairs>)
    ensures r.Got? ==> |r.rest| <= |s|
    decreases |s|, 1
  {
    match Dec(s)
    case Invalid => Invalid
    case Got(k, t) =>
      if k.Nil? then Got(NoPair, t)
      else
        match Dec(t)
        case Invalid => Invalid
        case Got(v, u) => match DecPairs(u) case Got(ps, w) => Got(Pair(k, v, ps), w) case Invalid => Invalid
  }

  /** lunpack and deserialize_buffer: values up to the end. */
  function DecRest(s: seq<Byte>): Parsed<Values>
    decreases |s|
  {
    if s == [] then Got(End, [])
    else
      match Dec(s)
      case Invalid => Invalid
      case Got(v, t) => match DecRest(t) case Got(vs, u) => Got(Item(v, vs), u) case Invalid => Invalid
  }

  // ---------- Round trip ----------

  lemma TakeFront(a: seq<Byte>, t: seq<Byte>)
    ensures Take(a + t, |a|) == Got(a, t)
  {
  }

  /** The first byte of an encoding, taken apart. */
  lemma HeadRead(kind: nat, cookie: nat, t: seq<Byte>)
    requires kind < 8 && cookie < 32
    ensures Take([Head(kind, cookie)] + t, 1) == Got([Head(kind, cookie)], t)
    ensures Head(kind, cookie) % 8 == kind && Head(kind, cookie) / 8 == cookie
    ensures Dec([Head(kind, cookie)] + t) == DecBody(kind, cookie, t)
  {
    TakeFront([Head(kind, cookie)], t);
  }

  function IntCookie(v: int): nat {
    if v == 0 then NUMBER_ZERO
    else if v < -INT_LIMIT || v >= INT_LIMIT then NUMBER_QWORD
    else if v < 0 then NUMBER_DWORD
    else if v < 0x100 then NUMBER_BYTE
    else if v < 0x1_0000 then NUMBER_WORD
    else NUMBER_DWORD
  }

  function IntWidth(v: int): nat {
    if v == 0 then 0 else if v < -INT_LIMIT || v >= INT_LIMIT then 8 else if v < 0 || v >= 0x1_0000 then 4 else if v < 0x100 then 1 else 2
  }

  function IntBits(v: int): nat {
    if v < -INT_LIMIT || v >= INT_LIMIT then v % (2 * LONG_LIMIT) else v % (2 * INT_LIMIT)
  }

  lemma EncIntIs(v: int)
    requires -LONG_LIMIT <= v < LONG_LIMIT
    ensures EncInt(v) == [Head(TYPE_NUMBER, IntCookie(v))] + Little(IntBits(v), IntWidth(v))
    ensures v != 0 ==> IntBits(v) < Limit(IntWidth(v))
  {
    Limits();
    hide Limit;
  }

  lemma NumberBack(cookie: nat, n: nat, k: nat, t: seq<Byte>)
    requires n < Limit(k)
    requires (cookie == NUMBER_BYTE && k == 1) || (cookie == NUMBER_WORD && k == 2) || (cookie == NUMBER_DWORD && k == 4)
             || (cookie == NUMBER_QWORD && k == 8)
    ensures DecInt(cookie, Little(n, k) + t) ==
            Got(if k == 4 then Signed(n, INT_LIMIT) else if k == 8 then Signed(n, LONG_LIMIT) else n, t)
  {
    hide Little, Unlittle, Limit, Signed;
    LittleBack(n, k);
    TakeFront(Little(n, k), t);
    hide Take;
  }

  lemma BitsBack(v: int)
    requires -LONG_LIMIT <= v < LONG_LIMIT && v != 0
    ensures var k, n := IntWidth(v), IntBits(v);
            && v == (if k == 4 then Signed(n, INT_LIMIT) else if k == 8 then Signed(n, LONG_LIMIT) else n)
            && ((IntCookie(v) == NUMBER_BYTE && k == 1) || (IntCookie(v) == NUMBER_WORD && k == 2)
                || (IntCookie(v) == NUMBER_DWORD && k == 4) || (IntCookie(v) == NUMBER_QWORD && k == 8))
  {
  }

  /** An integer is read back, whatever its size and sign. */
  lemma IntBack(v: int, t: seq<Byte>)
    requires -LONG_LIMIT <= v < LONG_LIMIT
    ensures var e := EncInt(v);
            && e != [] && e[0] == Head(TYPE_NUMBER, IntCookie(v)) && DecInt(IntCookie(v), e[1..] + t) == Got(v, t)
  {
    hide Little, EncInt, Limit, IntBits, Signed;
    EncIntIs(v);
    var e, l := EncInt(v), Little(IntBits(v), IntWidth(v));
    assert e[1..] == l;
    if v != 0 {
      hide DecInt;
      BitsBack(v);
      hide IntCookie, IntWidth;
      NumberBack(IntCookie(v), IntBits(v), IntWidth(v), t);
    } else {
      assert e[1..] + t == t;
    }
  }

  lemma TextBack(s: seq<Byte>, t: seq<Byte>)
    requires |s| < INT_LIMIT
    ensures Dec(EncText(s) + t) == Got(Text(s), t)
  {
    Limits();
    hide Limit;
    if |s| < MAX_COOKIE {
      assert EncText(s) + t == [Head(TYPE_SHORT_STRING, |s|)] + (s + t);
      HeadRead(TYPE_SHORT_STRING, |s|, s + t);
      TakeFront(s, t);
    } else {
      var k := if |s| < 0x1_0000 then 2 else 4;
      var l := Little(|s|, k);
      assert EncText(s) + t == [Head(TYPE_LONG_STRING, k)] + (l + (s + t));
      HeadRead(TYPE_LONG_STRING, k, l + (s + t));
      TakeFront(l, s + t);
      LittleBack(|s|, k);
      TakeFront(s, t);
    }
  }

  lemma IntegerBack(i: int, t: seq<Byte>)
    requires -LONG_LIMIT <= i < LONG_LIMIT
    ensures Dec(EncInt(i) + t) == Got(Integer(i), t)
  {
    var e := EncInt(i);
    IntBack(i, t);
    assert e + t == [Head(TYPE_NUMBER, IntCookie(i))] + (e[1..] + t);
    HeadRead(TYPE_NUMBER, IntCookie(i), e[1..] + t);
  }

  lemma SizeBack(n: nat, t: seq<Byte>)
    requires n < INT_LIMIT
    ensures var e := EncSize(n); e != [] && e[0] % 8 == TYPE_TABLE && DecSize(e[0] / 8, e[1..] + t) == Got(n, t)
  {
    hide EncInt, DecInt;
    var e := EncSize(n);
    if n >= MAX_COOKIE - 1 {
      var f := EncInt(n);
      IntBack(n, t);
      assert e[1..] + t == [Head(TYPE_NUMBER, IntCookie(n))] + (f[1..] + t);
      HeadRead(TYPE_NUMBER, IntCookie(n), f[1..] + t);
    } else {
      assert e[1..] + t == t;
    }
  }

  /** A value is read back, and what follows it is left. */
  lemma {:induction false} ValueBack(v: Value, t: seq<Byte>)
    requires Proper(v) && !HasOther(v)
    ensures Dec(Enc(v) + t) == Got(v, t)
    decreases v
  {
    match v
    case Nil => HeadRead(TYPE_NIL, 0, t);
    case Boolean(b) => HeadRead(TYPE_BOOLEAN, if b then 1 else 0, t);
    case Integer(i) => IntegerBack(i, t);
    case Real(bits) =>
      assert Enc(v) + t == [Head(TYPE_NUMBER, NUMBER_REAL)] + (bits + t);
      HeadRead(TYPE_NUMBER, NUMBER_REAL, bits + t);
      TakeFront(bits, t);
    case Text(s) => TextBack(s, t);
    case Table(items, hash) =>
      AllBack(items, EncPairs(hash) + t);
      PairsBack(hash, t);
      TableBack(items, hash, t);
  }

  lemma TableBack(items: Values, hash: Pairs, t: seq<Byte>)
    requires Proper(Table(items, hash))
    requires DecAll(Length(items), EncAll(items) + (EncPairs(hash) + t)) == Got(items, EncPairs(hash) + t)
    requires DecPairs(EncPairs(hash) + t) == Got(hash, t)
    ensures Dec(Enc(Table(items, hash)) + t) == Got(Table(items, hash), t)
  {
    hide Enc, EncAll, EncPairs, EncSize, DecAll, DecPairs, DecSize, Dec, DecTable, Take, Length;
    var n := Length(items);
    var e, body := EncSize(n), EncAll(items) + (EncPairs(hash) + t);
    SizeBack(n, body);
    EncTable(items, hash);
    TableShape(e, EncAll(items), EncPairs(hash), t);
    assert e[0] == Head(TYPE_TABLE, e[0] / 8);
    HeadRead(TYPE_TABLE, e[0] / 8, e[1..] + body);
    TableOf(e[0] / 8, e[1..] + body, n, body, items, hash, t);
  }

  lemma EncTable(items: Values, hash: Pairs)
    requires Proper(Table(items, hash))
    ensures Enc(Table(items, hash)) == EncSize(Length(items)) + (EncAll(items) + EncPairs(hash))
  {
  }

  lemma TableShape(e: seq<Byte>, a: seq<Byte>, b: seq<Byte>, t: seq<Byte>)
    requires e != []
    ensures (e + (a + b)) + t == [e[0]] + (e[1..] + (a + (b + t)))
  {
  }

  lemma TableOf(cookie: nat, s: seq<Byte>, n: nat, body: seq<Byte>, items: Values, hash: Pairs, t: seq<Byte>)
    requires DecSize(cookie, s) == Got(n, body)
    requires exists w :: DecAll(n, body) == Got(items, w) && DecPairs(w) == Got(hash, t)
    ensures DecTable(cookie, s) == Got(Table(items, hash), t)
  {
    hide DecSize, DecAll, DecPairs;
  }

  lemma {:induction false} AllBack(vs: Values, t: seq<Byte>)
    requires ProperAll(vs) && !HasOtherAll(vs)
    ensures DecAll(Length(vs), EncAll(vs) + t) == Got(vs, t)
    decreases vs
  {
    hide Enc, Dec;
    if vs.Item? {
      ValueBack(vs.v, EncAll(vs.rest) + t);
      AllBack(vs.rest, t);
      assert EncAll(vs) + t == Enc(vs.v) + (EncAll(vs.rest) + t);
    } else {
      assert EncAll(vs) + t == t;
    }
  }

  lemma {:induction false} PairsBack(ps: Pairs, t: seq<Byte>)
    requires ProperPairs(ps) && !HasOtherPairs(ps)
    ensures DecPairs(EncPairs(ps) + t) == Got(ps, t)
    decreases ps
  {
    hide Enc, Dec;
    if ps.Pair? {
      ValueBack(ps.key, Enc(ps.value) + (EncPairs(ps.rest) + t));
      ValueBack(ps.value, EncPairs(ps.rest) + t);
      PairsBack(ps.rest, t);
      assert EncPairs(ps) + t == Enc(ps.key) + (Enc(ps.value) + (EncPairs(ps.rest) + t));
    } else {
      HeadRead(TYPE_NIL, 0, t);
    }
  }

  /** Some part is of a kind that cannot be packed. */
  predicate HasOther(v: Value) {
    match v
    case Other => true
    case Table(items, hash) => HasOtherAll(items) || HasOtherPairs(hash)
    case _ => false
  }

  predicate HasOtherAll(vs: Values) {
    match vs
    case End => false
    case Item(v, rest) => HasOther(v) || HasOtherAll(rest)
  }

  predicate HasOtherPairs(ps: Pairs) {
    match ps
    case NoPair => false
    case Pair(k, v, rest) => HasOther(k) || HasOther(v) || HasOtherPairs(rest)
  }

  lemma PackableHasNone(v: Value, depth: nat)
    ensures Packable(v, depth) ==> !HasOther(v)
    decreases v
  {
    if v.Table? {
      PackableAllHaveNone(v.items, depth + 1);
      PackablePairsHaveNone(v.hash, depth + 1);
    }
  }

  lemma PackableAllHaveNone(vs: Values, depth: nat)
    ensures PackableAll(vs, depth) ==> !HasOtherAll(vs)
    decreases vs
  {
    if vs.Item? {
      PackableHasNone(vs.v, depth);
      PackableAllHaveNone(vs.rest, depth);
    }
  }

  lemma PackablePairsHaveNone(ps: Pairs, depth: nat)
    ensures PackablePairs(ps, depth) ==> !HasOtherPairs(ps)
    decreases ps
  {
    if ps.Pair? {
      PackableHasNone(ps.key, depth);
      PackableHasNone(ps.value, depth);
      PackablePairsHaveNone(ps.rest, depth);
    }
  }

  /** Every list of values that can be packed is read back. */
  lemma {:induction false} ListBack(vs: Values)
    requires ProperAll(vs) && PackableAll(vs, 0)
    ensures DecRest(EncAll(vs)) == Got(vs, [])
    decreases vs
  {
    if vs.Item? {
      PackableHasNone(vs.v, 0);
      ValueBack(vs.v, EncAll(vs.rest));
      ListBack(vs.rest);
    }
  }

  function Concat(vs: Values, ws: Values): Values {
    match vs
    case End => ws
    case Item(v, rest) => Item(v, Concat(rest, ws))
  }

  lemma {:induction false} EncConcat(vs: Values, ws: Values)
    requires ProperAll(vs) && ProperAll(ws)
    ensures ProperAll(Concat(vs, ws)) && EncAll(Concat(vs, ws)) == EncAll(vs) + EncAll(ws)
    decreases vs
  {
    hide Enc;
    if vs.Item? {
      EncConcat(vs.rest, ws);
      assert Enc(vs.v) + (EncAll(vs.rest) + EncAll(ws)) == (Enc(vs.v) + EncAll(vs.rest)) + EncAll(ws);
    }
  }

  lemma {:induction false} PackableConcat(vs: Values, ws: Values)
    requires PackableAll(vs, 0) && PackableAll(ws, 0)
    ensures PackableAll(Concat(vs, ws), 0)
    decreases vs
  {
    if vs.Item? { PackableConcat(vs.rest, ws); }
  }

  /** Values that are appended are read behind the others. */
  lemma AppendedBack(vs: Values, ws: Values)
    requires ProperAll(vs) && ProperAll(ws) && PackableAll(vs, 0) && PackableAll(ws, 0)
    ensures DecRest(EncAll(vs) + EncAll(ws)) == Got(Concat(vs, ws), [])
  {
    EncConcat(vs, ws);
    PackableConcat(vs, ws);
    ListBack(Concat(vs, ws));
  }
}
