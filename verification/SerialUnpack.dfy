/** Unpacking a chain or a plain buffer, and flattening a chain (lserialize.c:363-407, 526-679, 710-795). */
module SerialUnpack {
  import opened Basics
  import opened Serial
  import opened SerialBlocks

  /** What a reader is to give: the value that the bytes stand for, and the place behind it. None is an error of the
      stream. */
  ghost predicate Reads<T>(p: Parsed<T>, r: Option<T>, rest: seq<Byte>) {
    match p
    case Invalid => r.None?
    case Got(v, t) => r == Some(v) && rest == t
  }

  method TakeBytes(rb: ReadBlock, n: nat) returns (r: Option<seq<Byte>>)
    requires rb.Valid()
    modifies rb
    ensures rb.Valid() && rb.Frees()
    ensures Reads(Take(old(rb.Remaining()), n), r, rb.Remaining())
  {
    r := rb.Read(n);
  }

  /** get_integer */
  method GetInteger(rb: ReadBlock, cookie: nat) returns (r: Option<int>)
    requires rb.Valid()
    modifies rb
    ensures rb.Valid() && rb.Frees()
    ensures Reads(DecInt(cookie, old(rb.Remaining())), r, rb.Remaining())
  {
    hide Unlittle, Take;
    if cookie == NUMBER_ZERO { return Some(0); }
    if cookie != NUMBER_BYTE && cookie != NUMBER_WORD && cookie != NUMBER_DWORD && cookie != NUMBER_QWORD { return None; }
    var k := if cookie == NUMBER_BYTE then 1 else if cookie == NUMBER_WORD then 2 else if cookie == NUMBER_DWORD then 4 else 8;
    var b := TakeBytes(rb, k);
    if b.None? { return None; }
    var n := Unlittle(b.value);
    return Some(if k == 4 then Signed(n, INT_LIMIT) else if k == 8 then Signed(n, LONG_LIMIT) else n);
  }

  /** get_buffer */
  method GetText(rb: ReadBlock, n: nat) returns (r: Option<Value>)
    requires rb.Valid()
    modifies rb
    ensures rb.Valid() && rb.Frees()
    ensures Reads(DecText(old(rb.Remaining()), n), r, rb.Remaining())
  {
    hide Take;
    var b := TakeBytes(rb, n);
    if b.None? { return None; }
    return Some(Text(b.value));
  }

  method GetLong(rb: ReadBlock, cookie: nat) returns (r: Option<Value>)
    requires rb.Valid()
    modifies rb
    ensures rb.Valid() && rb.Frees()
    ensures Reads(DecLong(cookie, old(rb.Remaining())), r, rb.Remaining())
  {
    hide Take, Unlittle, DecText;
    if cookie != 2 && cookie != 4 { return None; }
    var b := TakeBytes(rb, cookie);
    if b.None? { return None; }
    r := GetText(rb, Unlittle(b.value));
  }

  method GetSize(rb: ReadBlock, cookie: nat) returns (r: Option<int>)
    requires rb.Valid()
    modifies rb
    ensures rb.Valid() && rb.Frees()
    ensures Reads(DecSize(cookie, old(rb.Remaining())), r, rb.Remaining())
  {
    hide DecInt;
    if cookie != MAX_COOKIE - 1 { return Some(cookie); }
    var b := TakeBytes(rb, 1);
    if b.None? || b.value[0] % 8 != TYPE_NUMBER || b.value[0] / 8 == NUMBER_REAL { return None; }
    r := GetInteger(rb, b.value[0] / 8);
  }

  /** unpack_one */
  method UnpackOne(rb: ReadBlock) returns (r: Option<Value>)
    requires rb.Valid()
    modifies rb
    ensures rb.Valid() && rb.Frees()
    ensures Reads(Dec(old(rb.Remaining())), r, rb.Remaining())
    decreases |rb.Remaining()|, 0
  {
    hide DecBody;
    var b := TakeBytes(rb, 1);
    if b.None? { return None; }
    r := PushValue(rb, b.value[0] % 8, b.value[0] / 8);
  }

  /** push_value */
  method PushValue(rb: ReadBlock, kind: nat, cookie: nat) returns (r: Option<Value>)
    requires rb.Valid()
    modifies rb
    ensures rb.Valid() && rb.Frees()
    ensures Reads(DecBody(kind, cookie, old(rb.Remaining())), r, rb.Remaining())
    decreases |rb.Remaining()|, 3
  {
    hide Take, DecInt, DecText, DecLong, DecTable;
    if kind == TYPE_NIL {
      return Some(Nil);
    } else if kind == TYPE_BOOLEAN {
      return Some(Boolean(cookie != 0));
    } else if kind == TYPE_NUMBER {
      if cookie == NUMBER_REAL {
        var b := TakeBytes(rb, 8);
        return if b.None? then None else Some(Real(b.value));
      }
      var i := GetInteger(rb, cookie);
      return if i.None? then None else Some(Integer(i.value));
    } else if kind == TYPE_SHORT_STRING {
      r := GetText(rb, cookie);
    } else if kind == TYPE_LONG_STRING {
      r := GetLong(rb, cookie);
    } else if kind == TYPE_TABLE {
      r := UnpackTable(rb, cookie);
    } else {
      return None;
    }
  }

  /** unpack_table */
  method UnpackTable(rb: ReadBlock, cookie: nat) returns (r: Option<Value>)
    requires rb.Valid()
    modifies rb
    ensures rb.Valid() && rb.Frees()
    ensures Reads(DecTable(cookie, old(rb.Remaining())), r, rb.Remaining())
    decreases |rb.Remaining()|, 2
  {
    hide DecSize, DecAll, DecPairs;
    var n := GetSize(rb, cookie);
    if n.None? { return None; }
    var items := UnpackItems(rb, n.value);
    if items.None? { return None; }
    var hash := UnpackPairs(rb);
    if hash.None? { return None; }
    return Some(Table(items.value, hash.value));
  }

  method UnpackItems(rb: ReadBlock, n: int) returns (r: Option<Values>)
    requires rb.Valid()
    modifies rb
    ensures rb.Valid() && rb.Frees()
    ensures Reads(DecAll(n, old(rb.Remaining())), r, rb.Remaining())
    decreases |rb.Remaining()|, 1
  {
    hide Dec;
    if n <= 0 { return Some(End); }
    var v := UnpackOne(rb);
    if v.None? { return None; }
    var rest := UnpackItems(rb, n - 1);
    if rest.None? { return None; }
    return Some(Item(v.value, rest.value));
  }

  method UnpackPairs(rb: ReadBlock) returns (r: Option<Pairs>)
    requires rb.Valid()
    modifies rb
    ensures rb.Valid() && rb.Frees()
    ensures Reads(DecPairs(old(rb.Remaining())), r, rb.Remaining())
    decreases |rb.Remaining()|, 1
  {
    hide Dec;
    var k := UnpackOne(rb);
    if k.None? { return None; }
    if k.value.Nil? { return Some(NoPair); }
    var v := UnpackOne(rb);
    if v.None? { return None; }
    var rest := UnpackPairs(rb);
    if rest.None? { return None; }
    return Some(Pair(k.value, v.value, rest.value));
  }

  /** The loop of lunpack and deserialize_buffer. */
  method UnpackRest(rb: ReadBlock) returns (r: Option<Values>)
    requires rb.Valid()
    modifies rb
    ensures rb.Valid() && rb.Frees()
    ensures Reads(DecRest(old(rb.Remaining())), r, rb.Remaining())
    decreases |rb.Remaining()|
  {
    hide Dec;
    if rb.len == 0 { return Some(End); }
    var v := UnpackOne(rb);
    if v.None? { return None; }
    var rest := UnpackRest(rb);
    if rest.None? { return None; }
    return Some(Item(v.value, rest.value));
  }

  /** lunpack: the values, and the blocks that have been freed. */
  method Unpack(bs: seq<array<Byte>>, ghost payload: seq<Byte>) returns (r: Option<Values>, ghost freed: seq<array<Byte>>)
    requires Message(bs, payload)
    ensures Reads(DecRest(payload), r, [])
    ensures r.Some? ==> freed == bs
  {
    hide DecRest, Message;
    var rb := new ReadBlock(bs, payload);
    RestIsEmpty(payload);
    r := UnpackRest(rb);
    if r.Some? { rb.Close(); }
    freed := rb.freed;
    assert freed + [] == freed && [] + bs == bs;
  }

  lemma {:induction false} RestIsEmpty(s: seq<Byte>)
    ensures DecRest(s).Got? ==> DecRest(s).rest == []
    decreases |s|
  {
    if s != [] && Dec(s).Got? { RestIsEmpty(Dec(s).rest); }
  }

  /** deserialize_buffer */
  method Deserialize(buffer: seq<Byte>, ghost payload: seq<Byte>) returns (r: Option<Values>)
    requires 4 + |payload| < INT_LIMIT && buffer == Little(4 + |payload|, 4) + payload
    ensures Reads(DecRest(payload), r, [])
  {
    hide DecRest, Little;
    var rb := new ReadBlock.Flat(buffer, payload);
    RestIsEmpty(payload);
    r := UnpackRest(rb);
  }

  /** lserialize: the chain as one buffer; every block is freed. */
  method Flatten(bs: seq<array<Byte>>, ghost payload: seq<Byte>) returns (buffer: seq<Byte>, ghost freed: seq<array<Byte>>)
    requires Message(bs, payload)
    ensures buffer == Little(4 + |payload|, 4) + payload && freed == bs
  {
    hide Joined, Little, Unlittle;
    HeaderOf(bs, payload);
    var len := Unlittle(bs[0][..4]);
    var i := 0;
    buffer, freed := [], [];
    JoinedStart(bs);
    while len > 0
      invariant 0 <= i <= |bs| && freed == bs[..i] && len == (if BLOCK_SIZE * i <= 4 + |payload| then 4 + |payload| - BLOCK_SIZE * i else 0)
      invariant |buffer| + len == 4 + |payload| <= |Joined(bs)| && buffer == Joined(bs)[..|buffer|]
      invariant len > 0 ==> i < |bs| && |buffer| == BLOCK_SIZE * i
    {
      JoinedPart(bs, i);
      var part := if len >= BLOCK_SIZE then bs[i][..] else bs[i][..len];
      PartNext(Joined(bs), buffer, part);
      buffer := buffer + part;
      len := len - |part|;
      freed := freed + [bs[i]];
      i := i + 1;
    }
    assert bs[..i] == bs;
  }

  lemma JoinedStart(bs: seq<array<Byte>>)
    ensures Joined(bs)[..0] == []
  {
  }

  lemma {:induction false} JoinedPart(bs: seq<array<Byte>>, i: nat)
    requires Chain(bs) && i < |bs|
    ensures BLOCK_SIZE * i + BLOCK_SIZE <= |Joined(bs)|
    ensures Joined(bs)[BLOCK_SIZE * i..BLOCK_SIZE * i + BLOCK_SIZE] == bs[i][..]
    decreases i
  {
    JoinedLength(bs);
    if i > 0 {
      JoinedPart(bs[1..], i - 1);
      var rest := Joined(bs[1..]);
      assert Joined(bs) == bs[0][..] + rest;
      assert Joined(bs)[BLOCK_SIZE * i..BLOCK_SIZE * i + BLOCK_SIZE] == rest[BLOCK_SIZE * (i - 1)..BLOCK_SIZE * (i - 1) + BLOCK_SIZE];
    }
  }

  lemma PartNext(all: seq<Byte>, buffer: seq<Byte>, part: seq<Byte>)
    requires |buffer| + |part| <= |all| && buffer == all[..|buffer|] && part == all[|buffer|..|buffer| + |part|]
    ensures buffer + part == all[..|buffer| + |part|]
  {
  }
}
