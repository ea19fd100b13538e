/** Packing, appending, unpacking and flattening (lserialize.c:213-452, 526-679, 710-766, 768-795). */
module SerialPack {
  import opened Basics
  import opened Serial
  import opened SerialBlocks

  // ---------- Packing ----------

  lemma Associate(a: seq<Byte>, b: seq<Byte>, c: seq<Byte>)
    ensures (a + b) + c == a + (b + c)
  {
  }

  /** The writers of one value; false stands for an error, after which the chain is gone. */
  method PackOne(wb: WriteBlock, v: Value, depth: nat) returns (ok: bool)
    requires wb.Valid() && Proper(v)
    modifies wb, wb.Last()
    ensures ok == Packable(v, depth)
    ensures ok ==> wb.Valid() && wb.Longer() && wb.Content() == old(wb.Content()) + Enc(v)
    decreases v, 1
  {
    if depth > MAX_DEPTH { return false; }
    match v {
      case Nil => wb.Push([Head(TYPE_NIL, 0)]); ok := true;
      case Boolean(b) => wb.Push([Head(TYPE_BOOLEAN, if b then 1 else 0)]); ok := true;
      case Integer(i) => PushInt(wb, i); ok := true;
      case Real(bits) => PushBoth(wb, [Head(TYPE_NUMBER, NUMBER_REAL)], bits); ok := true;
      case Text(s) => PushText(wb, s); ok := true;
      case Table(items, hash) => ok := PackTable(wb, v, depth + 1);
      case Other => ok := false;
    }
  }

  method PushBoth(wb: WriteBlock, a: seq<Byte>, b: seq<Byte>)
    requires wb.Valid() && a != [] && b != []
    modifies wb, wb.Last()
    ensures wb.Valid() && wb.Longer() && wb.Content() == old(wb.Content()) + (a + b)
  {
    Associate(wb.Content(), a, b);
    wb.Push(a);
    wb.Push(b);
  }

  /** wb_integer */
  method PushInt(wb: WriteBlock, v: int)
    requires wb.Valid() && -LONG_LIMIT <= v < LONG_LIMIT
    modifies wb, wb.Last()
    ensures wb.Valid() && wb.Longer() && wb.Content() == old(wb.Content()) + EncInt(v)
  {
    hide Little;
    if v == 0 {
      wb.Push([Head(TYPE_NUMBER, NUMBER_ZERO)]);
    } else if v < -INT_LIMIT || v >= INT_LIMIT {
      PushBoth(wb, [Head(TYPE_NUMBER, NUMBER_QWORD)], Little(v % (2 * LONG_LIMIT), 8));
    } else if v < 0 {
      PushBoth(wb, [Head(TYPE_NUMBER, NUMBER_DWORD)], Little(v % (2 * INT_LIMIT), 4));
    } else if v < 0x100 {
      PushBoth(wb, [Head(TYPE_NUMBER, NUMBER_BYTE)], Little(v, 1));
    } else if v < 0x1_0000 {
      PushBoth(wb, [Head(TYPE_NUMBER, NUMBER_WORD)], Little(v, 2));
    } else {
      PushBoth(wb, [Head(TYPE_NUMBER, NUMBER_DWORD)], Little(v, 4));
    }
  }

  /** wb_string */
  method PushText(wb: WriteBlock, s: seq<Byte>)
    requires wb.Valid() && |s| < INT_LIMIT
    modifies wb, wb.Last()
    ensures wb.Valid() && wb.Longer() && wb.Content() == old(wb.Content()) + EncText(s)
  {
    hide Little;
    if |s| < MAX_COOKIE {
      if |s| > 0 {
        PushBoth(wb, [Head(TYPE_SHORT_STRING, |s|)], s);
      } else {
        wb.Push([Head(TYPE_SHORT_STRING, 0)]);
        assert EncText(s) == [Head(TYPE_SHORT_STRING, 0)];
      }
    } else {
      var k := if |s| < 0x1_0000 then 2 else 4;
      Associate(wb.Content(), [Head(TYPE_LONG_STRING, k)] + Little(|s|, k), s);
      PushBoth(wb, [Head(TYPE_LONG_STRING, k)], Little(|s|, k));
      wb.Push(s);
    }
  }

  method PushSize(wb: WriteBlock, n: nat)
    requires wb.Valid() && n < INT_LIMIT
    modifies wb, wb.Last()
    ensures wb.Valid() && wb.Longer() && wb.Content() == old(wb.Content()) + EncSize(n)
  {
    hide EncInt;
    if n >= MAX_COOKIE - 1 {
      Associate(wb.Content(), [Head(TYPE_TABLE, MAX_COOKIE - 1)], EncInt(n));
      wb.Push([Head(TYPE_TABLE, MAX_COOKIE - 1)]);
      PushInt(wb, n);
    } else {
      wb.Push([Head(TYPE_TABLE, n)]);
    }
  }

  /** wb_table: the array part and then the other pairs. */
  method PackTable(wb: WriteBlock, v: Value, depth: nat) returns (ok: bool)
    requires wb.Valid() && Proper(v) && v.Table?
    modifies wb, wb.Last()
    ensures ok == (PackableAll(v.items, depth) && PackablePairs(v.hash, depth))
    ensures ok ==> wb.Valid() && wb.Longer() && wb.Content() == old(wb.Content()) + Enc(v)
    decreases v, 0
  {
    hide EncSize, EncAll, EncPairs, PackableAll, PackablePairs, Joined, WriteBlock.Content;
    ghost var was, e := wb.Content(), EncSize(Length(v.items));
    PushSize(wb, Length(v.items));
    ok := PackAll(wb, v.items, depth);
    if !ok { return; }
    ok := PackPairs(wb, v.hash, depth);
    if ok {
      Associate(was + e, EncAll(v.items), EncPairs(v.hash));
      Associate(was, e, EncAll(v.items) + EncPairs(v.hash));
    }
  }

  /** The loop of wb_table_array, and of pack_from. */
  method PackAll(wb: WriteBlock, vs: Values, depth: nat) returns (ok: bool)
    requires wb.Valid() && ProperAll(vs)
    modifies wb, wb.Last()
    ensures ok == PackableAll(vs, depth)
    ensures ok ==> wb.Valid() && wb.Longer() && wb.Content() == old(wb.Content()) + EncAll(vs)
    decreases vs, 0
  {
    ok := true;
    if vs.Item? {
      ghost var was := wb.Content();
      ok := PackOne(wb, vs.v, depth);
      if ok {
        ok := PackAll(wb, vs.rest, depth);
        Associate(was, Enc(vs.v), EncAll(vs.rest));
      }
    }
  }

  method PackEntry(wb: WriteBlock, ps: Pairs, depth: nat) returns (ok: bool)
    requires wb.Valid() && ProperPairs(ps) && ps.Pair?
    modifies wb, wb.Last()
    ensures ok == (Packable(ps.key, depth) && Packable(ps.value, depth))
    ensures ok ==> wb.Valid() && wb.Longer() && wb.Content() == old(wb.Content()) + (Enc(ps.key) + Enc(ps.value))
    decreases ps, 0
  {
    hide Enc, Packable, Joined, WriteBlock.Content;
    ghost var was := wb.Content();
    ok := PackOne(wb, ps.key, depth);
    if ok {
      ok := PackOne(wb, ps.value, depth);
      Associate(was, Enc(ps.key), Enc(ps.value));
    }
  }

  /** The loop of wb_table_hash. */
  method PackPairs(wb: WriteBlock, ps: Pairs, depth: nat) returns (ok: bool)
    requires wb.Valid() && ProperPairs(ps)
    modifies wb, wb.Last()
    ensures ok == PackablePairs(ps, depth)
    ensures ok ==> wb.Valid() && wb.Longer() && wb.Content() == old(wb.Content()) + EncPairs(ps)
    decreases ps, 1
  {
    hide Enc, Packable, Joined, WriteBlock.Content;
    if ps.NoPair? {
      wb.Push([Head(TYPE_NIL, 0)]);
      return true;
    }
    ghost var was := wb.Content();
    ok := PackEntry(wb, ps, depth);
    if ok {
      ok := PackPairs(wb, ps.rest, depth);
      Associate(was, Enc(ps.key) + Enc(ps.value), EncPairs(ps.rest));
      Associate(Enc(ps.key), Enc(ps.value), EncPairs(ps.rest));
    }
  }

  /** The content is a length and a payload. */
  lemma Behind4(wb: WriteBlock, start: seq<Byte>, payload: seq<Byte>)
    requires wb.Valid() && |start| == 4 && wb.Content() == start + payload
    ensures wb.len == 4 + |payload| && wb.Content()[4..] == payload
  {
    ContentIs(wb);
  }

  lemma NotEmpty(bs: seq<array<Byte>>, payload: seq<Byte>)
    requires Message(bs, payload)
    ensures bs != []
  {
  }

  /** lpack */
  method Pack(vs: Values) returns (r: Option<seq<array<Byte>>>)
    requires ProperAll(vs) && 4 + |EncAll(vs)| < INT_LIMIT
    ensures r.Some? == PackableAll(vs, 0)
    ensures r.Some? ==> Message(r.value, EncAll(vs)) && forall b :: b in r.value ==> fresh(b)
  {
    hide EncAll, PackableAll, Joined, WriteBlock.Content, Message, ProperAll;
    var wb := new WriteBlock();
    ghost var start := wb.Content();
    var ok := PackAll(wb, vs, 0);
    if !ok { return None; }
    Behind4(wb, start, EncAll(vs));
    var bs := wb.Close(EncAll(vs));
    return Some(bs);
  }

  /** lappend */
  method AppendTo(bs: seq<array<Byte>>, vs: Values, ghost payload: seq<Byte>) returns (r: Option<seq<array<Byte>>>)
    requires Message(bs, payload) && ProperAll(vs) && 4 + |payload| + |EncAll(vs)| < INT_LIMIT
    modifies bs[0], bs[|bs| - 1]
    ensures r.Some? == PackableAll(vs, 0)
    ensures r.Some? ==> Message(r.value, payload + EncAll(vs)) && forall b :: b in r.value ==> b in bs || fresh(b)
  {
    hide EncAll, PackableAll, Joined, WriteBlock.Content, Message, ProperAll, Little;
    NotEmpty(bs, payload);
    var wb := new WriteBlock.Append(bs, payload);
    ghost var start := Little(4 + |payload|, 4);
    var ok := PackAll(wb, vs, 0);
    if !ok { return None; }
    Associate(start, payload, EncAll(vs));
    Behind4(wb, start, payload + EncAll(vs));
    var all := wb.Close(payload + EncAll(vs));
    return Some(all);
  }
}
