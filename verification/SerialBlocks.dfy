/** Chains of blocks of 128 bytes, written at the end and read from the front (lserialize.c:31-211, 710-766). A chain is
    the list of its buffers. */
module SerialBlocks {
  import opened Basics
  import opened Serial

  const BLOCK_SIZE := 128

  ghost function Joined(bs: seq<array<Byte>>): seq<Byte>
    reads set b | b in bs
  {
    if bs == [] then [] else bs[0][..] + Joined(bs[1..])
  }

  ghost predicate Chain(bs: seq<array<Byte>>) {
    && (forall i :: 0 <= i < |bs| ==> bs[i].Length == BLOCK_SIZE)
    && (forall i, j :: 0 <= i < j < |bs| ==> bs[i] != bs[j])
  }

  lemma {:induction false} JoinedLength(bs: seq<array<Byte>>)
    requires Chain(bs)
    ensures |Joined(bs)| == BLOCK_SIZE * |bs|
    decreases |bs|
  {
    if bs != [] { JoinedLength(bs[1..]); }
  }

  lemma {:induction false} JoinedPush(bs: seq<array<Byte>>, b: array<Byte>)
    ensures Joined(bs + [b]) == Joined(bs) + b[..]
    decreases |bs|
  {
    if bs == [] {
      assert [b][1..] == [];
    } else {
      assert (bs + [b])[1..] == bs[1..] + [b];
      JoinedPush(bs[1..], b);
    }
  }

  lemma JoinedLast(bs: seq<array<Byte>>)
    requires bs != []
    ensures Joined(bs) == Joined(bs[..|bs| - 1]) + bs[|bs| - 1][..]
  {
    assert bs == bs[..|bs| - 1] + [bs[|bs| - 1]];
    JoinedPush(bs[..|bs| - 1], bs[|bs| - 1]);
  }

  /** A closed chain: its length in the first four bytes, and the payload behind. */
  ghost predicate Message(bs: seq<array<Byte>>, payload: seq<Byte>)
    reads set b | b in bs
  {
    var len := 4 + |payload|;
    && bs != [] && Chain(bs) && len < INT_LIMIT && |bs| == (len - 1) / BLOCK_SIZE + 1
    && |Joined(bs)| == BLOCK_SIZE * |bs| && Joined(bs)[..len] == Little(len, 4) + payload
  }

  method Alloc() returns (b: array<Byte>)
    ensures fresh(b) && b.Length == BLOCK_SIZE
  {
    b := new Byte[BLOCK_SIZE];
  }

  method PutHeader(b: array<Byte>, l: seq<Byte>)
    requires b.Length == BLOCK_SIZE && |l| == 4
    modifies b
    ensures b[..4] == l && b[4..] == old(b[4..])
  {
    b[0], b[1], b[2], b[3] := l[0], l[1], l[2], l[3];
  }

  // ---------- Writing ----------

  class WriteBlock {
    var blocks: seq<array<Byte>>
    var len: nat
    var ptr: nat

    ghost predicate Valid()
      reads this
    {
      blocks != [] && Chain(blocks) && 0 < ptr <= BLOCK_SIZE && len == BLOCK_SIZE * (|blocks| - 1) + ptr
    }

    ghost function Content(): seq<Byte>
      reads this, set b | b in blocks
      requires blocks != [] && Chain(blocks) && ptr <= BLOCK_SIZE
    {
      Joined(blocks[..|blocks| - 1]) + blocks[|blocks| - 1][..ptr]
    }

    function Last(): array<Byte>
      reads this
      requires blocks != []
    {
      blocks[|blocks| - 1]
    }

    /** Only new blocks have been added. */
    twostate predicate Longer()
      reads this
    {
      old(blocks) != [] && blocks != [] && blocks[0] == old(blocks[0]) && (Last() == old(Last()) || fresh(Last()))
      && forall b :: b in blocks ==> b in old(blocks) || fresh(b)
    }

    /** wb_init for a new chain */
    constructor ()
      ensures Valid() && fresh(blocks[0]) && |blocks| == 1 && len == 4 && |Content()| == 4
    {
      var b := Alloc();
      b[0], b[1], b[2], b[3] := 0, 0, 0, 0;
      blocks := [b];
      len, ptr := 4, 4;
    }

    /** wb_init for a closed chain: the place behind its last byte. */
    constructor Append(bs: seq<array<Byte>>, ghost payload: seq<Byte>)
      requires Message(bs, payload)
      ensures Valid() && blocks == bs && Content() == Little(4 + |payload|, 4) + payload
    {
      HeaderOf(bs, payload);
      var sz := Unlittle(bs[0][..4]);
      blocks := bs;
      len := sz;
      var i := 0;
      while i + 1 < |bs|
        invariant 0 <= i < |bs| && sz == 4 + |payload| - BLOCK_SIZE * i
      {
        sz := sz - BLOCK_SIZE;
        i := i + 1;
      }
      ptr := sz;
      new;
      ContentIs(this);
    }

    /** The bytes fit into the last block. */
    method Put(buf: seq<Byte>)
      requires blocks != [] && Chain(blocks) && ptr + |buf| <= BLOCK_SIZE
      modifies this`len, this`ptr, Last()
      ensures ptr == old(ptr) + |buf| && len == old(len) + |buf| && Content() == old(Content()) + buf
    {
      ghost var front := Joined(blocks[..|blocks| - 1]);
      var b := blocks[|blocks| - 1];
      forall i | 0 <= i < |buf| { b[ptr + i] := buf[i]; }
      assert b !in blocks[..|blocks| - 1];
      assert b[..ptr + |buf|] == old(b[..ptr]) + buf;
      ptr := ptr + |buf|;
      len := len + |buf|;
    }

    /** The last block is full. */
    method Extend()
      requires blocks != [] && Chain(blocks) && ptr == BLOCK_SIZE
      modifies this`blocks, this`ptr
      ensures blocks != [] && Chain(blocks) && blocks == old(blocks) + [Last()] && fresh(Last()) && ptr == 0 && Content() == old(Content())
    {
      JoinedLast(blocks);
      var b := Alloc();
      blocks := blocks + [b];
      ptr := 0;
      assert blocks[..|blocks| - 1] == old(blocks);
    }

    /** wb_push */
    method Push(buf: seq<Byte>)
      requires Valid() && buf != []
      modifies this, Last()
      ensures Valid() && Longer() && Content() == old(Content()) + buf
    {
      hide Joined;
      var rest := buf;
      ghost var was := Content();
      if ptr == BLOCK_SIZE { Extend(); }
      while ptr > BLOCK_SIZE - |rest|
        invariant blocks != [] && Chain(blocks) && 0 <= ptr < BLOCK_SIZE && len == BLOCK_SIZE * (|blocks| - 1) + ptr
        invariant rest != [] && Longer() && Content() + rest == was + buf
        invariant Last() == old(Last()) || fresh(Last())
        decreases |rest|
      {
        var copy := BLOCK_SIZE - ptr;
        Halves(Content(), rest, copy);
        Put(rest[..copy]);
        rest := rest[copy..];
        Extend();
      }
      Put(rest);
    }

    /** wb_close: the length goes to the front. */
    method Close(ghost payload: seq<Byte>) returns (bs: seq<array<Byte>>)
      requires Valid() && len < INT_LIMIT && len == 4 + |payload| && Content()[4..] == payload
      modifies blocks[0]
      ensures bs == blocks && Message(bs, payload)
    {
      bs := blocks;
      var b := bs[0];
      ContentIs(this);
      JoinedLength(bs);
      assert Joined(bs) == b[..] + Joined(bs[1..]);
      var l := Little(len, 4);
      ghost var was, rest := b[..], Joined(bs[1..]);
      PutHeader(b, l);
      assert b !in bs[1..] && Joined(bs) == b[..] + rest;
      hide Joined, Little;
      HeaderPut(was, b[..], rest, l, len, payload);
    }
  }

  lemma ContentIs(w: WriteBlock)
    requires w.Valid()
    ensures w.len <= |Joined(w.blocks)| && w.Content() == Joined(w.blocks)[..w.len]
  {
    JoinedLast(w.blocks);
    JoinedLength(w.blocks[..|w.blocks| - 1]);
  }

  lemma HeaderPut(was: seq<Byte>, b: seq<Byte>, rest: seq<Byte>, l: seq<Byte>, len: nat, payload: seq<Byte>)
    requires |was| == |b| >= 4 && |l| == 4 && b[..4] == l && b[4..] == was[4..] && 4 <= len <= |was + rest|
    requires (was + rest)[..len][4..] == payload
    ensures (b + rest)[..len] == l + payload
  {
    assert (b + rest)[4..] == (was + rest)[4..];
    assert (b + rest)[..len] == (b + rest)[..4] + (b + rest)[4..][..len - 4];
    assert (was + rest)[..len][4..] == (was + rest)[4..][..len - 4];
  }

  lemma Halves(a: seq<Byte>, rest: seq<Byte>, copy: nat)
    requires copy <= |rest|
    ensures (a + rest[..copy]) + rest[copy..] == a + rest
  {
  }

  lemma HeaderOf(bs: seq<array<Byte>>, payload: seq<Byte>)
    requires Message(bs, payload)
    ensures bs[0][..4] == Little(4 + |payload|, 4) && Unlittle(bs[0][..4]) == 4 + |payload|
  {
    var len := 4 + |payload|;
    assert Joined(bs) == bs[0][..] + Joined(bs[1..]);
    hide Limit, Little, Unlittle, Joined;
    Limits();
    LittleBack(len, 4);
    FrontOf(bs[0][..], Joined(bs), len, Little(len, 4), payload);
    assert bs[0][..][..4] == bs[0][..4];
  }

  lemma FrontOf(b: seq<Byte>, all: seq<Byte>, len: nat, l: seq<Byte>, payload: seq<Byte>)
    requires |b| == BLOCK_SIZE && b <= all && |l| == 4 && 4 <= len <= |all| && all[..len] == l + payload
    ensures b[..4] == l
  {
    assert all[..4] == all[..len][..4];
  }

  // ---------- Reading ----------

  /** The reader of a chain frees every block that it leaves; the reader of a plain buffer frees nothing. */
  class ReadBlock {
    const flat: bool
    const buffer: seq<Byte>
    var blocks: seq<array<Byte>>
    var len: nat
    var ptr: nat
    ghost var freed: seq<array<Byte>>

    ghost predicate Valid()
      reads this
    {
      if flat then ptr + len <= |buffer|
      else
        && Chain(blocks) && ptr <= BLOCK_SIZE && ptr + len <= BLOCK_SIZE * |blocks|
    }

    /** The bytes that are still to be read. */
    ghost function Remaining(): (s: seq<Byte>)
      reads this, set b | b in blocks
      requires Valid()
      ensures |s| == len
    {
      JoinedSize(blocks);
      if flat then buffer[ptr..ptr + len] else Joined(blocks)[ptr..ptr + len]
    }

    /** Blocks are freed in their order, and none twice. */
    twostate predicate Frees()
      reads this
    {
      freed + blocks == old(freed) + old(blocks)
    }

    /** rb_init */
    constructor (bs: seq<array<Byte>>, ghost payload: seq<Byte>)
      requires Message(bs, payload)
      ensures Valid() && !flat && blocks == bs && freed == [] && Remaining() == payload
    {
      HeaderOf(bs, payload);
      flat, buffer, blocks, freed := false, [], bs, [];
      ptr := 4;
      len := Unlittle(bs[0][..4]) - 4;
      new;
      assert Joined(bs)[4..4 + |payload|] == Joined(bs)[..4 + |payload|][4..];
    }

    /** rball_init */
    constructor Flat(buf: seq<Byte>, ghost payload: seq<Byte>)
      requires 4 + |payload| < INT_LIMIT && buf == Little(4 + |payload|, 4) + payload
      ensures Valid() && flat && Remaining() == payload && freed == blocks == []
    {
      Limits();
      LittleBack(4 + |payload|, 4);
      assert buf[..4] == Little(4 + |payload|, 4);
      flat, buffer, blocks, freed := true, buf, [], [];
      ptr := 4;
      len := Unlittle(buf[..4]) - 4;
    }

    /** The current block is freed. */
    method Leave()
      requires Chain(blocks) && blocks != []
      modifies this`blocks, this`freed
      ensures blocks == old(blocks[1..]) && Chain(blocks) && Frees() && Joined(old(blocks)) == old(blocks[0][..]) + Joined(blocks)
    {
      freed := freed + [blocks[0]];
      blocks := blocks[1..];
    }

    /** rb_read: the next bytes, if there are so many. */
    method Read(sz: nat) returns (r: Option<seq<Byte>>)
      requires Valid()
      modifies this
      ensures Valid() && Frees()
      ensures r.None? <==> |old(Remaining())| < sz
      ensures r.None? ==> Remaining() == old(Remaining())
      ensures r.Some? ==> r.value == old(Remaining())[..sz] && Remaining() == old(Remaining())[sz..]
    {
      JoinedSize(blocks);
      if len < sz { return None; }
      if flat {
        r := Some(buffer[ptr..ptr + sz]);
        ptr := ptr + sz;
        len := len - sz;
        return;
      }
      r := ReadChain(sz);
    }

    /** A block that has been read to its end is left. */
    method Advance()
      requires Valid() && !flat
      modifies this
      ensures Valid() && Frees() && len == old(len) && ptr < BLOCK_SIZE && Remaining() == old(Remaining())
    {
      if ptr == BLOCK_SIZE {
        JoinedSize(blocks);
        Leave();
        ptr := 0;
        JoinedSize(blocks);
      }
    }

    method ReadChain(sz: nat) returns (r: Option<seq<Byte>>)
      requires Valid() && !flat && sz <= len
      modifies this
      ensures Valid() && Frees() && r.Some?
      ensures r.value == old(Remaining())[..sz] && Remaining() == old(Remaining())[sz..]
    {
      hide Joined, Chain;
      Advance();
      var copy := BLOCK_SIZE - ptr;
      if sz <= copy {
        JoinedSize(blocks);
        HasBlock(blocks, ptr, len);
        WithinFirst(blocks, ptr, len, sz);
        r := Some(if sz == 0 then [] else blocks[0][ptr..ptr + sz]);
        ptr := ptr + sz;
        len := len - sz;
      } else {
        var tmp := ReadOver(sz);
        r := Some(tmp);
      }
    }

    /** The bytes go over the end of the current block. */
    method ReadOver(sz0: nat) returns (tmp: seq<Byte>)
      requires Valid() && !flat && BLOCK_SIZE - ptr < sz0 <= len
      modifies this
      ensures Valid() && Frees()
      ensures tmp == old(Remaining())[..sz0] && Remaining() == old(Remaining())[sz0..]
    {
      hide Joined, Chain;
      JoinedSize(blocks);
      HasBlock(blocks, ptr, len);
      ghost var was := Remaining();
      var sz: nat := sz0;
      tmp := blocks[0][ptr..];
      sz := sz - (BLOCK_SIZE - ptr);
      len := len - (BLOCK_SIZE - ptr);
      BehindFirst(blocks, ptr, len);
      while true
        invariant blocks != [] && Chain(blocks) && !flat && Frees()
        invariant sz <= len <= BLOCK_SIZE * (|blocks| - 1) && len <= |Joined(blocks[1..])| && |tmp| + sz == sz0
        invariant was == tmp + Joined(blocks[1..])[..len]
        decreases sz, |blocks|
      {
        Leave();
        JoinedSize(blocks);
        HasBlock(blocks, 0, len);
        if sz < BLOCK_SIZE {
          ghost var tmp0 := tmp;
          if sz > 0 { tmp := tmp + blocks[0][..sz]; }
          TakeSome(was, tmp0, tmp, blocks, len, sz);
          ptr := sz;
          len := len - sz;
          return;
        }
        ghost var tmp0 := tmp;
        tmp := tmp + blocks[0][..];
        sz := sz - BLOCK_SIZE;
        len := len - BLOCK_SIZE;
        TakeWhole(was, tmp0, tmp, blocks, len);
      }
    }

    /** rb_close */
    method Close()
      requires Valid() && !flat
      modifies this
      ensures blocks == [] && Frees()
    {
      while blocks != []
        invariant Chain(blocks) && Frees() && !flat
        decreases |blocks|
      {
        freed := freed + [blocks[0]];
        blocks := blocks[1..];
      }
      len, ptr := 0, 0;
    }
  }

  lemma JoinedSize(bs: seq<array<Byte>>)
    ensures Chain(bs) ==> |Joined(bs)| == BLOCK_SIZE * |bs|
  {
    if Chain(bs) { JoinedLength(bs); }
  }

  lemma WithinFirst(bs: seq<array<Byte>>, ptr: nat, len: nat, sz: nat)
    requires Chain(bs) && sz <= len && ptr + len <= |Joined(bs)| && ptr + sz <= BLOCK_SIZE
    ensures sz > 0 ==> bs != [] && bs[0].Length == BLOCK_SIZE && Joined(bs)[ptr..ptr + len][..sz] == bs[0][ptr..ptr + sz]
    ensures Joined(bs)[ptr + sz..ptr + len] == Joined(bs)[ptr..ptr + len][sz..]
  {
    if sz > 0 {
      assert bs != [];
      var all, front, rest := Joined(bs), bs[0][..], Joined(bs[1..]);
      assert all == front + rest;
      hide Joined;
      assert all[ptr..ptr + sz] == front[ptr..ptr + sz];
    }
  }

  lemma BehindFirst(bs: seq<array<Byte>>, ptr: nat, len: nat)
    requires bs != [] && Chain(bs) && ptr <= BLOCK_SIZE && BLOCK_SIZE + len <= |Joined(bs)|
    ensures |Joined(bs[1..])| >= len
    ensures Joined(bs)[ptr..BLOCK_SIZE + len] == bs[0][ptr..] + Joined(bs[1..])[..len]
  {
  }

  lemma HasBlock(bs: seq<array<Byte>>, ptr: nat, len: nat)
    requires Chain(bs) && ptr + len <= BLOCK_SIZE * |bs|
    ensures ptr + len > 0 ==> bs != [] && bs[0].Length == BLOCK_SIZE
  {
  }

  lemma TakeWhole(was: seq<Byte>, tmp0: seq<Byte>, tmp: seq<Byte>, bs: seq<array<Byte>>, len: nat)
    requires bs != [] && Chain(bs) && BLOCK_SIZE + len <= |Joined(bs)|
    requires was == tmp0 + Joined(bs)[..BLOCK_SIZE + len] && tmp == tmp0 + bs[0][..]
    ensures len <= |Joined(bs[1..])| && was == tmp + Joined(bs[1..])[..len]
  {
    BehindFirst(bs, 0, len);
    hide Joined;
    assert Joined(bs)[0..BLOCK_SIZE + len] == Joined(bs)[..BLOCK_SIZE + len] && bs[0][0..] == bs[0][..];
  }

  lemma TakeSome(was: seq<Byte>, tmp0: seq<Byte>, tmp: seq<Byte>, bs: seq<array<Byte>>, len: nat, sz: nat)
    requires Chain(bs) && sz <= len <= |Joined(bs)| && sz < BLOCK_SIZE
    requires was == tmp0 + Joined(bs)[..len]
    requires if sz > 0 then bs != [] && tmp == tmp0 + bs[0][..sz] else tmp == tmp0
    ensures tmp == was[..|tmp|] && |tmp| == |tmp0| + sz && Joined(bs)[sz..len] == was[|tmp|..]
  {
    assert sz > 0 ==> Joined(bs)[..sz] == bs[0][..sz];
    hide Joined;
    assert Joined(bs)[..len] == Joined(bs)[..sz] + Joined(bs)[sz..len];
    assert Joined(bs)[..0] == [];
  }
}
