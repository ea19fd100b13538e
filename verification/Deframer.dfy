/** Packets out of a stream of bytes that comes in pieces (socket_buffer.c:7-150). */
module Deframer {
  import opened Basics
  import opened SocketStream

  // ---------- What a stream of frames means ----------

  /** Four bytes, the highest first. */
  function Big32(s: seq<Byte>): nat
    requires |s| >= 4
  {
    (s[0] as int) * 0x100_0000 + (s[1] as int) * 0x1_0000 + (s[2] as int) * 0x100 + (s[3] as int)
  }

  function Bytes32(n: nat): (s: seq<Byte>)
    ensures |s| == 4
  {
    [n / 0x100_0000 % 0x100, n / 0x1_0000 % 0x100, n / 0x100 % 0x100, n % 0x100]
  }

  lemma Big32Bytes(n: nat)
    requires n < 0x1_0000_0000
    ensures Big32(Bytes32(n)) == n
  {
  }

  lemma Bytes32Big(s: seq<Byte>)
    requires |s| == 4
    ensures Bytes32(Big32(s)) == s && Big32(s) < 0x1_0000_0000
  {
    var n := Big32(s);
    var a, b, c, d := s[0] as int, s[1] as int, s[2] as int, s[3] as int;
    assert n / 0x100 == a * 0x1_0000 + b * 0x100 + c && n % 0x100 == d;
    assert n / 0x1_0000 == a * 0x100 + b;
    assert n / 0x100_0000 == a;
    assert Bytes32(n) == [s[0], s[1], s[2], s[3]] == s;
  }

  /** The first frame is there. A frame without payload needs a byte behind it. */
  predicate Complete(s: seq<Byte>) {
    |s| >= 4 && |s| - 4 >= Big32(s) && (Big32(s) == 0 ==> |s| > 4)
  }

  function Packet(s: seq<Byte>): seq<Byte>
    requires Complete(s)
  {
    s[4..4 + Big32(s)]
  }

  function Behind(s: seq<Byte>): (r: seq<Byte>)
    requires Complete(s)
    ensures |r| < |s|
  {
    s[4 + Big32(s)..]
  }

  function Packets(s: seq<Byte>): seq<seq<Byte>>
    decreases |s|
  {
    if Complete(s) then [Packet(s)] + Packets(Behind(s)) else []
  }

  function Rest(s: seq<Byte>): seq<Byte>
    decreases |s|
  {
    if Complete(s) then Rest(Behind(s)) else s
  }

  /** No length has its top bit set. */
  predicate Lengths(s: seq<Byte>)
    decreases |s|
  {
    (|s| >= 4 ==> Big32(s) < 0x8000_0000) && (Complete(s) ==> Lengths(Behind(s)))
  }

  /** Bytes that come later do not change the packets that are there. */
  lemma {:induction false} PacketsMore(s: seq<Byte>, t: seq<Byte>)
    ensures Packets(s + t) == Packets(s) + Packets(Rest(s) + t)
    ensures Rest(s + t) == Rest(Rest(s) + t)
    decreases |s|
  {
    if Complete(s) {
      var u := s + t;
      assert Big32(u) == Big32(s) && Complete(u);
      assert Packet(u) == Packet(s) && Behind(u) == Behind(s) + t;
      PacketsMore(Behind(s), t);
    } else {
      assert Packets(s) == [];
    }
  }

  /** The packets of a stream that is pushed piece by piece, all that is there being popped each time. */
  function Fed(s: seq<Byte>, pieces: seq<seq<Byte>>): seq<seq<Byte>>
    decreases |pieces|
  {
    if pieces == [] then [] else Packets(s + pieces[0]) + Fed(Rest(s + pieces[0]), pieces[1..])
  }

  lemma FedFirst(s: seq<Byte>, pieces: seq<seq<Byte>>)
    requires pieces != []
    ensures var t := s + pieces[0];
            && Fed(s, pieces) == Packets(t) + Fed(Rest(t), pieces[1..]) && s + Flat(pieces) == t + Flat(pieces[1..])
  {
    FlatFirst(pieces);
    hide Packets, Rest, Flat;
  }

  /** It does not matter how the stream is cut. */
  lemma {:induction false} CutAnyhow(s: seq<Byte>, pieces: seq<seq<Byte>>)
    requires Packets(s) == []
    ensures Fed(s, pieces) == Packets(s + Flat(pieces))
    decreases |pieces|
  {
    if pieces == [] {
      assert s + [] == s;
    } else {
      hide *;
      var t := s + pieces[0];
      FedFirst(s, pieces);
      RestHasNone(t);
      CutAnyhow(Rest(t), pieces[1..]);
      PacketsMore(t, Flat(pieces[1..]));
    }
  }

  lemma {:induction false} RestHasNone(s: seq<Byte>)
    ensures Packets(Rest(s)) == []
    decreases |s|
  {
    if Complete(s) { RestHasNone(Behind(s)); }
  }

  /** A frame is read back. */
  lemma FrameRead(payload: seq<Byte>, more: seq<Byte>)
    requires 0 < |payload| < 0x8000_0000
    ensures var s := Bytes32(|payload|) + payload + more;
            Complete(s) && Packet(s) == payload && Behind(s) == more
  {
    var s := Bytes32(|payload|) + payload + more;
    Big32Bytes(|payload|);
    assert s[..4] == Bytes32(|payload|);
    assert Big32(s) == Big32(s[..4]);
  }

  // ---------- Streams with other lengths ----------

  const NO_HEADER := 0xffff_ffff

  /** What sb_pop gives: nothing yet, a packet, or a length that is negative as an int, for which pushpack asks for a
      negative number of bytes. */
  datatype Pull = Wait | Pulled(packet: seq<Byte>) | Broken

  /** The next packet of any stream, and what is left. A length of all ones is taken for 'no header yet': it is
      dropped, and what follows waits. */
  function Next(s: seq<Byte>): (r: (Pull, seq<Byte>))
    ensures r.0.Pulled? ==> |r.1| < |s|
  {
    if |s| < 4 then (Wait, s)
    else if Big32(s) == NO_HEADER then (Wait, s[4..])
    else if Big32(s) >= 0x8000_0000 then (if |s| > 4 then Broken else Wait, s)
    else if Complete(s) then (Pulled(Packet(s)), Behind(s))
    else (Wait, s)
  }

  /** What popping gives until there is nothing more. */
  datatype Haul = Haul(packets: seq<seq<Byte>>, rest: seq<Byte>, broken: bool)

  function Popping(s: seq<Byte>): Haul
    decreases |s|
  {
    match Next(s)
    case (Wait, t) => Haul([], t, false)
    case (Broken, t) => Haul([], t, true)
    case (Pulled(p), t) => var h := Popping(t); h.(packets := [p] + h.packets)
  }

  /** Where all lengths are as they should be, that is every complete packet. */
  lemma {:induction false} PoppingIs(s: seq<Byte>)
    requires Lengths(s)
    ensures Popping(s) == Haul(Packets(s), Rest(s), false)
    decreases |s|
  {
    if Complete(s) { PoppingIs(Behind(s)); }
  }

  /** A frame of length 0 is an empty packet, as soon as another byte is there. */
  lemma EmptyFrame(more: seq<Byte>)
    ensures var s := [0, 0, 0, 0] + more;
            && Popping([0, 0, 0, 0]) == Haul([], [0, 0, 0, 0], false)
            && (more != [] ==> Popping(s) == Haul([[]] + Popping(more).packets, Popping(more).rest, Popping(more).broken))
  {
    var z: seq<Byte> := [0, 0, 0, 0];
    var s := z + more;
    assert Big32(z) == 0 && Big32(s) == 0;
    if more != [] {
      assert s[4..4] == [] && s[4..] == more;
      assert Next(s) == (Pulled([]), more);
    }
  }

  /** Nothing comes behind a length that is negative as an int and not all ones. */
  lemma NegativeLength(s: seq<Byte>)
    requires |s| > 4 && s[0] >= 128 && s[..4] != [255, 255, 255, 255]
    ensures Popping(s) == Haul([], s, true)
  {
    Bytes32Big(s[..4]);
    assert Big32(s) == Big32(s[..4]);
    assert Big32(s) >= 0x8000_0000;
  }

  /** With a length of all ones the packets depend on the cut: a packet behind it is popped if it comes later, and not
      if it comes at once. */
  lemma CutMatters(packet: seq<Byte>)
    requires 0 < |packet| < 0x8000_0000
    ensures var bad, frame := [255, 255, 255, 255], Bytes32(|packet|) + packet;
            && Popping(bad + frame) == Haul([], frame, false)
            && Popping(bad) == Haul([], [], false) && Popping(frame) == Haul([packet], [], false)
  {
    var bad: seq<Byte>, frame := [255, 255, 255, 255], Bytes32(|packet|) + packet;
    assert Big32(bad + frame) == Big32(bad) == NO_HEADER;
    assert (bad + frame)[4..] == frame && bad[4..] == [];
    FrameRead(packet, []);
    assert Bytes32(|packet|) + packet + [] == frame;
    Big32Bytes(|packet|);
    assert frame[..4] == Bytes32(|packet|) && Big32(frame) == Big32(frame[..4]);
    assert Popping([]) == Haul([], [], false);
  }

  /** The packets of a stream that comes in two pieces. */
  function InTwo(a: seq<Byte>, b: seq<Byte>): seq<seq<Byte>> {
    var h := Popping(a);
    h.packets + (if h.broken then [] else Popping(h.rest + b).packets)
  }

  lemma PulledMore(a: seq<Byte>, b: seq<Byte>)
    requires Next(a).0.Pulled?
    ensures Next(a + b) == (Next(a).0, Next(a).1 + b)
  {
    var n := 4 + Big32(a);
    assert Big32(a + b) == Big32(a);
    assert (a + b)[4..n] == a[4..n] && (a + b)[n..] == a[n..] + b;
  }

  lemma FirstPulled(s: seq<Byte>)
    requires Next(s).0.Pulled?
    ensures var h := Popping(Next(s).1); Popping(s) == h.(packets := [Next(s).0.packet] + h.packets)
  {
  }

  lemma NoneAtFront(s: seq<Byte>)
    requires !Next(s).0.Pulled?
    ensures Popping(s) == Haul([], Next(s).1, Next(s).0.Broken?)
  {
  }

  /** What comes later: the same length is dropped, and the same length ends it all. */
  lemma LaterToo(a: seq<Byte>, b: seq<Byte>)
    requires !Next(a).0.Pulled? && Next(a) != (Wait, a)
    ensures Next(a).0.Broken? ==> Next(a + b) == (Broken, a + b)
    ensures Next(a).0.Wait? ==> Next(a + b) == (Wait, Next(a).1 + b)
  {
    assert Big32(a + b) == Big32(a) && (a + b)[4..] == a[4..] + b;
  }

  lemma AddNone(p: seq<Byte>, qs: seq<seq<Byte>>, rs: seq<seq<Byte>>)
    ensures [] + qs == qs && qs + [] == qs && ([p] + qs) + rs == [p] + (qs + rs)
  {
  }

  lemma {:induction false} CutFar(a: seq<Byte>, b: seq<Byte>)
    requires Popping(Popping(a + b).rest).packets == []
    ensures InTwo(a, b) == Popping(a + b).packets
    decreases |a|
  {
    if Next(a).0.Pulled? {
      var p, t := Next(a).0.packet, Next(a).1;
      PulledMore(a, b);
      FirstPulled(a);
      FirstPulled(a + b);
      hide Next, Popping;
      CutFar(t, b);
      var h := Popping(t);
      AddNone(p, h.packets, if h.broken then [] else Popping(h.rest + b).packets);
    } else {
      NoneAtFront(a);
      if Next(a) != (Wait, a) {
        LaterToo(a, b);
        NoneAtFront(a + b);
      }
      hide Next, Popping;
      AddNone([], Popping(Popping(a).rest + b).packets, []);
    }
  }

  /** The place behind the last byte that popping has taken, where it has dropped a length. */
  lemma {:induction false} CutBehind(s: seq<Byte>) returns (a: seq<Byte>)
    requires Popping(Popping(s).rest).packets != []
    ensures a != [] && a + Popping(s).rest == s && Popping(a) == Haul(Popping(s).packets, [], false)
    decreases |s|
  {
    if Next(s).0.Pulled? {
      var t := Next(s).1;
      FirstPulled(s);
      hide Next, Popping;
      var c := CutBehind(t);
      a := InFront(s, c, Popping(s).rest);
      FirstPulled(a);
    } else {
      NoneAtFront(s);
      a := s[..4];
      DroppedAlone(s);
    }
  }

  lemma InFront(s: seq<Byte>, c: seq<Byte>, b: seq<Byte>) returns (a: seq<Byte>)
    requires Next(s).0.Pulled? && c != [] && c + b == Next(s).1
    ensures a != [] && a + b == s && Next(a) == (Next(s).0, c)
  {
    var n := 4 + Big32(s);
    a := s[..n] + c;
    assert s[..n] + (c + b) == s;
    assert Big32(a) == Big32(s) && a[4..n] == s[4..n] && a[n..] == c;
  }

  lemma DroppedAlone(s: seq<Byte>)
    requires !Next(s).0.Pulled? && Popping(Next(s).1).packets != []
    ensures |s| >= 4 && Next(s) == (Wait, s[4..]) && s[..4] + s[4..] == s && Popping(s[..4]) == Haul([], [], false)
  {
    NoneAtFront(s);
    assert |s| >= 4;
    assert Big32(s[..4]) == Big32(s) && s[..4][4..] == [];
    hide Popping;
    NoneAtFront(s[..4]);
  }

  /** It does not matter where a stream is cut in two, exactly if popping it has not left packets behind a dropped
      length. */
  lemma CutExact(s: seq<Byte>)
    ensures (forall a, b :: a + b == s ==> InTwo(a, b) == Popping(s).packets) <==> Popping(Popping(s).rest).packets == []
  {
    hide Popping, InTwo;
    if Popping(Popping(s).rest).packets == [] {
      forall a, b | a + b == s ensures InTwo(a, b) == Popping(s).packets { CutFar(a, b); }
    } else {
      var a := CutBehind(s);
      CutShows(s, a, Popping(s).rest);
    }
  }

  lemma CutShows(s: seq<Byte>, a: seq<Byte>, b: seq<Byte>)
    requires Popping(a) == Haul(Popping(s).packets, [], false) && Popping(b).packets != []
    ensures InTwo(a, b) != Popping(s).packets
  {
    hide Popping;
    assert [] + b == b;
  }

  // ---------- The buffer ----------

  class SocketBuffer {
    var nodes: seq<seq<Byte>>
    var size: int
    var offset: nat
    var header: int

    ghost predicate Valid()
      reads this
    {
      && Chunks(nodes) && offset < (if nodes == [] then 1 else |nodes[0]|)
      && size == |Unread()| && -0x8000_0000 <= header < 0x8000_0000
    }

    ghost function Unread(): seq<Byte>
      reads this`nodes, this`offset
    {
      if offset <= |Flat(nodes)| then Flat(nodes)[offset..] else []
    }

    /** -1 stands for a header that is still to be read. */
    ghost function HeaderBytes(): seq<Byte>
      reads this
    {
      if header == -1 then [] else Bytes32(U32(header))
    }

    /** What is to come, a header that has been read included. */
    ghost function Stream(): seq<Byte>
      reads this
    {
      HeaderBytes() + Unread()
    }

    /** sb_init */
    constructor ()
      ensures Valid() && Stream() == []
    {
      nodes, size, offset, header := [], 0, 0, -1;
    }

    /** sb_push */
    method Push(buf: seq<Byte>)
      requires Valid() && buf != []
      modifies this
      ensures Valid() && Stream() == old(Stream()) + buf
    {
      hide Flat, Bytes32;
      FlatPush(nodes, buf);
      FirstIn(nodes);
      NothingYet(nodes);
      ghost var h := HeaderBytes();
      PushStream(h, Flat(nodes), offset, buf);
      nodes := nodes + [buf];
      size := size + |buf|;
    }

    /** pushpack: the bytes from the offset on, up to a place in some node. */
    method PushPack(node: nat, end: nat, n: nat) returns (pack: seq<Byte>)
      requires Valid() && node < |nodes| && end <= |nodes[node]| && (node == 0 ==> offset <= end)
      requires n == |Flat(nodes[..node])| + end - offset
      ensures |pack| == n <= |Unread()| && pack == Unread()[..n]
    {
      hide Flat;
      var o, current := offset, 0;
      pack := [];
      FirstIn(nodes);
      PackStart(nodes, node);
      while current != node
        invariant 0 <= current <= node && (current > 0 ==> o == 0) && (current == 0 ==> o == offset && pack == [])
        invariant current > 0 ==> offset <= |Flat(nodes[..current])| && pack == Flat(nodes[..current])[offset..]
      {
        ghost var front := Flat(nodes[..current]);
        pack := pack + nodes[current][o..];
        FlatNext(nodes, current);
        if current > 0 { PushStream([], front, offset, nodes[current]); }
        current := current + 1;
        o := 0;
      }
      pack := pack + nodes[current][o..end];
      FlatNext(nodes, node);
      FlatPrefix(nodes, node + 1);
      PackIs(Flat(nodes), Flat(nodes[..node]), nodes[node], offset, end);
    }

    /** freebuffer: the nodes in front of that place are dropped. */
    method FreeBuffer(node: nat, end: nat)
      requires Valid() && node < |nodes| && end <= |nodes[node]| && (node == 0 ==> offset <= end)
      modifies this
      ensures Valid() && header == old(header)
      ensures var k := |Flat(old(nodes[..node]))| + end - old(offset);
              0 <= k <= |old(Unread())| && Unread() == old(Unread())[k..]
    {
      hide Flat, Chunks;
      var i := 0;
      size := size + offset;
      ghost var all, was, off := nodes, Unread(), offset;
      Cut(all, node, end, off);
      while i < node
        invariant 0 <= i <= node && nodes == all[i..] && size == |Flat(all[i..])| && header == old(header) && offset == off
      {
        FlatFirst(nodes);
        size := size - |nodes[0]|;
        nodes := nodes[1..];
        i := i + 1;
      }
      var last := nodes[0];
      FlatFirst(nodes);
      if |last| == end {
        nodes := nodes[1..];
        size := size - |last|;
        offset := 0;
      } else {
        size := size - end;
        offset := end;
      }
      ChunksBehind(all, if |last| == end then node + 1 else node);
      assert nodes == all[if |last| == end then node + 1 else node..];
      assert Flat(nodes)[0..] == Flat(nodes);
    }

    /** readhead, for the four bytes of a length: -1 if they are not there yet. */
    method ReadHead() returns (h: int)
      requires Valid()
      modifies this
      ensures Valid() && header == old(header)
      ensures |old(Unread())| < 4 ==> h == -1 && Unread() == old(Unread())
      ensures |old(Unread())| >= 4 ==> h == Signed(Big32(old(Unread()))) && Unread() == old(Unread())[4..]
    {
      hide Flat, Chunks;
      if size < 4 { return -1; }
      var head, current, o, i := 0, 0, offset, 0;
      FirstIn(nodes);
      Start(nodes);
      while current < |nodes|
        invariant unchanged(this) && 0 <= current <= |nodes| && 0 <= i < 4 && 0 <= o && (current < |nodes| ==> o <= |nodes[current]|)
        invariant (current == |nodes| ==> o == 0) && |Flat(nodes[..current])| + o == offset + i
        invariant head == Front(Unread(), i)
        invariant current == 0 ==> o >= offset
      {
        while o < |nodes[current]|
          invariant unchanged(this) && 0 <= i < 4 && 0 <= o <= |nodes[current]| && |Flat(nodes[..current])| + o == offset + i
          invariant head == Front(Unread(), i)
          invariant current == 0 ==> o >= offset
          decreases |nodes[current]| - o
        {
          ByteAt(nodes, current, o);
          FrontNext(Unread(), i);
          i := i + 1;
          head := head + Shifted(nodes[current][o], 4 - i);
          if i >= 4 {
            FreeBuffer(current, o + 1);
            return Signed(head);
          }
          o := o + 1;
        }
        FlatNext(nodes, current);
        current := current + 1;
        o := 0;
      }
      All(nodes);
      return -1;
    }

    /** The bytes up to a place in some node are copied, and dropped. */
    method TakeOut(node: nat, end: nat, n: nat) returns (pack: seq<Byte>)
      requires Valid() && node < |nodes| && end <= |nodes[node]| && (node == 0 ==> offset <= end)
      requires n == |Flat(nodes[..node])| + end - offset
      modifies this
      ensures Valid() && header == old(header)
      ensures n <= |old(Unread())| && pack == old(Unread())[..n] && Unread() == old(Unread())[n..]
    {
      hide Flat, Chunks;
      pack := PushPack(node, end, n);
      FreeBuffer(node, end);
    }

    /** readn: the bytes of a packet, if they are there. */
    method ReadN(n: int) returns (p: Pull)
      requires Valid()
      modifies this
      ensures p.Broken? <==> n < 0 && |old(Unread())| > 0
      ensures p.Pulled? <==> 0 <= n <= |old(Unread())| && (n == 0 ==> |old(Unread())| > 0)
      ensures !p.Broken? ==> Valid() && header == old(header)
      ensures p.Wait? ==> unchanged(this)
      ensures p.Pulled? ==> p.packet == old(Unread())[..n] && Unread() == old(Unread())[n..]
    {
      hide Flat, Chunks;
      if size < n { return Wait; }
      var current, o, sz := 0, offset, 0;
      FirstIn(nodes);
      Start(nodes);
      while current < |nodes|
        invariant unchanged(this) && 0 <= current <= |nodes| && (current == 0 ==> sz == 0 && o == offset)
        invariant current > 0 ==> o == 0 && sz < n && sz == |Flat(nodes[..current])| - offset
      {
        sz := sz + |nodes[current]| - o;
        FlatNext(nodes, current);
        if n < 0 {
          SomeUnread(nodes, offset);
          return Broken;
        }
        if sz >= n {
          var end := |nodes[current]| - (sz - n);
          var pack := TakeOut(current, end, n);
          return Pulled(pack);
        }
        current := current + 1;
        o := 0;
      }
      All(nodes);
      return Wait;
    }

    /** The header is read unless that has been done. */
    method Head() returns (ok: bool)
      requires Valid()
      modifies this
      ensures Valid() && (ok <==> |old(Stream())| >= 4 && Big32(old(Stream())) != NO_HEADER)
      ensures ok ==> Stream() == old(Stream()) && U32(header) == Big32(old(Stream())) && Unread() == old(Stream())[4..]
      ensures !ok ==> Stream() == if |old(Stream())| >= 4 then old(Stream())[4..] else old(Stream())
      ensures ok <==> header != -1
    {
      hide Flat, Chunks, Bytes32, Big32;
      ghost var u := Unread();
      if header == -1 {
        assert [] + u == u;
        header := ReadHead();
        if |u| >= 4 { HeadIs(u); }
        assert [] + Unread() == Unread();
      } else {
        HeadKept(header, u);
      }
      return header != -1;
    }

    /** sb_pop: the next packet, if it is there. */
    method Pop() returns (p: Pull)
      requires Valid()
      modifies this
      ensures p == Next(old(Stream())).0
      ensures !p.Broken? ==> Valid() && Stream() == Next(old(Stream())).1
    {
      hide Flat, Chunks, Bytes32, Big32, Next, U32;
      ghost var s := Stream();
      var ok := Head();
      if !ok {
        NextNone(s);
        return Wait;
      }
      p := Payload(header, s);
    }

    method Payload(h: int, ghost s: seq<Byte>) returns (p: Pull)
      requires Valid() && header == h != -1 && |s| >= 4 && U32(h) == Big32(s) && Stream() == s && Unread() == s[4..]
      modifies this
      ensures p == Next(s).0
      ensures !p.Broken? ==> Valid() && Stream() == Next(s).1
    {
      hide Flat, Chunks, Bytes32, Big32, Next, U32, Unread, HeaderBytes, Stream;
      ghost var rest := Unread();
      p := ReadN(h);
      NextIs(s, rest, h, p);
      if p.Pulled? {
        ghost var left := Unread();
        header := -1;
        WithoutHeader(this, left);
      }
    }

    /** The loop of a reader: all packets that are there; false stands for a negative length. */
    method PopAll() returns (ps: seq<seq<Byte>>, ok: bool)
      requires Valid()
      modifies this
      ensures var h := Popping(old(Stream())); ps == h.packets && ok == !h.broken && (ok ==> Valid() && Stream() == h.rest)
    {
      hide Popping, Next, Popped;
      ps, ok := [], true;
      ghost var s := Stream();
      NonePopped(s);
      while true
        invariant Valid() && Popped(ps, Stream(), s)
        decreases |Stream()|
      {
        ghost var t := Stream();
        var p := Pop();
        PoppedNext(ps, t, s);
        if p.Wait? { break; }
        if p.Broken? { return ps, false; }
        ps := ps + [p.packet];
      }
    }
  }

  lemma FlatFirst(bs: seq<seq<Byte>>)
    requires bs != []
    ensures Flat(bs) == bs[0] + Flat(bs[1..])
  {
  }

  lemma ChunksBehind(bs: seq<seq<Byte>>, k: nat)
    requires Chunks(bs) && k <= |bs|
    ensures Chunks(bs[k..]) && (bs[k..] != [] ==> |bs[k..][0]| > 0)
  {
  }

  /** What is left behind a place in some node. */
  lemma Cut(bs: seq<seq<Byte>>, node: nat, end: nat, offset: nat)
    requires node < |bs| && end <= |bs[node]| && (node == 0 ==> offset <= end) && (bs != [] ==> offset <= |bs[0]|)
    ensures offset <= |Flat(bs)| && Flat(bs[node..]) == bs[node] + Flat(bs[node + 1..])
    ensures var k := |Flat(bs[..node])| + end - offset;
            0 <= k <= |Flat(bs)| - offset && Flat(bs)[offset..][k..] == Flat(bs[node..])[end..]
  {
    FlatPrefix(bs, node);
    FlatFirst(bs[node..]);
    assert bs[node..][1..] == bs[node + 1..];
    if node > 0 {
      FlatFirst(bs[..node]);
      assert bs[..node][0] == bs[0];
    } else {
      assert bs[..0] == [];
    }
  }

  /** The packets ps have been popped, and t is left. */
  ghost predicate Popped(ps: seq<seq<Byte>>, t: seq<Byte>, s: seq<Byte>) {
    var h := Popping(t);
    Popping(s) == h.(packets := ps + h.packets)
  }

  lemma NonePopped(s: seq<Byte>)
    ensures Popped([], s, s)
  {
    assert [] + Popping(s).packets == Popping(s).packets;
  }

  lemma PoppedNext(ps: seq<seq<Byte>>, t: seq<Byte>, s: seq<Byte>)
    requires Popped(ps, t, s)
    ensures var (p, u) := Next(t);
            && (p.Pulled? ==> Popped(ps + [p.packet], u, s) && |u| < |t|)
            && (!p.Pulled? ==> Popping(s) == Haul(ps, u, p.Broken?))
  {
    var (p, u) := Next(t);
    if p.Pulled? {
      assert ps + ([p.packet] + Popping(u).packets) == (ps + [p.packet]) + Popping(u).packets;
    } else {
      assert ps + [] == ps;
    }
  }

  /** An int as a uint32_t. */
  function U32(n: int): nat {
    n % 0x1_0000_0000
  }

  lemma HeadIs(u: seq<Byte>)
    requires |u| >= 4
    ensures u == Bytes32(Big32(u)) + u[4..] && U32(Signed(Big32(u))) == Big32(u)
    ensures -0x8000_0000 <= Signed(Big32(u)) < 0x8000_0000 && (Signed(Big32(u)) == -1 <==> Big32(u) == NO_HEADER)
  {
    Bytes32Big(u[..4]);
    assert Big32(u[..4]) == Big32(u);
  }

  lemma HeaderSign(h: int)
    requires -0x8000_0000 <= h < 0x8000_0000
    ensures h >= 0 ==> U32(h) == h
    ensures h < 0 ==> U32(h) == h + 0x1_0000_0000
  {
  }

  lemma HeadKept(h: int, u: seq<Byte>)
    requires -0x8000_0000 <= h < 0x8000_0000 && h != -1
    ensures Big32(Bytes32(U32(h)) + u) == U32(h) != NO_HEADER
    ensures (Bytes32(U32(h)) + u)[4..] == u
  {
    HeaderSign(h);
    Big32Bytes(U32(h));
    assert (Bytes32(U32(h)) + u)[..4] == Bytes32(U32(h));
    assert Big32(Bytes32(U32(h)) + u) == Big32((Bytes32(U32(h)) + u)[..4]);
  }

  lemma NextNone(s: seq<Byte>)
    requires |s| < 4 || Big32(s) == NO_HEADER
    ensures Next(s) == (Wait, if |s| >= 4 then s[4..] else s)
  {
  }

  /** What readn gives for a header is what comes next. */
  lemma NextIs(s: seq<Byte>, rest: seq<Byte>, h: int, p: Pull)
    requires |s| >= 4 && rest == s[4..] && -0x8000_0000 <= h < 0x8000_0000 && h != -1 && U32(h) == Big32(s)
    requires p.Broken? <==> h < 0 && |rest| > 0
    requires p.Pulled? <==> 0 <= h <= |rest| && (h == 0 ==> |rest| > 0)
    requires p.Pulled? ==> p.packet == rest[..h]
    ensures Next(s) == (p, if p.Pulled? then rest[h..] else s)
  {
    HeaderSign(h);
    hide Big32;
    if p.Pulled? { BehindHead(s, h); }
  }

  lemma WithoutHeader(sb: SocketBuffer, left: seq<Byte>)
    requires sb.header == -1 && sb.Unread() == left
    ensures sb.Stream() == left
  {
  }

  lemma BehindHead(s: seq<Byte>, n: nat)
    requires |s| >= 4 && n <= |s| - 4
    ensures s[4..4 + n] == s[4..][..n] && s[4 + n..] == s[4..][n..]
  {
  }

  lemma SomeUnread(bs: seq<seq<Byte>>, offset: nat)
    requires Chunks(bs) && bs != [] && offset < |bs[0]|
    ensures |Flat(bs)| > offset
  {
  }

  /** One byte of a 32-bit number. */
  function Shifted(b: Byte, places: nat): nat {
    (b as int) * (if places == 3 then 0x100_0000 else if places == 2 then 0x1_0000 else if places == 1 then 0x100 else 1)
  }

  /** The part of a number that its first bytes give. */
  function Front(s: seq<Byte>, i: nat): nat
    requires i <= 4 && i <= |s|
  {
    if i == 0 then 0 else Front(s, i - 1) + Shifted(s[i - 1], 4 - i)
  }

  lemma FrontNext(s: seq<Byte>, i: nat)
    requires i < 4 && i < |s|
    ensures Front(s, i + 1) == Front(s, i) + Shifted(s[i], 3 - i)
    ensures i == 3 ==> Front(s, 4) == Big32(s)
  {
    if i == 3 {
      assert Front(s, 1) == Shifted(s[0], 3) && Front(s, 2) == Front(s, 1) + Shifted(s[1], 2);
      assert Front(s, 3) == Front(s, 2) + Shifted(s[2], 1);
    }
  }

  /** A uint32_t as an int. */
  function Signed(n: nat): int {
    if n < 0x8000_0000 then n else n - 0x1_0000_0000
  }

  lemma ByteAt(bs: seq<seq<Byte>>, k: nat, o: nat)
    requires k < |bs| && o < |bs[k]|
    ensures |Flat(bs[..k])| + o < |Flat(bs)| && Flat(bs)[|Flat(bs[..k])| + o] == bs[k][o]
  {
    FlatPrefix(bs, k);
    FlatFirst(bs[k..]);
  }

  lemma Start(bs: seq<seq<Byte>>)
    ensures Flat(bs[..0]) == [] && (bs == [] ==> Flat(bs) == [])
  {
    assert bs[..0] == [];
  }

  lemma All(bs: seq<seq<Byte>>)
    ensures Flat(bs[..|bs|]) == Flat(bs)
  {
    assert bs[..|bs|] == bs;
  }

  lemma PackStart(bs: seq<seq<Byte>>, node: nat)
    requires node < |bs|
    ensures Flat(bs[..0]) == [] && (node == 0 ==> Flat(bs[..node]) == []) && Flat(bs[..1]) == bs[0]
    ensures node > 0 ==> |Flat(bs[..node])| >= |bs[0]|
  {
    assert bs[..0] == [] && bs[..1] == [bs[0]];
    FlatOne(bs[0]);
    if node > 0 { FlatFirst(bs[..node]); }
  }

  lemma NothingYet(bs: seq<seq<Byte>>)
    ensures bs == [] ==> Flat(bs) == []
  {
  }

  lemma PushStream(h: seq<Byte>, all: seq<Byte>, offset: nat, buf: seq<Byte>)
    requires offset <= |all|
    ensures (all + buf)[offset..] == all[offset..] + buf && (h + all[offset..]) + buf == h + (all + buf)[offset..]
  {
  }

  lemma FirstIn(bs: seq<seq<Byte>>)
    ensures bs != [] ==> |bs[0]| <= |Flat(bs)|
  {
  }

  lemma {:induction false} FlatConcat(a: seq<seq<Byte>>, b: seq<seq<Byte>>)
    ensures Flat(a + b) == Flat(a) + Flat(b)
    decreases |a|
  {
    if a == [] {
      assert a + b == b;
    } else {
      assert (a + b)[1..] == a[1..] + b;
      FlatConcat(a[1..], b);
    }
  }

  lemma FlatNext(bs: seq<seq<Byte>>, k: nat)
    requires k < |bs|
    ensures Flat(bs[..k + 1]) == Flat(bs[..k]) + bs[k]
  {
    assert bs[..k + 1] == bs[..k] + [bs[k]];
    FlatPush(bs[..k], bs[k]);
  }

  lemma FlatPrefix(bs: seq<seq<Byte>>, k: nat)
    requires k <= |bs|
    ensures Flat(bs) == Flat(bs[..k]) + Flat(bs[k..])
  {
    assert bs == bs[..k] + bs[k..];
    FlatConcat(bs[..k], bs[k..]);
  }

  lemma PackIs(all: seq<Byte>, front: seq<Byte>, node: seq<Byte>, offset: nat, end: nat)
    requires front + node <= all && end <= |node| && offset <= |front| + end
    ensures offset <= |front| ==> front[offset..] + node[..end] == all[offset..][..|front| + end - offset]
    ensures front == [] ==> node[offset..end] == all[offset..][..end - offset]
  {
    var k := |front| + end;
    assert all[..k] == front + node[..end];
    assert all[offset..][..k - offset] == all[..k][offset..];
  }
}
