/** Messages to other nodes: one frame each, with a header of eight bytes (mod_harbor.c:10-67, 108-145, 159-178). */
module Harbor {
  import opened Basics
  import opened SocketStream
  import opened Deframer

  const HEADSZ := 8

  /** package_header */
  datatype Header = Header(source: nat, dest: nat, kind: nat, session: int)

  datatype Delivery = Delivery(header: Header, payload: seq<Byte>)

  /** What is sent: the arguments of _toremote. */
  datatype Remote = Remote(session: int, source: int, dest: int, kind: int, msg: seq<Byte>)

  function Bytes16(n: nat): (s: seq<Byte>)
    ensures |s| == 2
  {
    [n / 0x100 % 0x100, n % 0x100]
  }

  /** The low byte of the sender's handle, and the number of this node above it. */
  function SourceTag(slaveid: int, source: int): nat {
    ((source % 0x100) + slaveid * 0x100) % 0x1_0000
  }

  function HeaderBytes(slaveid: int, r: Remote): (s: seq<Byte>)
    ensures |s| == HEADSZ
  {
    Bytes16(SourceTag(slaveid, r.source)) + [r.dest % 0x100, r.kind % 0x100] + Bytes32(U32(r.session))
  }

  function Frame(slaveid: int, r: Remote): seq<Byte> {
    Bytes32(|r.msg| + HEADSZ) + (HeaderBytes(slaveid, r) + r.msg)
  }

  // ---------- Sending ----------

  /** _to_bigendian32 */
  method PutBig32(n: nat, buf: array<Byte>, at: nat)
    requires at + 4 <= buf.Length
    modifies buf
    ensures buf[at..at + 4] == Bytes32(n) && buf[..at] == old(buf[..at]) && buf[at + 4..] == old(buf[at + 4..])
  {
    buf[at] := n / 0x100_0000 % 0x100;
    buf[at + 1] := n / 0x1_0000 % 0x100;
    buf[at + 2] := n / 0x100 % 0x100;
    buf[at + 3] := n % 0x100;
  }

  /** _to_bigendian16 */
  method PutBig16(n: nat, buf: array<Byte>, at: nat)
    requires at + 2 <= buf.Length
    modifies buf
    ensures buf[at..at + 2] == Bytes16(n) && buf[..at] == old(buf[..at]) && buf[at + 2..] == old(buf[at + 2..])
  {
    buf[at] := n / 0x100 % 0x100;
    buf[at + 1] := n % 0x100;
  }

  const NODE_MAX := 256

  /** _toremote. The socket of each node is given, and what the socket says to the frame; None is an unknown node. */
  method ToRemote(socks: seq<int>, slaveid: int, r: Remote, accepts: bool)
    returns (sent: Option<(int, array<Byte>)>, result: int)
    requires |socks| == NODE_MAX
    ensures sent.None? <==> r.dest / 0x100 % 0x100 == 0
    ensures sent.Some? ==>
              fresh(sent.value.1) && sent.value.0 == socks[r.dest / 0x100 % 0x100] && sent.value.1[..] == Frame(slaveid, r)
    ensures result == if sent.Some? && accepts then 0 else 1
  {
    var node := r.dest / 0x100 % 0x100;
    if !(node > 0 && node < NODE_MAX) { return None, 1; }
    var tmp := MakeFrame(slaveid, r);
    return Some((socks[node], tmp)), if accepts then 0 else 1;
  }

  method MakeFrame(slaveid: int, r: Remote) returns (tmp: array<Byte>)
    ensures fresh(tmp) && tmp[..] == Frame(slaveid, r)
  {
    hide Bytes16, Bytes32;
    var len := |r.msg| + HEADSZ + 4;
    tmp := new Byte[len];
    PutBig32(len - 4, tmp, 0);
    PutBig16(SourceTag(slaveid, r.source), tmp, 4);
    tmp[6] := r.dest % 0x100;
    tmp[7] := r.kind % 0x100;
    assert tmp[..6] == Bytes32(len - 4) + Bytes16(SourceTag(slaveid, r.source));
    ghost var front := tmp[..8];
    PutBig32(U32(r.session), tmp, 8);
    assert tmp[..12] == front + Bytes32(U32(r.session));
    front := tmp[..12];
    var i := 0;
    while i < |r.msg|
      invariant 0 <= i <= |r.msg| && tmp[..12] == front && tmp[12..12 + i] == r.msg[..i]
    {
      tmp[HEADSZ + 4 + i] := r.msg[i];
      assert tmp[12..12 + (i + 1)] == tmp[12..12 + i] + [r.msg[i]] && r.msg[..i + 1] == r.msg[..i] + [r.msg[i]];
      i := i + 1;
    }
    assert tmp[..] == front + r.msg;
  }

  // ---------- Receiving ----------

  /** _from_bigendian16, _from_bigendian32 and _readheader */
  function ReadHeader(p: seq<Byte>): Header
    requires |p| >= HEADSZ
  {
    Header((p[0] as int) * 0x100 + (p[1] as int), p[2], p[3], Signed(Big32(p[4..])))
  }

  /** A package without payload is an error: it ends the connection, and what follows is lost. */
  function Deliveries(packets: seq<seq<Byte>>): seq<Delivery> {
    if packets == [] || |packets[0]| <= HEADSZ then []
    else [Delivery(ReadHeader(packets[0]), packets[0][HEADSZ..])] + Deliveries(packets[1..])
  }

  predicate AllDelivered(packets: seq<seq<Byte>>) {
    forall i :: 0 <= i < |packets| ==> |packets[i]| > HEADSZ
  }

  /** The connection stays, is closed, or has sent a negative length. */
  datatype Ending = Open | Closed | Failed

  datatype Handling = Handling(ds: seq<Delivery>, rest: seq<Byte>, ending: Ending)

  /** What becomes of any stream. */
  function Handle(s: seq<Byte>): Handling
    decreases |s|
  {
    match Next(s)
    case (Wait, t) => Handling([], t, Open)
    case (Broken, t) => Handling([], t, Ending.Failed)
    case (Pulled(p), t) =>
      if |p| <= HEADSZ then Handling([], t, Closed)
      else var h := Handle(t); h.(ds := [Delivery(ReadHeader(p), p[HEADSZ..])] + h.ds)
  }

  /** Where all lengths are as they should be, the packets are delivered up to one without payload. */
  lemma {:induction false} HandleIs(s: seq<Byte>)
    requires Lengths(s)
    ensures Handle(s).ds == Deliveries(Packets(s))
    ensures Handle(s).ending == if AllDelivered(Packets(s)) then Open else Closed
    ensures Handle(s).ending.Open? ==> Handle(s).rest == Rest(s)
    decreases |s|
  {
    hide ReadHeader;
    if Complete(s) {
      var ps := Packets(s);
      assert ps == [Packet(s)] + Packets(Behind(s)) && ps[1..] == Packets(Behind(s));
      HandleIs(Behind(s));
      if |Packet(s)| > HEADSZ { FirstDelivered(ps); }
    }
  }

  lemma FirstDelivered(ps: seq<seq<Byte>>)
    requires ps != [] && |ps[0]| > HEADSZ
    ensures AllDelivered(ps) == AllDelivered(ps[1..])
  {
    assert forall i :: 0 < i < |ps| ==> ps[i] == ps[1..][i - 1];
  }

  /** _handle_package */
  method HandlePackage(sb: SocketBuffer) returns (ds: seq<Delivery>, ending: Ending)
    requires sb.Valid()
    modifies sb
    ensures var h := Handle(old(sb.Stream()));
            ds == h.ds && ending == h.ending && (!ending.Failed? ==> sb.Valid() && sb.Stream() == h.rest)
  {
    hide Next, Handle, Handled, ReadHeader;
    ds := [];
    ghost var s := sb.Stream();
    NoneHandled(s);
    while true
      invariant sb.Valid() && Handled(ds, sb.Stream(), s)
      decreases |sb.Stream()|
    {
      ghost var t := sb.Stream();
      var p := sb.Pop();
      HandledNext(ds, t, s);
      if p.Wait? { return ds, Open; }
      if p.Broken? { return ds, Ending.Failed; }
      if |p.packet| <= HEADSZ { return ds, Closed; }
      ds := ds + [Delivery(ReadHeader(p.packet), p.packet[HEADSZ..])];
    }
  }

  ghost predicate Handled(ds: seq<Delivery>, t: seq<Byte>, s: seq<Byte>) {
    var h := Handle(t);
    Handle(s) == h.(ds := ds + h.ds)
  }

  lemma NoneHandled(s: seq<Byte>)
    ensures Handled([], s, s)
  {
    assert [] + Handle(s).ds == Handle(s).ds;
  }

  lemma HandledNext(ds: seq<Delivery>, t: seq<Byte>, s: seq<Byte>)
    requires Handled(ds, t, s)
    ensures var (p, u) := Next(t);
            && (p.Wait? ==> Handle(s) == Handling(ds, u, Open))
            && (p.Broken? ==> Handle(s) == Handling(ds, u, Ending.Failed))
            && (p.Pulled? && |p.packet| <= HEADSZ ==> Handle(s) == Handling(ds, u, Closed))
            && (p.Pulled? ==> |u| < |t|)
            && (p.Pulled? && |p.packet| > HEADSZ ==> Handled(ds + [Delivery(ReadHeader(p.packet), p.packet[HEADSZ..])], u, s))
  {
    hide ReadHeader;
    assert ds + [] == ds;
    var (p, u) := Next(t);
    if p.Pulled? && |p.packet| > HEADSZ {
      var d := Delivery(ReadHeader(p.packet), p.packet[HEADSZ..]);
      assert ds + ([d] + Handle(u).ds) == (ds + [d]) + Handle(u).ds;
    }
  }

  // ---------- From node to node ----------

  /** What the receiver makes of a message. */
  function Received(slaveid: int, r: Remote): Delivery {
    Delivery(Header(SourceTag(slaveid, r.source), r.dest % 0x100, r.kind % 0x100, r.session), r.msg)
  }

  predicate Fits(r: Remote) {
    |r.msg| + HEADSZ < 0x8000_0000 && -0x8000_0000 <= r.session < 0x8000_0000
  }

  function Frames(slaveid: int, rs: seq<Remote>): seq<Byte> {
    if rs == [] then [] else Frame(slaveid, rs[0]) + Frames(slaveid, rs[1..])
  }

  lemma SessionBack(session: int)
    requires -0x8000_0000 <= session < 0x8000_0000
    ensures U32(session) < 0x1_0000_0000 && Signed(U32(session)) == session
  {
  }

  /** The header is read back. */
  lemma HeaderRead(slaveid: int, r: Remote)
    requires Fits(r)
    ensures var p := HeaderBytes(slaveid, r) + r.msg;
            ReadHeader(p) == Received(slaveid, r).header && p[HEADSZ..] == r.msg
  {
    var h := HeaderBytes(slaveid, r);
    var p := h + r.msg;
    SessionBack(r.session);
    Big32Bytes(U32(r.session));
    var n := SourceTag(slaveid, r.source);
    assert p[0] as int == n / 0x100 && p[1] as int == n % 0x100;
    hide SourceTag, Signed, U32;
    assert p[4..][..4] == Bytes32(U32(r.session));
    assert Big32(p[4..]) == Big32(p[4..][..4]);
  }

  predicate HighFirst(a: int, b: int, c: int, d: int, n: int) {
    ((a * 256 + b) * 256 + c) * 256 + d == n
  }

  /** The bytes of a frame, one by one: the length of header and message, the number of this node and the low byte of the
      sender's handle, the low bytes of the receiver's handle and of the kind, and the session, high bytes first. */
  lemma FrameBytes(slaveid: int, r: Remote)
    requires Fits(r)
    ensures var f := Frame(slaveid, r);
            && |f| == 12 + |r.msg| && f[12..] == r.msg
            && HighFirst(f[0], f[1], f[2], f[3], |r.msg| + 8)
            && f[4] == slaveid % 256 && f[5] == r.source % 256 && f[6] == r.dest % 256 && f[7] == r.kind % 256
            && HighFirst(f[8], f[9], f[10], f[11], if r.session < 0 then r.session + 0x1_0000_0000 else r.session)
  {
    var l, h, n := Bytes32(|r.msg| + HEADSZ), Bytes32(U32(r.session)), Bytes16(SourceTag(slaveid, r.source));
    var m: seq<Byte> := [r.dest % 0x100, r.kind % 0x100];
    SessionBits(r.session);
    assert Frame(slaveid, r) == l + (n + m + h + r.msg) by { hide Bytes32, Bytes16, SourceTag, U32; }
    hide *;
    TagBytes(slaveid, r.source);
    FourBytes(|r.msg| + HEADSZ);
    FourBytes(U32(r.session));
    Placed(l, n, m, h, r.msg);
  }

  lemma SessionBits(session: int)
    requires -0x8000_0000 <= session < 0x8000_0000
    ensures U32(session) == if session < 0 then session + 0x1_0000_0000 else session
  {
  }

  lemma Placed(l: seq<Byte>, n: seq<Byte>, m: seq<Byte>, h: seq<Byte>, msg: seq<Byte>)
    requires |l| == |h| == 4 && |n| == |m| == 2
    ensures var f := l + (n + m + h + msg);
            && |f| == 12 + |msg| && f[12..] == msg && f[0] == l[0] && f[1] == l[1] && f[2] == l[2] && f[3] == l[3]
            && f[4] == n[0] && f[5] == n[1] && f[6] == m[0] && f[7] == m[1]
            && f[8] == h[0] && f[9] == h[1] && f[10] == h[2] && f[11] == h[3]
  {
  }

  lemma TagIs(slaveid: int, source: int)
    ensures SourceTag(slaveid, source) == 256 * (slaveid % 256) + source % 256
  {
    var q, k := slaveid % 256, slaveid / 256;
    assert (source % 256) + slaveid * 256 == 0x1_0000 * k + (256 * q + source % 256);
  }

  lemma TagBytes(slaveid: int, source: int)
    ensures Bytes16(SourceTag(slaveid, source)) == [slaveid % 256, source % 256]
  {
    TagIs(slaveid, source);
    hide SourceTag;
  }

  lemma FourBytes(n: nat)
    requires n < 0x1_0000_0000
    ensures var s := Bytes32(n); |s| == 4 && HighFirst(s[0], s[1], s[2], s[3], n)
  {
    Big32Bytes(n);
  }

  /** Whatever the messages, the packets are the headers and payloads. */
  lemma {:induction false} FramesRead(slaveid: int, rs: seq<Remote>)
    requires forall i :: 0 <= i < |rs| ==> Fits(rs[i])
    ensures var s := Frames(slaveid, rs);
            && Lengths(s) && Rest(s) == []
            && |Packets(s)| == |rs|
            && forall i :: 0 <= i < |rs| ==> Packets(s)[i] == HeaderBytes(slaveid, rs[i]) + rs[i].msg
    decreases |rs|
  {
    if rs != [] {
      var payload, more := HeaderBytes(slaveid, rs[0]) + rs[0].msg, Frames(slaveid, rs[1..]);
      FrameRead(payload, more);
      FramesRead(slaveid, rs[1..]);
      var s := Frames(slaveid, rs);
      assert s == Bytes32(|payload|) + payload + more;
      Big32First(payload, more);
      assert Packets(s) == [payload] + Packets(more);
    }
  }

  lemma Big32First(payload: seq<Byte>, more: seq<Byte>)
    requires |payload| < 0x8000_0000
    ensures Big32(Bytes32(|payload|) + payload + more) < 0x8000_0000
  {
    var s := Bytes32(|payload|) + payload + more;
    Big32Bytes(|payload|);
    assert s[..4] == Bytes32(|payload|);
    assert Big32(s) == Big32(s[..4]);
  }

  /** All messages arrive, in order and with their headers, exactly if none is empty; else those in front of the first
      empty one. */
  lemma {:induction false} DeliveredAre(slaveid: int, packets: seq<seq<Byte>>, rs: seq<Remote>)
    requires |packets| == |rs| && forall i :: 0 <= i < |rs| ==> Fits(rs[i]) && packets[i] == HeaderBytes(slaveid, rs[i]) + rs[i].msg
    ensures |Deliveries(packets)| <= |rs|
    ensures forall i :: 0 <= i < |Deliveries(packets)| ==> Deliveries(packets)[i] == Received(slaveid, rs[i])
    ensures |Deliveries(packets)| < |rs| ==> rs[|Deliveries(packets)|].msg == []
    ensures AllDelivered(packets) <==> forall i :: 0 <= i < |rs| ==> rs[i].msg != []
    decreases |rs|
  {
    if rs != [] {
      HeaderRead(slaveid, rs[0]);
      DeliveredAre(slaveid, packets[1..], rs[1..]);
      assert forall i :: 0 <= i < |rs| ==> (|packets[i]| > HEADSZ <==> rs[i].msg != []);
    }
  }
}
