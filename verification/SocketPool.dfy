/** The slots for sockets: a free list threaded through their descriptors, and the queues for sending
    (socket.c:31-54, 84-177, 302-364, 428-491, 534-587). */
module SocketPool {
  import opened Basics
  import opened SocketStream
  import opened SocketEvents

  datatype Status = INVALID | SUSPEND | CONNECTED | HALFCLOSE

  /** A slot. In a free one 'fd' is the next free slot, or -1. 'accepted' and 'taken' are its history. */
  datatype Socket = Socket(fd: int, status: Status, ud: int, buffers: seq<seq<Byte>>, sbuffersz: int, accepted: seq<Byte>, taken: seq<Byte>)

  function Total(bs: seq<seq<Byte>>): int {
    |Flat(bs)|
  }

  function ConnOf(s: Socket): Conn {
    Conn(s.status.HALFCLOSE?, s.buffers, s.accepted, s.taken)
  }

  ghost predicate LiveSocket(s: Socket) {
    s.fd >= 0 && Good(ConnOf(s)) && s.sbuffersz == Total(s.buffers)
  }

  ghost predicate FreeSocket(s: Socket) {
    s.buffers == [] && s.sbuffersz == 0
  }

  predicate Link(sockets: seq<Socket>, q: seq<int>, k: nat)
    requires k < |q|
  {
    0 <= q[k] < |sockets| && sockets[q[k]].fd == if k + 1 < |q| then q[k + 1] else -1
  }

  /** The slots of q form the list: each leads to the next. */
  ghost predicate Threaded(sockets: seq<Socket>, q: seq<int>) {
    && (forall k :: 0 <= k < |q| ==> Link(sockets, q, k))
    && (forall k, h :: 0 <= k < h < |q| ==> q[k] != q[h])
    && (forall i :: 0 <= i < |sockets| ==> (i in q <==> sockets[i].status.INVALID?))
  }

  ghost predicate SlotFits(s: Socket) {
    if s.status.INVALID? then FreeSocket(s) else LiveSocket(s)
  }

  /** Every slot is live or free as it should be. */
  ghost predicate Slots(sockets: seq<Socket>) {
    forall i :: 0 <= i < |sockets| ==> SlotFits(sockets[i])
  }

  ghost predicate OtherSlots(sockets: seq<Socket>, id: int) {
    forall i :: 0 <= i < |sockets| && i != id ==> SlotFits(sockets[i])
  }

  lemma TakeFirst(ss: seq<Socket>, q: seq<int>, s: Socket)
    requires Threaded(ss, q) && Slots(ss) && q != [] && !s.status.INVALID? && LiveSocket(s)
    ensures 0 <= q[0] < |ss| && Threaded(ss[q[0] := s], q[1..]) && Slots(ss[q[0] := s])
    ensures ss[q[0]].status.INVALID? && ss[q[0]].fd == if |q| > 1 then q[1] else -1
    ensures |q| > 1 ==> q[1] >= 0
  {
    var id := q[0];
    assert Link(ss, q, 0);
    if |q| > 1 { assert Link(ss, q, 1); }
    var t, r := ss[id := s], q[1..];
    assert q[0] in q;
    forall k | 0 <= k < |r| ensures Link(t, r, k) {
      assert r[k] == q[k + 1] && Link(ss, q, k + 1);
    }
    forall i | 0 <= i < |t| ensures i in r <==> t[i].status.INVALID? {
      assert i in q <==> (i == q[0] || i in r);
    }
  }

  lemma PutLast(ss: seq<Socket>, q: seq<int>, id: int)
    requires Threaded(ss, q) && OtherSlots(ss, id) && 0 <= id < |ss| && !ss[id].status.INVALID?
    ensures id !in q && Threaded(Linked(ss, q, id), q + [id]) && Slots(Linked(ss, q, id))
    ensures forall i :: 0 <= i < |ss| && i != id ==> Linked(ss, q, id)[i].status == ss[i].status
    ensures forall i :: 0 <= i < |ss| && i != id && !ss[i].status.INVALID? ==> Linked(ss, q, id)[i] == ss[i]
  {
    if q != [] { assert q[|q| - 1] in q && Link(ss, q, |q| - 1); }
    var t, r := Linked(ss, q, id), q + [id];
    forall i | 0 <= i < |t| ensures i in r <==> t[i].status.INVALID? {
      assert i in r <==> (i == id || i in q);
    }
    forall k | 0 <= k < |r| ensures Link(t, r, k) {
      if k < |q| { assert q[k] in q && Link(ss, q, k); }
    }
  }

  /** The released slot, and behind the last of the list. */
  function Linked(ss: seq<Socket>, q: seq<int>, id: int): (t: seq<Socket>)
    requires 0 <= id < |ss|
    ensures |t| == |ss|
  {
    var t := ss[id := Socket(-1, INVALID, 0, [], 0, [], [])];
    if q != [] && 0 <= q[|q| - 1] < |ss| then t[q[|q| - 1] := t[q[|q| - 1]].(fd := id)] else t
  }

  lemma AllFree(ss: seq<Socket>, q: seq<int>)
    requires |q| == |ss| && forall i :: 0 <= i < |ss| ==> q[i] == i
    requires forall i :: 0 <= i < |ss| ==> ss[i] == Socket(if i + 1 < |ss| then i + 1 else -1, INVALID, -1, [], 0, [], [])
    ensures Threaded(ss, q) && Slots(ss)
  {
    forall i | 0 <= i < |ss| ensures i in q { assert q[i] == i; }
  }

  class Net {
    const sockets: array<Socket>
    var free_socket: int
    var tail_socket: int
    ghost var queue: seq<int>

    ghost predicate Valid()
      reads this, sockets
    {
      Ends() && Threaded(sockets[..], queue) && Slots(sockets[..])
    }

    ghost predicate Ends()
      reads this
    {
      && free_socket == (if queue == [] then -1 else queue[0])
      && (queue != [] ==> tail_socket == queue[|queue| - 1])
    }

    ghost predicate Live(id: int)
      reads this, sockets
    {
      0 <= id < sockets.Length && !sockets[id].status.INVALID?
    }

    /** net_create and _alloc_sockets */
    constructor (max0: int)
      ensures Valid() && fresh(sockets) && sockets.Length == (if max0 <= 0 then 1 else max0)
      ensures queue == seq(sockets.Length, i requires 0 <= i < sockets.Length => i)
    {
      var max := if max0 <= 0 then 1 else max0;
      var s := new Socket[max](i => Socket(i + 1, INVALID, -1, [], 0, [], []));
      s[max - 1] := s[max - 1].(fd := -1);
      sockets := s;
      free_socket := 0;
      tail_socket := max - 1;
      queue := seq(max, i requires 0 <= i < max => i);
      new;
      AllFree(sockets[..], queue);
    }

    /** _create_socket: the slot that has been free the longest. */
    method Create(fd: int, ud: int) returns (id: int)
      requires Valid() && fd >= 0
      modifies this, sockets
      ensures Valid()
      ensures id == -1 <==> old(queue) == []
      ensures id == -1 ==> queue == old(queue) && sockets[..] == old(sockets[..])
      ensures id != -1 ==>
                && old(queue) == [id] + queue && 0 <= id < sockets.Length
                && sockets[..] == old(sockets[..])[id := Socket(fd, SUSPEND, ud, [], 0, [], [])]
    {
      hide Threaded, Slots, OtherSlots;
      if free_socket == -1 {
        NoFirst(sockets[..], queue);
        return -1;
      }
      id := free_socket;
      var s := Socket(fd, SUSPEND, ud, [], 0, [], []);
      TakeFirst(sockets[..], queue, s);
      if sockets[id].fd >= 0 { free_socket := sockets[id].fd; } else { free_socket := -1; }
      sockets[id] := s;
      queue := queue[1..];
      assert sockets[..] == old(sockets[..])[id := s];
    }

    /** _close_socket: the slot goes to the end of the free list. */
    method Release(id: int)
      requires Ends() && Threaded(sockets[..], queue) && OtherSlots(sockets[..], id) && Live(id)
      modifies this, sockets
      ensures Valid() && queue == old(queue) + [id] && sockets[..] == Linked(old(sockets[..]), old(queue), id)
    {
      hide Threaded, Slots, OtherSlots;
      ghost var ss := sockets[..];
      PutLast(ss, queue, id);
      LastIn(ss, queue);
      sockets[id] := Socket(-1, INVALID, 0, [], 0, [], []);
      if free_socket == -1 {
        free_socket := id;
      } else {
        sockets[tail_socket] := sockets[tail_socket].(fd := id);
      }
      tail_socket := id;
      assert sockets[..] == Linked(ss, queue, id);
      queue := queue + [id];
    }

    /** _send_buffer_tcp: false stands for an error. */
    method SendBufferTcp(id: int, script: seq<SysResult>) returns (ok: bool)
      requires Live(id)
      modifies sockets
      ensures var f := Flush(old(sockets[id].buffers), script);
              && ok == !f.failed
              && sockets[..] == old(sockets[..])[id := Sent(old(sockets[id]), f)]
    {
      var k := 0;
      ok := true;
      ghost var s0, all := sockets[id], Flush(sockets[id].buffers, script);
      while sockets[id].buffers != []
        invariant 0 <= k <= |script| && ok
        invariant Ahead(sockets[..], id, s0, all, script[k..]) && old(sockets[..])[id := sockets[id]] == sockets[..]
        decreases |script| - k
      {
        var s := sockets[id];
        var b := s.buffers[0];
        if k == |script| { break; }
        k := k + 1;
        match script[k - 1] {
          case Again => break;
          case Interrupted =>
          case Failed => ok := false; break;
          case Count(n) =>
            if n < |b| {
              sockets[id] := s.(buffers := [b[n..]] + s.buffers[1..], sbuffersz := s.sbuffersz - n, taken := s.taken + b[..n]);
              break;
            } else {
              sockets[id] := s.(buffers := s.buffers[1..], sbuffersz := s.sbuffersz - |b|, taken := s.taken + b);
            }
        }
      }
      assert sockets[id] == Sent(s0, all);
      assert sockets[..] == old(sockets[..])[id := sockets[id]];
    }

    /** _send_buffer: true stands for a message about the end of the socket. */
    method SendBuffer(id: int, script: seq<SysResult>) returns (gone: bool)
      requires Valid() && Live(id)
      modifies this, sockets
      ensures Valid() && (gone <==> SocketEvents.Ends(old(ConnOf(sockets[id])), Writable(script)))
      ensures Effect(old(sockets[..]), old(queue), sockets[..], queue, id, OnWritable(old(ConnOf(sockets[id])), script))
      ensures gone ==> sockets[id].status.INVALID?
    {
      hide Threaded, Slots, OtherSlots;
      EndsExactly(ConnOf(sockets[id]), Writable(script));
      hide SocketEvents.Ends;
      ghost var ss, c := sockets[..], ConnOf(sockets[id]);
      if sockets[id].buffers == [] {
        Untouched(ss, queue, id, c);
        return false;
      }
      var ok := SendBufferTcp(id, script);
      SentLive(ss, queue, id, script);
      if !ok || (sockets[id].buffers == [] && sockets[id].status.HALFCLOSE?) {
        ghost var mid := sockets[..];
        Release(id);
        ReleasedTwice(ss, mid, queue[..|queue| - 1], id, c, OnWritable(c, script));
        return true;
      }
      return false;
    }

    /** socket_send: -1 for an error, or how much is queued. */
    method Send(id: int, data: seq<Byte>, result: SysResult) returns (r: int)
      requires Valid() && 0 <= id < sockets.Length && data != []
      modifies this, sockets
      ensures Valid()
      ensures !old(Live(id)) ==> r == -1 && sockets[..] == old(sockets[..]) && queue == old(queue)
      ensures old(Live(id)) ==>
                && Effect(old(sockets[..]), old(queue), sockets[..], queue, id, OnSend(old(ConnOf(sockets[id])), data, result))
                && (r == -1 <==> old(sockets[id].status.HALFCLOSE?) || (old(sockets[id].buffers) == [] && result.Failed?))
                && (r != -1 ==> Added(old(sockets[id]), sockets[id], data, result) && r == Total(sockets[id].buffers))
                && (r == -1 && !old(sockets[id].status.HALFCLOSE?) ==> sockets[id].status.INVALID?)
    {
      hide Threaded, Slots, OtherSlots, Flat;
      if sockets[id].status.INVALID? { return -1; }
      ghost var ss, c := sockets[..], ConnOf(sockets[id]);
      LiveIs(ss, queue, id);
      if sockets[id].status.HALFCLOSE? {
        Untouched(ss, queue, id, c);
        return -1;
      }
      var s := sockets[id];
      if s.buffers == [] {
        if result.Failed? {
          SlotsOthers(ss, id);
          Release(id);
          return -1;
        }
        var n := if result.Count? then result.n else 0;
        if n >= |data| {
          sockets[id] := s.(accepted := s.accepted + data, taken := s.taken + data);
        } else {
          sockets[id] := s.(buffers := [data[n..]], sbuffersz := s.sbuffersz + (|data| - n),
                            accepted := s.accepted + data, taken := s.taken + data[..n]);
        }
      } else {
        sockets[id] := s.(buffers := s.buffers + [data], sbuffersz := s.sbuffersz + |data|, accepted := s.accepted + data);
      }
      SentSome(ss, queue, id, sockets[id], data, result);
      assert sockets[..] == ss[id := sockets[id]];
      return sockets[id].sbuffersz;
    }

    /** socket_close: 1 if there is something to send first. */
    method Close(id: int, force: bool) returns (r: int)
      requires Valid() && 0 <= id < sockets.Length
      modifies this, sockets
      ensures Valid()
      ensures !old(Live(id)) ==> r == 0 && sockets[..] == old(sockets[..]) && queue == old(queue)
      ensures old(Live(id)) ==>
                && Effect(old(sockets[..]), old(queue), sockets[..], queue, id, OnClose(old(ConnOf(sockets[id])), force))
                && (if force || old(sockets[id].buffers) == [] then r == 0 && sockets[id].status.INVALID?
                    else r == 1 && sockets[id] == old(sockets[id]).(status := HALFCLOSE))
    {
      hide Threaded, Slots, OtherSlots;
      if sockets[id].status.INVALID? { return 0; }
      ghost var ss := sockets[..];
      if force || sockets[id].buffers == [] {
        SlotsOthers(ss, id);
        Release(id);
        return 0;
      }
      sockets[id] := sockets[id].(status := HALFCLOSE);
      assert sockets[..] == ss[id := sockets[id]];
      HalfLive(ss, queue, id);
      return 1;
    }

    /** _read_tcp, for what it does to the socket. */
    method Read(id: int, script: seq<SysResult>) returns (gone: bool)
      requires Valid() && Live(id)
      modifies this, sockets
      ensures Valid() && (gone <==> ReadEnds(script))
      ensures Effect(old(sockets[..]), old(queue), sockets[..], queue, id, OnReadable(old(ConnOf(sockets[id])), script))
    {
      hide Threaded, Slots, OtherSlots;
      ghost var c := ConnOf(sockets[id]);
      Untouched(sockets[..], queue, id, c);
      SlotsOthers(sockets[..], id);
      ReadableSame(c, script);
      ReadEndsExactly(c, script);
      hide ReadEnds;
      var k := 0;
      while k < |script|
        invariant 0 <= k <= |script| && OnReadable(c, script) == OnReadable(c, script[k..])
      {
        match script[k] {
          case Again => return false;
          case Interrupted => k := k + 1;
          case Failed =>
            Release(id);
            return true;
          case Count(n) =>
            if n == 0 {
              Release(id);
              return true;
            }
            return false;
        }
      }
      return false;
    }
  }

  /** A send that succeeds has accepted the data, and written as much of it as the system took. */
  ghost predicate Added(s0: Socket, s: Socket, data: seq<Byte>, result: SysResult) {
    var n := WrittenAtOnce(ConnOf(s0), data, result);
    n <= |data| && s.accepted == s0.accepted + data && s.taken == s0.taken + data[..n]
    && Flat(s.buffers) == Flat(s0.buffers) + data[n..]
  }

  /** One connection goes on, or its slot is released; the other slots are as they were. */
  ghost predicate Effect(ss0: seq<Socket>, q0: seq<int>, ss: seq<Socket>, q: seq<int>, id: int, o: Outcome)
    requires 0 <= id < |ss0| == |ss|
  {
    match o
    case Stays(c) => q == q0 && ss == ss0[id := ss[id]] && !ss[id].status.INVALID? && ss[id].fd == ss0[id].fd && ConnOf(ss[id]) == c
    case Released(_, _) => q == q0 + [id] && ss == Linked(ss0, q0, id)
  }

  lemma Untouched(ss: seq<Socket>, q: seq<int>, id: int, c: Conn)
    requires 0 <= id < |ss| && c == ConnOf(ss[id]) && !ss[id].status.INVALID?
    ensures Effect(ss, q, ss, q, id, Stays(c))
  {
    assert ss == ss[id := ss[id]];
  }

  lemma LiveIs(ss: seq<Socket>, q: seq<int>, id: int)
    requires Slots(ss) && 0 <= id < |ss| && !ss[id].status.INVALID?
    ensures LiveSocket(ss[id])
  {
  }

  lemma StillThreaded(ss: seq<Socket>, q: seq<int>, id: int, s: Socket)
    requires Threaded(ss, q) && 0 <= id < |ss| && !ss[id].status.INVALID? && !s.status.INVALID?
    ensures Threaded(ss[id := s], q)
  {
    var t := ss[id := s];
    forall k | 0 <= k < |q| ensures Link(t, q, k) {
      assert Link(ss, q, k) && q[k] in q;
    }
    forall i | 0 <= i < |t| ensures i in q <==> t[i].status.INVALID? {
      assert i in q <==> ss[i].status.INVALID?;
    }
  }

  /** A live slot is replaced by a live one. */
  lemma StillSlots(ss: seq<Socket>, q: seq<int>, id: int, s: Socket)
    requires Threaded(ss, q) && Slots(ss) && 0 <= id < |ss| && !ss[id].status.INVALID? && !s.status.INVALID? && LiveSocket(s)
    ensures Threaded(ss[id := s], q) && Slots(ss[id := s])
  {
    StillThreaded(ss, q, id, s);
  }

  lemma SlotsOthers(ss: seq<Socket>, id: int)
    requires Slots(ss)
    ensures OtherSlots(ss, id)
  {
  }

  /** Where the slot is to be released at once, what was written before does not matter. */
  lemma ReleasedTwice(ss: seq<Socket>, mid: seq<Socket>, q: seq<int>, id: int, c: Conn, o: Outcome)
    requires 0 <= id < |ss| == |mid| && mid == ss[id := mid[id]] && o.Released?
    ensures Linked(mid, q, id) == Linked(ss, q, id)
  {
  }

  /** Only a slot that is to be closed does not stay when all has been written. */
  lemma SentLive(ss: seq<Socket>, q: seq<int>, id: int, script: seq<SysResult>)
    requires Threaded(ss, q) && Slots(ss) && 0 <= id < |ss| && !ss[id].status.INVALID?
    ensures var f := Flush(ss[id].buffers, script); var t := ss[id := Sent(ss[id], f)];
            && Threaded(t, q) && OtherSlots(t, id)
            && (!(f.rest == [] && ss[id].status.HALFCLOSE?) ==> Slots(t))
  {
    var f := Flush(ss[id].buffers, script);
    FlushKeeps(ss[id].buffers, script);
    hide Flush;
    StillThreaded(ss, q, id, Sent(ss[id], f));
    if !(f.rest == [] && ss[id].status.HALFCLOSE?) {
      SentFits(ss[id], f);
    }
  }

  lemma SentFits(s: Socket, f: Flushed)
    requires LiveSocket(s) && !s.status.INVALID? && f.taken + Flat(f.rest) == Flat(s.buffers) && Chunks(f.rest)
    requires !(f.rest == [] && s.status.HALFCLOSE?)
    ensures LiveSocket(Sent(s, f))
  {
    hide Flat;
    assert (s.taken + f.taken) + Flat(f.rest) == s.taken + (f.taken + Flat(f.rest));
  }

  lemma SentSome(ss: seq<Socket>, q: seq<int>, id: int, s: Socket, data: seq<Byte>, result: SysResult)
    requires Threaded(ss, q) && Slots(ss) && 0 <= id < |ss| && !ss[id].status.INVALID? && data != []
    requires OnSend(ConnOf(ss[id]), data, result) == Stays(ConnOf(s)) && s.status == ss[id].status && s.fd == ss[id].fd
    requires s.sbuffersz == ss[id].sbuffersz + (|s.accepted| - |ss[id].accepted|) - (|s.taken| - |ss[id].taken|)
    requires !ss[id].status.HALFCLOSE? && s.accepted == ss[id].accepted + data
    ensures Threaded(ss[id := s], q) && Slots(ss[id := s]) && s.sbuffersz == Total(s.buffers)
    ensures Added(ss[id], s, data, result)
  {
    SendKeeps(ConnOf(ss[id]), data, result);
    SendWrites(ConnOf(ss[id]), data, result);
    StillSlots(ss, q, id, s);
  }

  lemma HalfLive(ss: seq<Socket>, q: seq<int>, id: int)
    requires Threaded(ss, q) && Slots(ss) && 0 <= id < |ss| && !ss[id].status.INVALID? && ss[id].buffers != []
    ensures Threaded(ss[id := ss[id].(status := HALFCLOSE)], q) && Slots(ss[id := ss[id].(status := HALFCLOSE)])
  {
    StillSlots(ss, q, id, ss[id].(status := HALFCLOSE));
  }

  /** What writing does to a slot. */
  function Sent(s: Socket, f: Flushed): Socket {
    s.(buffers := f.rest, sbuffersz := s.sbuffersz - |f.taken|, taken := s.taken + f.taken)
  }

  /** Writing has come some way: what is to follow leads to the same end. */
  ghost predicate Ahead(ss: seq<Socket>, id: int, s0: Socket, all: Flushed, script: seq<SysResult>)
    requires 0 <= id < |ss|
  {
    var f := Flush(ss[id].buffers, script);
    Sent(ss[id], f) == Sent(s0, all) && f.failed == all.failed
  }

  lemma NoFirst(ss: seq<Socket>, q: seq<int>)
    requires Threaded(ss, q)
    ensures q != [] ==> q[0] >= 0
  {
    assert q != [] ==> Link(ss, q, 0);
  }

  lemma LastIn(ss: seq<Socket>, q: seq<int>)
    requires Threaded(ss, q)
    ensures q != [] ==> 0 <= q[|q| - 1] < |ss| && q[0] >= 0
  {
    if q != [] { assert Link(ss, q, 0) && Link(ss, q, |q| - 1); }
  }

  /** No slot is free exactly if all are in use. */
  lemma FullMeansLive(ss: seq<Socket>, q: seq<int>)
    requires Threaded(ss, q)
    ensures q == [] <==> forall i :: 0 <= i < |ss| ==> !ss[i].status.INVALID?
  {
    if q != [] { assert q[0] in q && Link(ss, q, 0); }
  }

  // ---------- Which slot is used again ----------

  /** What creating and closing do to the free list. */
  datatype PoolEvent = Take | Free(id: int)

  function ListAfter(q: seq<int>, es: seq<PoolEvent>): seq<int>
    decreases |es|
  {
    if es == [] then q
    else
      match es[0]
      case Take => ListAfter(if q == [] then q else q[1..], es[1..])
      case Free(id) => ListAfter(q + [id], es[1..])
  }

  /** The slots that are taken, in order; nothing is taken from an empty list. */
  function Taken(q: seq<int>, es: seq<PoolEvent>): seq<int>
    decreases |es|
  {
    if es == [] then []
    else
      match es[0]
      case Take => (if q == [] then [] else [q[0]]) + Taken(if q == [] then q else q[1..], es[1..])
      case Free(id) => Taken(q + [id], es[1..])
  }

  function Freed(es: seq<PoolEvent>): seq<int>
    decreases |es|
  {
    if es == [] then [] else (if es[0].Free? then [es[0].id] else []) + Freed(es[1..])
  }

  /** In every run the slots are taken in the order in which they became free: a closed slot is used again only after
      every slot that was free before it. */
  lemma {:induction false} TakenInOrder(q: seq<int>, es: seq<PoolEvent>)
    ensures Taken(q, es) + ListAfter(q, es) == q + Freed(es)
    decreases |es|
  {
    if es != [] {
      var r := if es[0].Free? then q + [es[0].id] else if q == [] then q else q[1..];
      TakenInOrder(r, es[1..]);
      if es[0].Free? {
        assert q + ([es[0].id] + Freed(es[1..])) == r + Freed(es[1..]);
      } else {
        var x := if q == [] then [] else [q[0]];
        assert q == x + r && Freed(es) == Freed(es[1..]);
        assert (x + Taken(r, es[1..])) + ListAfter(r, es[1..]) == x + (r + Freed(es[1..]));
      }
    }
  }
}
