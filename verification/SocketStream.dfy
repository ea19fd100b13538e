/** What happens to one TCP connection: sends, writes that take less than they are given, and its end
    (socket.c:164-177, 302-364, 428-455, 491-587). */
module SocketStream {
  import opened Basics

  /** What a write or a read of the system returns: a count, EAGAIN, EINTR, or another error. */
  datatype SysResult = Count(n: nat) | Again | Interrupted | Failed

  /** A connection: whether it is to be closed once all is sent, the buffers queued, and what has been accepted from
      the sender and taken by the system so far. */
  datatype Conn = Conn(half: bool, pending: seq<seq<Byte>>, accepted: seq<Byte>, taken: seq<Byte>)

  datatype Why = Drained | Error | PeerClosed | Forced | NothingQueued

  datatype Outcome = Stays(conn: Conn) | Released(conn: Conn, why: Why)

  function Flat(bs: seq<seq<Byte>>): seq<Byte> {
    if bs == [] then [] else bs[0] + Flat(bs[1..])
  }

  lemma {:induction false} FlatPush(bs: seq<seq<Byte>>, b: seq<Byte>)
    ensures Flat(bs + [b]) == Flat(bs) + b
    decreases |bs|
  {
    if bs == [] {
      assert [b][1..] == [];
    } else {
      assert (bs + [b])[1..] == bs[1..] + [b];
      FlatPush(bs[1..], b);
    }
  }

  // ---------- _send_buffer_tcp ----------

  datatype Flushed = Flushed(taken: seq<Byte>, rest: seq<seq<Byte>>, failed: bool)

  /** The buffers are written one after the other, as far as the system takes them. When the script of its answers is
      at its end, it takes nothing more. */
  function Flush(pending: seq<seq<Byte>>, script: seq<SysResult>): Flushed
    decreases |script|
  {
    if pending == [] || script == [] then Flushed([], pending, false)
    else
      var b := pending[0];
      match script[0]
      case Again => Flushed([], pending, false)
      case Interrupted => Flush(pending, script[1..])
      case Failed => Flushed([], pending, true)
      case Count(n) =>
        if n < |b| then Flushed(b[..n], [b[n..]] + pending[1..], false)
        else
          var f := Flush(pending[1..], script[1..]);
          f.(taken := b + f.taken)
  }

  predicate Chunks(bs: seq<seq<Byte>>) {
    forall i :: 0 <= i < |bs| ==> bs[i] != []
  }

  /** Nothing is lost, doubled or put in another order. */
  lemma {:induction false} FlushKeeps(pending: seq<seq<Byte>>, script: seq<SysResult>)
    ensures var f := Flush(pending, script); f.taken + Flat(f.rest) == Flat(pending)
    ensures Chunks(pending) ==> Chunks(Flush(pending, script).rest)
    decreases |script|
  {
    if pending != [] && script != [] {
      var b := pending[0];
      match script[0]
      case Interrupted => FlushKeeps(pending, script[1..]);
      case Count(n) =>
        if n < |b| {
          assert b[..n] + b[n..] == b;
          assert ([b[n..]] + pending[1..])[1..] == pending[1..];
        } else {
          FlushKeeps(pending[1..], script[1..]);
        }
      case _ =>
    }
  }

  // ---------- One event ----------

  datatype Event =
    | Send(data: seq<Byte>, result: SysResult)
    | Writable(script: seq<SysResult>)
    | Readable(script: seq<SysResult>)
    | Close(force: bool)

  /** socket_send */
  function OnSend(c: Conn, data: seq<Byte>, result: SysResult): Outcome {
    if c.half then Stays(c)
    else
      var d := c.(accepted := c.accepted + data);
      if c.pending != [] then Stays(d.(pending := c.pending + [data]))
      else
        match result
        case Count(n) =>
          if n >= |data| then Stays(d.(taken := c.taken + data))
          else Stays(d.(taken := c.taken + data[..n], pending := [data[n..]]))
        case Failed => Released(c, Error)
        case _ => Stays(d.(pending := [data]))
  }

  /** _send_buffer */
  function OnWritable(c: Conn, script: seq<SysResult>): Outcome {
    if c.pending == [] then Stays(c)
    else
      var f := Flush(c.pending, script);
      var d := c.(pending := f.rest, taken := c.taken + f.taken);
      if f.failed then Released(d, Error)
      else if f.rest == [] && c.half then Released(d, Drained)
      else Stays(d)
  }

  /** _read_tcp and _read_close: what a reader gets is not part of this. */
  function OnReadable(c: Conn, script: seq<SysResult>): Outcome
    decreases |script|
  {
    if script == [] then Stays(c)
    else
      match script[0]
      case Again => Stays(c)
      case Interrupted => OnReadable(c, script[1..])
      case Failed => Released(c, Error)
      case Count(n) => if n == 0 then Released(c, PeerClosed) else Stays(c)
  }

  /** socket_close */
  function OnClose(c: Conn, force: bool): Outcome {
    if force then Released(c, Forced)
    else if c.pending == [] then Released(c, NothingQueued)
    else Stays(c.(half := true))
  }

  function Step(c: Conn, e: Event): Outcome {
    match e
    case Send(data, result) => OnSend(c, data, result)
    case Writable(script) => OnWritable(c, script)
    case Readable(script) => OnReadable(c, script)
    case Close(force) => OnClose(c, force)
  }

  function Run(c: Conn, es: seq<Event>): Outcome
    decreases |es|
  {
    if es == [] then Stays(c)
    else
      match Step(c, es[0])
      case Stays(d) => Run(d, es[1..])
      case r => r
  }

  // ---------- Every run ----------

  /** What was taken, followed by what is queued, is what was accepted. A connection that is to be closed has something
      queued. */
  ghost predicate Good(c: Conn) {
    c.accepted == c.taken + Flat(c.pending) && Chunks(c.pending) && (c.half ==> c.pending != [])
  }

  predicate Proper(es: seq<Event>) {
    forall i :: 0 <= i < |es| && es[i].Send? ==> es[i].data != []
  }

  lemma StepKeeps(c: Conn, e: Event)
    requires Good(c) && (e.Send? ==> e.data != [])
    ensures var d := Step(c, e).conn;
            && d.accepted == d.taken + Flat(d.pending) && Chunks(d.pending)
            && (Step(c, e).Stays? && d.half ==> d.pending != [])
            && c.taken <= d.taken && c.accepted <= d.accepted
            && (c.half ==> d.half && d.accepted == c.accepted)
  {
    match e
    case Send(data, result) => SendKeeps(c, data, result);
    case Writable(script) => FlushKeeps(c.pending, script);
    case Readable(script) => ReadableSame(c, script);
    case Close(force) =>
  }

  lemma FlatOne(b: seq<Byte>)
    ensures Flat([b]) == b
  {
    assert [b][1..] == [];
  }

  lemma SendKeeps(c: Conn, data: seq<Byte>, result: SysResult)
    requires Good(c) && data != []
    ensures var d := OnSend(c, data, result).conn;
            && d.accepted == d.taken + Flat(d.pending) && Chunks(d.pending) && d.half == c.half
            && c.taken <= d.taken && c.accepted <= d.accepted && (c.half ==> d == c)
  {
    if c.pending != [] {
      FlatPush(c.pending, data);
    } else if result.Count? && result.n < |data| {
      FlatOne(data[result.n..]);
      assert data == data[..result.n] + data[result.n..];
    } else {
      FlatOne(data);
    }
  }

  lemma {:induction false} ReadableSame(c: Conn, script: seq<SysResult>)
    ensures OnReadable(c, script).conn == c
    ensures OnReadable(c, script).Released? ==> OnReadable(c, script).why in {Error, PeerClosed}
    decreases |script|
  {
    if script != [] { ReadableSame(c, script[1..]); }
  }

  /** In every run of a connection the bytes taken by the system, followed by the bytes queued, are those accepted; both
      only grow. Once it is to be closed nothing more is accepted. */
  lemma {:induction false} RunKeeps(c: Conn, es: seq<Event>)
    requires Good(c) && Proper(es)
    ensures var d := Run(c, es).conn;
            && d.accepted == d.taken + Flat(d.pending) && Chunks(d.pending)
            && c.taken <= d.taken && c.accepted <= d.accepted
            && (c.half ==> d.half && d.accepted == c.accepted)
    decreases |es|
  {
    if es != [] {
      StepKeeps(c, es[0]);
      if Step(c, es[0]).Stays? { RunKeeps(Step(c, es[0]).conn, es[1..]); }
    }
  }

  /** A connection that is to be closed is released when all it had accepted has been taken; or on an error, by its
      peer, or by force, and never because nothing was queued. */
  lemma {:induction false} ReleaseOfHalf(c: Conn, es: seq<Event>)
    requires Good(c) && Proper(es) && c.half && Run(c, es).Released?
    ensures Run(c, es).why != NothingQueued
    ensures Run(c, es).why == Drained ==> Run(c, es).conn.taken == c.accepted
    ensures Run(c, es).why == Forced ==> Close(true) in es
    decreases |es|
  {
    StepKeeps(c, es[0]);
    if es[0].Readable? { ReadableSame(c, es[0].script); }
    if Step(c, es[0]).Stays? {
      assert forall e :: e in es[1..] ==> e in es;
      ReleaseOfHalf(Step(c, es[0]).conn, es[1..]);
    } else {
      assert es[0] in es;
    }
  }
}
