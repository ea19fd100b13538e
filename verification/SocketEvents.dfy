/** What the events of a connection say about it: what it has accepted, what has been written, and when it ends
    (socket.c:164-177, 302-364, 428-455, 491-587). */
module SocketEvents {
  import opened Basics
  import opened SocketStream

  // ---------- What has been accepted ----------

  /** The data of all sends in front of the first close. */
  function SentBefore(es: seq<Event>): seq<Byte>
    decreases |es|
  {
    if es == [] then []
    else
      match es[0]
      case Send(data, _) => data + SentBefore(es[1..])
      case Close(_) => []
      case _ => SentBefore(es[1..])
  }

  predicate Closing(es: seq<Event>) {
    exists i :: 0 <= i < |es| && es[i].Close?
  }

  lemma ClosingFirst(es: seq<Event>)
    requires es != []
    ensures Closing(es) <==> es[0].Close? || Closing(es[1..])
  {
    if Closing(es) && !es[0].Close? {
      var i :| 0 <= i < |es| && es[i].Close?;
      assert es[1..][i - 1].Close?;
    } else if Closing(es[1..]) {
      var i :| 0 <= i < |es[1..]| && es[1..][i].Close?;
      assert es[i + 1].Close?;
    }
  }

  /** As long as a connection is open it has accepted exactly what was sent before the first close. */
  lemma {:induction false} RunAccepts(c: Conn, es: seq<Event>)
    requires Run(c, es).Stays?
    ensures var d := Run(c, es).conn;
            && d.accepted == c.accepted + (if c.half then [] else SentBefore(es))
            && (d.half <==> c.half || Closing(es))
    decreases |es|
  {
    if es == [] {
      assert c.accepted + [] == c.accepted;
    } else {
      var d := Step(c, es[0]).conn;
      ClosingFirst(es);
      StepAccepts(c, es[0]);
      RunAccepts(d, es[1..]);
      if es[0].Send? && !c.half {
        assert (c.accepted + es[0].data) + SentBefore(es[1..]) == c.accepted + (es[0].data + SentBefore(es[1..]));
      } else {
        assert d.accepted == c.accepted;
      }
    }
  }

  /** A send that does not end the connection is accepted whole, unless the connection is to be closed. */
  lemma StepAccepts(c: Conn, e: Event)
    requires Step(c, e).Stays?
    ensures var d := Step(c, e).conn;
            && d.accepted == (if e.Send? && !c.half then c.accepted + e.data else c.accepted)
            && (d.half <==> c.half || e.Close?)
  {
    if e.Readable? { ReadableSame(c, e.script); }
  }

  // ---------- What has been written ----------

  function Counts(script: seq<SysResult>): nat {
    if script == [] then 0 else Counts(script[1..]) + if script[0].Count? then 1 else 0
  }

  lemma {:induction false} CountsNext(script: seq<SysResult>, i: nat)
    requires i < |script|
    ensures Counts(script[..i + 1]) == Counts(script[..i]) + if script[i].Count? then 1 else 0
    decreases i
  {
    if i > 0 {
      CountsNext(script[1..], i - 1);
      assert script[..i + 1][1..] == script[1..][..i] && script[..i][1..] == script[1..][..i - 1];
    } else {
      assert script[..1][1..] == [] && script[..0] == [];
    }
  }

  /** The first i answers of the system have taken the first k buffers whole; it was interrupted in between. */
  ghost predicate Whole(pending: seq<seq<Byte>>, script: seq<SysResult>, i: nat, k: nat) {
    && i <= |script| && k <= |pending| && Counts(script[..i]) == k
    && forall j :: 0 <= j < i ==> TakenWhole(pending, script, j)
  }

  predicate TakenWhole(pending: seq<seq<Byte>>, script: seq<SysResult>, j: nat)
    requires j < |script|
  {
    var k := Counts(script[..j]);
    script[j].Interrupted? || (script[j].Count? && k < |pending| && script[j].n >= |pending[k]|)
  }

  /** Then the rest of the buffers waits for the rest of the answers. */
  lemma {:induction false} FlushAhead(pending: seq<seq<Byte>>, script: seq<SysResult>, i: nat, k: nat)
    requires Whole(pending, script, i, k)
    ensures var f, g := Flush(pending, script), Flush(pending[k..], script[i..]);
            f.taken == Flat(pending[..k]) + g.taken && f.rest == g.rest && f.failed == g.failed
    decreases i
  {
    if i == 0 {
      assert script[..0] == [] && pending[..0] == [] && pending[0..] == pending && script[0..] == script;
    } else {
      CountsNext(script, i - 1);
      assert TakenWhole(pending, script, i - 1);
      var h := Counts(script[..i - 1]);
      FlushAhead(pending, script, i - 1, h);
      var p, s := pending[h..], script[i - 1..];
      assert s[0] == script[i - 1] && s[1..] == script[i..];
      if script[i - 1].Count? {
        assert p[0] == pending[h] && p[1..] == pending[k..];
        assert pending[..k] == pending[..h] + [pending[h]];
        FlatPush(pending[..h], pending[h]);
        WholeFirst(p, s);
        assert (Flat(pending[..h]) + pending[h]) + Flush(p[1..], s[1..]).taken
            == Flat(pending[..h]) + (pending[h] + Flush(p[1..], s[1..]).taken);
      } else {
        Interruption(p, s);
      }
    }
  }

  lemma WholeFirst(p: seq<seq<Byte>>, s: seq<SysResult>)
    requires p != [] && s != [] && s[0].Count? && s[0].n >= |p[0]|
    ensures var f := Flush(p[1..], s[1..]); Flush(p, s) == f.(taken := p[0] + f.taken)
  {
  }

  lemma Interruption(p: seq<seq<Byte>>, s: seq<SysResult>)
    requires s != [] && s[0].Interrupted?
    ensures Flush(p, s) == Flush(p, s[1..])
  {
  }

  /** Writing stops at answer i, in front of buffer k. */
  ghost predicate StopsAt(pending: seq<seq<Byte>>, script: seq<SysResult>, i: nat, k: nat) {
    && Whole(pending, script, i, k)
    && (i < |script| && k < |pending| ==>
          script[i].Again? || script[i].Failed? || (script[i].Count? && script[i].n < |pending[k]|))
  }

  lemma FindStop(pending: seq<seq<Byte>>, script: seq<SysResult>) returns (i: nat, k: nat)
    ensures StopsAt(pending, script, i, k)
  {
    i, k := 0, 0;
    assert script[..0] == [];
    while i < |script| && k < |pending| && (script[i].Interrupted? || (script[i].Count? && script[i].n >= |pending[k]|))
      invariant Whole(pending, script, i, k)
      decreases |script| - i
    {
      CountsNext(script, i);
      assert TakenWhole(pending, script, i);
      if script[i].Count? { k := k + 1; }
      i := i + 1;
    }
  }

  /** What one write event takes: whole buffers, and the part of the next one that the last answer says. It fails exactly
      if that answer is an error. */
  lemma FlushIs(pending: seq<seq<Byte>>, script: seq<SysResult>, i: nat, k: nat)
    requires StopsAt(pending, script, i, k)
    ensures var f := Flush(pending, script); var short := i < |script| && k < |pending| && script[i].Count?;
            && f.taken == Flat(pending[..k]) + (if short then pending[k][..script[i].n] else [])
            && f.rest == (if short then [pending[k][script[i].n..]] + pending[k + 1..] else pending[k..])
            && (f.failed <==> i < |script| && k < |pending| && script[i].Failed?)
  {
    FlushAhead(pending, script, i, k);
    var p, s := pending[k..], script[i..];
    assert i < |script| ==> s[0] == script[i];
    assert k < |pending| ==> p[0] == pending[k] && p[1..] == pending[k + 1..];
    assert Flat(pending[..k]) + [] == Flat(pending[..k]);
  }

  /** All buffers are taken whole. */
  ghost predicate WritesAll(pending: seq<seq<Byte>>, script: seq<SysResult>) {
    exists i: nat :: Whole(pending, script, i, |pending|)
  }

  /** An error comes before that. */
  ghost predicate WriteFails(pending: seq<seq<Byte>>, script: seq<SysResult>) {
    exists i: nat, k: nat :: Whole(pending, script, i, k) && i < |script| && k < |pending| && script[i].Failed?
  }

  lemma FlushEnds(pending: seq<seq<Byte>>, script: seq<SysResult>)
    ensures Flush(pending, script).failed <==> WriteFails(pending, script)
    ensures Flush(pending, script).rest == [] <==> WritesAll(pending, script)
    ensures WritesAll(pending, script) ==> Flush(pending, script).taken == Flat(pending) && !WriteFails(pending, script)
  {
    var i, k := FindStop(pending, script);
    FlushIs(pending, script, i, k);
    hide Flush, Whole, Flat;
    if h: nat, m: nat :| Whole(pending, script, h, m) && h < |script| && m < |pending| && script[h].Failed? {
      FlushIs(pending, script, h, m);
    }
    if h: nat :| Whole(pending, script, h, |pending|) {
      FlushIs(pending, script, h, |pending|);
      assert pending[..|pending|] == pending && Flat(pending) + [] == Flat(pending);
    }
  }

  // ---------- When a connection ends ----------

  predicate EndsAt(script: seq<SysResult>, k: nat)
    requires k < |script|
  {
    (script[k].Failed? || script[k] == Count(0)) && forall j :: 0 <= j < k ==> script[j].Interrupted?
  }

  /** The first answer that is no interruption is an error, or the end of the stream. */
  ghost predicate ReadEnds(script: seq<SysResult>) {
    exists k: nat :: k < |script| && EndsAt(script, k)
  }

  lemma EndsNext(script: seq<SysResult>, k: nat)
    requires k < |script| - 1 && script[0].Interrupted?
    ensures EndsAt(script, k + 1) <==> EndsAt(script[1..], k)
  {
    assert script[1..][k] == script[k + 1];
    assert forall j :: 0 < j < k + 1 ==> script[j] == script[1..][j - 1];
  }

  lemma ReadEndsLater(script: seq<SysResult>)
    requires script != [] && script[0].Interrupted?
    ensures ReadEnds(script) <==> ReadEnds(script[1..])
  {
    if ReadEnds(script) {
      var k: nat :| k < |script| && EndsAt(script, k);
      EndsNext(script, k - 1);
      assert EndsAt(script[1..], k - 1);
    }
    if ReadEnds(script[1..]) {
      var k: nat :| k < |script[1..]| && EndsAt(script[1..], k);
      EndsNext(script, k);
      assert EndsAt(script, k + 1);
    }
  }

  lemma {:induction false} ReadEndsExactly(c: Conn, script: seq<SysResult>)
    ensures OnReadable(c, script).Released? <==> ReadEnds(script)
    decreases |script|
  {
    if script != [] && script[0].Interrupted? {
      ReadEndsExactly(c, script[1..]);
      ReadEndsLater(script);
    } else if script != [] {
      assert EndsAt(script, 0) <==> OnReadable(c, script).Released?;
      assert forall k: nat :: 0 < k < |script| ==> !EndsAt(script, k);
    }
  }

  /** The event ends the connection. */
  ghost predicate Ends(c: Conn, e: Event) {
    match e
    case Send(_, result) => !c.half && c.pending == [] && result.Failed?
    case Writable(script) => c.pending != [] && (WriteFails(c.pending, script) || (c.half && WritesAll(c.pending, script)))
    case Readable(script) => ReadEnds(script)
    case Close(force) => force || c.pending == []
  }

  /** A connection is released by exactly these events: a write or a read that fails, the end of what it reads, the last
      of its bytes when it is to be closed, and a close that is forced or has nothing to wait for. */
  lemma EndsExactly(c: Conn, e: Event)
    ensures Step(c, e).Released? <==> Ends(c, e)
  {
    match e
    case Send(data, result) =>
    case Writable(script) => FlushEnds(c.pending, script); hide Flush;
    case Readable(script) => ReadEndsExactly(c, script);
    case Close(force) =>
  }

  /** A run goes on exactly as long as no event ends the connection. */
  lemma {:induction false} RunEnds(c: Conn, es: seq<Event>)
    ensures Run(c, es).Stays? <==>
            forall k :: 0 <= k < |es| && Run(c, es[..k]).Stays? ==> !Ends(Run(c, es[..k]).conn, es[k])
    decreases |es|
  {
    hide Ends;
    if es != [] {
      EndsExactly(c, es[0]);
      assert es[..0] == [] && Run(c, es[..0]) == Stays(c);
      if Step(c, es[0]).Stays? {
        var d := Step(c, es[0]).conn;
        RunEnds(d, es[1..]);
        forall k | 0 <= k < |es| - 1
          ensures Run(c, es[..k + 1]) == Run(d, es[1..][..k]) && es[1..][k] == es[k + 1]
        {
          RunFirst(c, es, k);
        }
        if Run(c, es).Stays? {
          forall k | 0 <= k < |es| && Run(c, es[..k]).Stays? ensures !Ends(Run(c, es[..k]).conn, es[k]) {
            if k > 0 { assert Run(c, es[..(k - 1) + 1]) == Run(d, es[1..][..k - 1]); }
          }
        } else {
          var k :| 0 <= k < |es[1..]| && Run(d, es[1..][..k]).Stays? && Ends(Run(d, es[1..][..k]).conn, es[1..][k]);
          assert Run(c, es[..k + 1]).Stays? && Ends(Run(c, es[..k + 1]).conn, es[k + 1]);
        }
      }
    }
  }

  lemma RunFirst(c: Conn, es: seq<Event>, k: nat)
    requires k < |es| - 1 && Step(c, es[0]).Stays?
    ensures Run(c, es[..k + 1]) == Run(Step(c, es[0]).conn, es[1..][..k])
  {
    assert es[..k + 1][0] == es[0] && es[..k + 1][1..] == es[1..][..k];
  }

  /** A write event that takes everything leaves nothing queued: all that was accepted has been taken. */
  lemma AllWritten(c: Conn, script: seq<SysResult>)
    requires Good(c) && WritesAll(c.pending, script)
    ensures var d := OnWritable(c, script).conn; d.pending == [] && d.taken == c.accepted
    ensures OnWritable(c, script).Released? <==> c.half
  {
    FlushEnds(c.pending, script);
    hide Flush;
    assert c.pending == [] ==> c.taken + [] == c.taken;
  }

  /** How much of the data of a send is written at once. */
  function WrittenAtOnce(c: Conn, data: seq<Byte>, result: SysResult): nat {
    if c.half || c.pending != [] || !result.Count? then 0 else if result.n < |data| then result.n else |data|
  }

  /** A send writes what the system takes, and queues the rest behind what is queued. */
  lemma SendWrites(c: Conn, data: seq<Byte>, result: SysResult)
    requires Good(c) && data != [] && OnSend(c, data, result).Stays?
    ensures var d, n := OnSend(c, data, result).conn, WrittenAtOnce(c, data, result);
            && n <= |data| && d.taken == c.taken + data[..n]
            && Flat(d.pending) == Flat(c.pending) + (if c.half then [] else data[n..])
  {
    if c.half {
      assert data[..0] == [] && c.taken + [] == c.taken && Flat(c.pending) + [] == Flat(c.pending);
    } else if c.pending != [] {
      FlatPush(c.pending, data);
      assert data[..0] == [] && data[0..] == data && c.taken + [] == c.taken;
    } else {
      var n := WrittenAtOnce(c, data, result);
      FlatOne(data[n..]);
      assert data[..0] == [] && data[0..] == data && data[..|data|] == data && data[|data|..] == [];
      assert [] + data[n..] == data[n..] && c.taken + [] == c.taken;
    }
  }
}
