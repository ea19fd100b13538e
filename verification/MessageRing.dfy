/** The queue of messages between contexts: a ring that grows, and its dispatch (shaco_msg_dispatcher.c:12-97). */
module MessageRing {
  import opened Basics

  datatype Message = Message(source: int, dest: int, session: int, kind: int, payload: seq<int>)

  const INIT_CAP := 8

  /** What the first k calls of a handler push, one after the other. A handler may do anything; here it is given by the
      messages that each of its calls sends. */
  function Pushed(script: seq<seq<Message>>, k: nat): seq<Message>
    decreases k
  {
    if k == 0 then [] else Pushed(script, k - 1) + Call(script, k - 1)
  }

  function Call(script: seq<seq<Message>>, k: nat): seq<Message> {
    if k < |script| then script[k] else []
  }

  lemma {:induction false} PushedGrows(script: seq<seq<Message>>, k: nat, n: nat)
    requires k <= n
    ensures Pushed(script, k) <= Pushed(script, n)
    decreases n
  {
    if k < n { PushedGrows(script, k, n - 1); }
  }

  /** After its last call the handler pushes nothing. */
  lemma {:induction false} PushedEnds(script: seq<seq<Message>>, k: nat)
    ensures k >= |script| ==> Pushed(script, k) == Pushed(script, |script|)
    ensures |Pushed(script, k)| <= |Pushed(script, |script|)|
    decreases k
  {
    if k > |script| {
      PushedEnds(script, k - 1);
    } else {
      PushedGrows(script, k, |script|);
    }
  }

  class Ring {
    var cap: nat
    var head: nat
    var tail: nat
    var q: array<Message>

    /** One place is always free, so that an empty ring is not taken for a full one. */
    ghost predicate Valid()
      reads this
    {
      cap >= 2 && q.Length == cap && head < cap && tail < cap
    }

    /** The messages in the ring, the oldest first. */
    ghost function Contents(): (s: seq<Message>)
      reads this, q
      requires Valid()
      ensures |s| < cap && (s == [] <==> head == tail)
    {
      if head <= tail then q[head..tail] else q[head..] + q[..tail]
    }

    constructor ()
      ensures Valid() && fresh(q) && Contents() == [] && cap == INIT_CAP
    {
      cap, head, tail := INIT_CAP, 0, 0;
      q := new Message[INIT_CAP](i => Message(0, 0, 0, 0, []));
    }

    /** shaco_msg_push */
    method Push(m: Message)
      requires Valid()
      modifies this, q
      ensures Valid() && (q == old(q) || fresh(q)) && head == old(head)
      ensures Contents() == old(Contents()) + [m]
      ensures cap == if |old(Contents())| + 1 == old(cap) then 2 * old(cap) else old(cap)
    {
      ghost var was := Contents();
      q[tail] := m;
      tail := tail + 1;
      if tail == cap { tail := 0; }
      if tail == head {
        assert was + [m] == q[head..] + q[..tail];
        Grow(was + [m]);
      }
    }

    /** Twice the room; what is in the new half is arbitrary. */
    method Realloc()
      requires Valid()
      modifies this
      ensures Valid() && fresh(q) && head == old(head) && tail == old(tail) && cap == 2 * old(cap)
      ensures q[..old(cap)] == old(q[..])
    {
      var was := q;
      var more := new Message[2 * cap];
      forall i | 0 <= i < cap { more[i] := was[i]; }
      q := more;
      cap := 2 * cap;
    }

    /** The ring is full: what stands in front of 'head' moves behind the rest. */
    method Grow(ghost all: seq<Message>)
      requires Valid() && tail == head && all == q[head..] + q[..tail]
      modifies this
      ensures Valid() && fresh(q) && head == old(head) && cap == 2 * old(cap) && Contents() == all
    {
      var cap0 := cap;
      ghost var front := q[..];
      Realloc();
      CopyFront(cap0, tail, front);
      tail := cap0 + tail;
      GrownAround(q[..], front, head);
    }

    method CopyFront(cap0: nat, n: nat, ghost front: seq<Message>)
      requires Valid() && n <= cap0 && 2 * cap0 == cap && q[..cap0] == front
      modifies q
      ensures q[..cap0] == front && q[cap0..cap0 + n] == front[..n]
    {
      var i := 0;
      while i < n
        invariant 0 <= i <= n
        invariant q[..cap0] == front && q[cap0..cap0 + i] == front[..i]
      {
        assert q[i] == q[..cap0][i];
        q[cap0 + i] := q[i];
        assert front[..i + 1] == front[..i] + [front[i]];
        assert q[cap0..cap0 + (i + 1)] == q[cap0..cap0 + i] + [q[cap0 + i]];
        i := i + 1;
      }
    }

    /** shaco_msg_pop */
    method Pop() returns (m: Option<Message>)
      requires Valid()
      modifies this`head
      ensures Valid() && m.None? == (old(Contents()) == [])
      ensures Contents() == if m.None? then [] else old(Contents())[1..]
      ensures m.Some? ==> m.value == old(Contents())[0]
      ensures head == if m.None? then old(head) else if old(head) + 1 == cap then 0 else old(head) + 1
    {
      if head == tail { return None; }
      m := Some(q[head]);
      head := head + 1;
      if head == cap { head := 0; }
    }

    /** shaco_msg_empty */
    method Empty() returns (e: bool)
      requires Valid()
      ensures e == (Contents() == [])
    {
      e := tail == head;
    }

    /** The messages that one call of the handler sends. */
    method PushAll(ms: seq<Message>)
      requires Valid()
      modifies this, q
      ensures Valid() && (q == old(q) || fresh(q)) && head == old(head)
      ensures Contents() == old(Contents()) + ms
      ensures cap == old(cap) <==> |old(Contents())| + |ms| < old(cap)
      ensures cap == old(cap) || cap >= 2 * old(cap)
    {
      var i := 0;
      ghost var was, cap0 := Contents(), cap;
      assert was + ms[..0] == was;
      while i < |ms|
        invariant 0 <= i <= |ms| && Valid() && (q == old(q) || fresh(q)) && head == old(head)
        invariant Contents() == was + ms[..i]
        invariant cap == cap0 <==> |was| + i < cap0
        invariant cap == cap0 || cap >= 2 * cap0
      {
        assert was + ms[..i + 1] == was + ms[..i] + [ms[i]];
        Push(ms[i]);
        i := i + 1;
      }
      assert ms[..i] == ms;
    }

    /** One round of the dispatch: a message is taken out, and its handler pushes others. */
    method Deliver(script: seq<seq<Message>>, calls: nat, ghost delivered: seq<Message>, ghost was: seq<Message>) returns (m: Option<Message>)
      requires Valid() && calls == |delivered| && Accounts(delivered, Contents(), was, script)
      modifies this, q
      ensures Valid() && (q == old(q) || fresh(q))
      ensures m.None? ==> Accounts(delivered, [], was, script) && Accounts(delivered, Contents(), was, script)
      ensures m.None? ==> head == old(head) && cap == old(cap)
      ensures m.Some? ==>
                && Accounts(delivered + [m.value], Contents(), was, script)
                && Remaining(|was|, script, calls + 1) < Remaining(|was|, script, calls)
                && Moved(old(head), head, old(cap), cap, Size(|was|, script, calls), |Call(script, calls)|)
    {
      hide Pushed, Accounts, Call, Remaining;
      ghost var before := Contents();
      m := Pop();
      if m.Some? {
        Delivered(delivered, before, was, script);
        PushAll(Call(script, calls));
      }
    }

    /** shaco_msg_dispatch: every message is taken out and given to the handler, until the place is reached that was
        the end at the start. The handler may push, and the ring may grow. */
    method Dispatch(script: seq<seq<Message>>) returns (delivered: seq<Message>)
      requires Valid()
      modifies this, q
      ensures Valid() && (q == old(q) || fresh(q))
      ensures Accounts(delivered, Contents(), old(Contents()), script)
      ensures Finished(delivered, old(Contents()), old(cap), old(head), old(tail), |old(Contents())|, script)
    {
      hide OvertakenBy, Followed, Pushed, Overtaken, Call, Accounts, Remaining, Finished, Moved, Size;
      hide Contents, Valid;
      var end, calls := tail, 0;
      delivered := [];
      ghost var was, cap0, head0, n, stale := Contents(), cap, head, |Contents()|, false;
      AtTheStart(this);
      AtStart(head, cap, end, n, script, was);
      while true
        invariant Valid() && (q == old(q) || fresh(q)) && calls == |delivered|
        invariant Accounts(delivered, Contents(), was, script)
        invariant Followed(head, cap, end, calls, stale, cap0, head0, n)
        invariant stale == OvertakenBy(cap0, head0, end, n, script, calls)
        decreases Remaining(n, script, calls)
      {
        ghost var cap1, head1 := cap, head;
        var m := Deliver(script, calls, delivered, was);
        if m.None? {
          AllGone(head, cap, end, calls, stale, cap0, head0, n, delivered, was, script);
          break;
        }
        delivered := delivered + [m.value];
        calls := calls + 1;
        stale := FollowedNext(head1, head, cap1, cap, end, calls, stale, cap0, head0, n, script);
        if head == end {
          EndReached(head, cap, end, calls, stale, cap0, head0, n, delivered, was, script, Contents());
          break;
        }
      }
    }
  }

  /** All messages of the start have been delivered, in order; and nothing else, but for one case. */
  ghost predicate Finished(delivered: seq<Message>, was: seq<Message>, cap: nat, head: nat, end: nat, n: nat, script: seq<seq<Message>>) {
    was <= delivered && (delivered == was <==> !Overtaken(cap, head, end, n, script))
  }

  /** 'head' goes one place on, and the ring grows if it would be full. */
  predicate Moved(head1: nat, head: nat, cap1: nat, cap: nat, size: int, pushed: nat) {
    && size > 0 && head1 < cap1 && head == (if head1 + 1 == cap1 then 0 else head1 + 1)
    && (cap == cap1 <==> size - 1 + pushed < cap1)
    && (cap == cap1 || cap >= 2 * cap1)
  }

  /** What has been delivered and what is in the ring: what was there, and then what the calls have pushed. */
  predicate Accounts(delivered: seq<Message>, contents: seq<Message>, was: seq<Message>, script: seq<seq<Message>>) {
    delivered + contents == was + Pushed(script, |delivered|)
  }

  /** How many messages are in the ring after some calls. */
  function Size(n: nat, script: seq<seq<Message>>, calls: nat): int {
    n + |Pushed(script, calls)| - calls
  }

  /** How many more calls there can be. */
  function Remaining(n: nat, script: seq<seq<Message>>, calls: nat): nat {
    var all := n + |Pushed(script, |script|)|;
    if calls <= all then all - calls else 0
  }

  lemma Delivered(delivered: seq<Message>, before: seq<Message>, was: seq<Message>, script: seq<seq<Message>>)
    requires before != [] && Accounts(delivered, before, was, script)
    ensures Accounts(delivered + [before[0]], before[1..] + Call(script, |delivered|), was, script)
    ensures |before| == Size(|was|, script, |delivered|)
    ensures Remaining(|was|, script, |delivered| + 1) < Remaining(|was|, script, |delivered|)
  {
    var calls := |delivered|;
    var more := Call(script, calls);
    PushedEnds(script, calls);
    assert before == [before[0]] + before[1..];
    assert (delivered + [before[0]]) + (before[1..] + more) == (delivered + before) + more;
    assert (was + Pushed(script, calls)) + more == was + (Pushed(script, calls) + more);
  }

  lemma GrownAround(q: seq<Message>, front: seq<Message>, head: nat)
    requires head <= |front| && |q| == 2 * |front| && q[..|front|] == front && q[|front|..|front| + head] == front[..head]
    ensures q[head..|front| + head] == front[head..] + front[..head]
  {
    assert q[head..|front| + head] == q[..|front|][head..] + q[|front|..|front| + head];
  }

  /** Three messages around the end of a ring of eight; the handler of the first one sends six. Then more than the
      three messages are delivered. */
  lemma SixMessagesOvertake(m: Message)
    ensures Overtaken(8, 6, 1, 3, [[m, m, m, m, m, m]])
  {
    var script := [[m, m, m, m, m, m]];
    assert Pushed(script, 1) == Pushed(script, 0) + script[0];
    assert FillsAt(8, 6, 3, script, 1);
  }

  /** Some message of the first round is given to the handler while the ring is wrapped around and fills up. */
  ghost predicate Overtaken(cap: nat, head: nat, end: nat, n: nat, script: seq<seq<Message>>) {
    end < head && exists k: nat :: FillsAt(cap, head, n, script, k)
  }

  predicate FillsAt(cap: nat, head: nat, n: nat, script: seq<seq<Message>>, k: nat) {
    1 <= k < cap - head && n - k + |Pushed(script, k)| >= cap
  }

  ghost predicate OvertakenBy(cap: nat, head: nat, end: nat, n: nat, script: seq<seq<Message>>, calls: nat) {
    end < head && exists k: nat :: k <= calls && FillsAt(cap, head, n, script, k)
  }

  /** Where 'head' is after some calls. As long as the ring has not grown at the wrong moment it comes to the old end
      with the last of the n messages; after that it is beyond the old end, which no longer means anything. */
  ghost predicate Followed(head: nat, cap: nat, end: nat, calls: nat, stale: bool, cap0: nat, head0: nat, n: nat) {
    && end < cap0 <= cap && head0 < cap0 && n == (if head0 <= end then end - head0 else cap0 - head0 + end)
    && if stale then end < head0 && (calls <= n ==> end < head && head + (n - calls) == cap0 + end < cap)
       else
         || (n == calls == 0)
         || (calls < n && head < end && head + (n - calls) == end)
         || (calls < n && end < head && head + (n - calls) == cap + end && cap == cap0 && head == head0 + calls)
  }

  lemma AtTheStart(r: Ring)
    requires r.Valid()
    ensures r.head < r.cap && r.tail < r.cap
    ensures |r.Contents()| == if r.head <= r.tail then r.tail - r.head else r.cap - r.head + r.tail
  {
  }

  lemma AtStart(head: nat, cap: nat, end: nat, n: nat, script: seq<seq<Message>>, was: seq<Message>)
    requires head < cap && end < cap && n == if head <= end then end - head else cap - head + end
    ensures Followed(head, cap, end, 0, false, cap, head, n) && !OvertakenBy(cap, head, end, n, script, 0)
    ensures Accounts([], was, was, script)
  {
    assert [] + was == was + [];
  }

  lemma StaleNext(cap: nat, head: nat, end: nat, n: nat, script: seq<seq<Message>>, calls: nat)
    requires calls > 0
    ensures OvertakenBy(cap, head, end, n, script, calls) ==
            (OvertakenBy(cap, head, end, n, script, calls - 1) || (end < head && FillsAt(cap, head, n, script, calls)))
  {
  }

  /** One call further, unless that was the last one. */
  lemma FollowedNext(head1: nat, head: nat, cap1: nat, cap: nat, end: nat, calls: nat, stale: bool, cap0: nat, head0: nat, n: nat, script: seq<seq<Message>>)
    returns (stale1: bool)
    requires calls > 0 && Followed(head1, cap1, end, calls - 1, stale, cap0, head0, n)
    requires stale == OvertakenBy(cap0, head0, end, n, script, calls - 1)
    requires Moved(head1, head, cap1, cap, Size(n, script, calls - 1), |Call(script, calls - 1)|)
    ensures stale1 == OvertakenBy(cap0, head0, end, n, script, calls)
    ensures head != end ==> Followed(head, cap, end, calls, stale1, cap0, head0, n)
    ensures head == end ==> if stale1 then calls > n else calls == n
    ensures stale1 ==> end < head0
  {
    StaleNext(cap0, head0, end, n, script, calls);
    hide OvertakenBy;
    stale1 := stale || (end < head0 && FillsAt(cap0, head0, n, script, calls));
  }

  lemma PushedSome(cap: nat, head: nat, end: nat, n: nat, script: seq<seq<Message>>, calls: nat)
    requires OvertakenBy(cap, head, end, n, script, calls) && n == cap - head + end
    ensures Overtaken(cap, head, end, n, script) && Pushed(script, calls) != []
  {
    var k: nat :| k <= calls && FillsAt(cap, head, n, script, k);
    PushedGrows(script, k, calls);
  }

  /** The place is reached that was the end. */
  lemma EndReached(head: nat, cap: nat, end: nat, calls: nat, stale: bool, cap0: nat, head0: nat, n: nat, delivered: seq<Message>, was: seq<Message>, script: seq<seq<Message>>, rest: seq<Message>)
    requires |was| == n && |delivered| == calls && Accounts(delivered, rest, was, script)
    requires stale == OvertakenBy(cap0, head0, end, n, script, calls) && (if stale then calls > n else calls == n)
    requires end < head0 < cap0 ==> n == cap0 - head0 + end
    requires head0 < cap0
    ensures Finished(delivered, was, cap0, head0, end, n, script)
  {
    assert delivered == (was + Pushed(script, calls))[..calls];
    if stale {
      PushedSome(cap0, head0, end, n, script, calls);
    }
  }

  /** The ring is empty. */
  lemma AllGone(head: nat, cap: nat, end: nat, calls: nat, stale: bool, cap0: nat, head0: nat, n: nat, delivered: seq<Message>, was: seq<Message>, script: seq<seq<Message>>)
    requires |was| == n && |delivered| == calls && Accounts(delivered, [], was, script)
    requires Followed(head, cap, end, calls, stale, cap0, head0, n)
    requires stale == OvertakenBy(cap0, head0, end, n, script, calls)
    ensures Finished(delivered, was, cap0, head0, end, n, script)
  {
    assert delivered + [] == delivered;
    if stale { PushedSome(cap0, head0, end, n, script, calls); }
  }
}
