/** Timers: a heap of nodes by the time they expire, and the trigger that fires those that are due
    (shaco_timer.c:13-68, 99-172). */
module TimerHeap {

  const WRAP := 0x1_0000_0000_0000_0000

  datatype Node = Node(handle: int, session: int, interval: int, expire: nat)

  /** What a callback registers. */
  datatype Request = Request(handle: int, session: int, interval: int)

  // ---------- Heap order ----------

  function Up(i: int): int
    requires i > 0
  {
    (i - 1) / 2
  }

  predicate Heap(s: seq<Node>) {
    forall i :: 0 < i < |s| ==> s[Up(i)].expire <= s[i].expire
  }

  /** A heap but for the node at pos, which may be too small for its place. */
  predicate HeapAbove(s: seq<Node>, pos: nat)
    requires pos < |s|
  {
    && (forall i :: 0 < i < |s| && i != pos ==> s[Up(i)].expire <= s[i].expire)
    && (forall i :: 0 < i < |s| && Up(i) == pos && pos > 0 ==> s[Up(pos)].expire <= s[i].expire)
  }

  /** A heap but for the node at pos, which may be too big for its place. */
  predicate HeapBelow(s: seq<Node>, pos: nat)
    requires pos < |s|
  {
    && (forall i :: 0 < i < |s| && Up(i) != pos ==> s[Up(i)].expire <= s[i].expire)
    && (forall i :: 0 < i < |s| && Up(i) == pos && pos > 0 ==> s[Up(pos)].expire <= s[i].expire)
  }

  lemma {:induction false} HeapMin(s: seq<Node>, i: nat)
    requires Heap(s) && i < |s|
    ensures s[0].expire <= s[i].expire
    decreases i
  {
    if i > 0 { HeapMin(s, Up(i)); }
  }

  function Swapped(s: seq<Node>, i: nat, j: nat): (t: seq<Node>)
    requires i < |s| && j < |s|
    ensures |t| == |s| && t[i] == s[j] && t[j] == s[i] && multiset(t) == multiset(s)
    ensures forall h :: 0 <= h < |s| && h != i && h != j ==> t[h] == s[h]
  {
    s[i := s[j]][j := s[i]]
  }

  class TimeHeap {
    var cap: nat
    var sz: nat
    var p: array<Node>

    ghost predicate Room()
      reads this
    {
      p.Length == cap && sz <= cap
    }

    ghost predicate Valid()
      reads this, p
    {
      Room() && Heap(p[..sz])
    }

    constructor ()
      ensures Valid() && sz == 0 && fresh(p)
    {
      cap, sz := 0, 0;
      p := new Node[0];
    }

    /** The array grows when it is full. */
    method Reserve()
      requires Valid()
      modifies this
      ensures Valid() && sz < cap && sz == old(sz) && p[..sz] == old(p[..sz]) && (p == old(p) || fresh(p))
    {
      if sz == cap {
        cap := if cap == 0 then 1 else 2 * cap;
        var more := new Node[cap];
        forall i | 0 <= i < sz { more[i] := p[i]; }
        p := more;
        assert p[..sz] == old(p[..sz]);
      }
    }

    /** time_push */
    method Push(n: Node)
      requires Valid()
      modifies this, p
      ensures Valid() && (p == old(p) || fresh(p))
      ensures multiset(p[..sz]) == multiset(old(p[..sz])) + multiset{n} && sz == old(sz) + 1
    {
      ghost var was := p[..sz];
      Reserve();
      SiftUp(n, was);
      sz := sz + 1;
    }

    /** The place behind the last node moves up, until the new node fits. */
    method SiftUp(n: Node, ghost was: seq<Node>)
      requires Room() && sz < cap && was == p[..sz] && Heap(was)
      modifies p
      ensures Heap(p[..sz + 1]) && multiset(p[..sz + 1]) == multiset(was) + multiset{n}
    {
      hide Heap, HeapAbove, Swapped;
      var pos := sz;
      ghost var s := NewLast(was, n);
      while pos > 0
        invariant 0 <= pos <= sz < p.Length && |s| == sz + 1 && s[pos] == n
        invariant multiset(s) == multiset(was) + multiset{n} && HeapAbove(s, pos)
        invariant forall i :: 0 <= i <= sz && i != pos ==> p[i] == s[i]
      {
        var up := (pos - 1) / 2;
        if n.expire < p[up].expire {
          p[pos] := p[up];
          SiftedUp(s, pos);
          s := Swapped(s, pos, up);
        } else {
          break;
        }
        pos := up;
      }
      p[pos] := n;
      AboveFits(s, pos);
      SameNodes(p[..], s);
    }

    /** time_pop */
    method Pop() returns (n: Node)
      requires Valid() && sz > 0
      modifies this`sz, p
      ensures Valid() && sz == old(sz) - 1 && n == old(p[0])
      ensures multiset(old(p[..sz])) == multiset(p[..sz]) + multiset{n}
      ensures forall i :: 0 <= i < old(sz) ==> n.expire <= old(p[i].expire)
    {
      n := p[0];
      ghost var was := p[..sz];
      forall i | 0 <= i < sz ensures n.expire <= p[i].expire { HeapMin(was, i); }
      sz := sz - 1;
      var last := sz;
      if last > 0 { SiftDown(was); } else { assert was == [n]; }
    }

    method SmallerChild(child0: nat, last: nat, i: nat, ghost s: seq<Node>) returns (child: nat)
      requires child0 == 2 * i + 1 <= last < |s| == last + 1 <= p.Length
      requires forall h :: 0 <= h < |s| && h != i ==> p[h] == s[h]
      ensures child0 <= child <= last && child <= child0 + 1 && p[child] == s[child] && Smaller(s, i, child)
    {
      child := child0;
      if child < last {
        if p[child].expire > p[child + 1].expire { child := child + 1; }
      }
    }

    /** The last node moves to the hole at the front, and down. */
    method SiftDown(ghost was: seq<Node>)
      requires Room() && 0 < sz < cap && was == p[..sz + 1] && Heap(was)
      modifies p
      ensures Heap(p[..sz]) && multiset(was) == multiset(p[..sz]) + multiset{was[0]}
    {
      hide Heap, HeapBelow, Swapped, Smaller;
      var last := sz;
      var down := p[last].expire;
      ghost var s := HoleFilled(was);
      last := last - 1;
      var i, child := 0, 1;
      while child <= last
        invariant 0 <= i <= last == sz - 1 && child == 2 * i + 1 && |s| == sz && s[i] == was[sz] == p[sz]
        invariant multiset(was) == multiset(s) + multiset{was[0]} && HeapBelow(s, i)
        invariant forall h :: 0 <= h < sz && h != i ==> p[h] == s[h]
        decreases sz - i
      {
        child := SmallerChild(child, last, i, s);
        if down >= p[child].expire {
          p[i] := p[child];
          SiftedDown(s, i, child);
          s := Swapped(s, i, child);
        } else {
          Fits(s, i, child);
          break;
        }
        i := child;
        child := i * 2 + 1;
      }
      if child > last { Fits(s, i, i); }
      p[i] := p[last + 1];
      assert p[..sz] == s;
    }
  }

  lemma SameNodes(p: seq<Node>, s: seq<Node>)
    requires |s| <= |p| && forall i :: 0 <= i < |s| ==> p[i] == s[i]
    ensures p[..|s|] == s
  {
  }

  lemma NewLast(was: seq<Node>, n: Node) returns (s: seq<Node>)
    requires Heap(was)
    ensures |s| == |was| + 1 && s[|was|] == n && multiset(s) == multiset(was) + multiset{n} && HeapAbove(s, |was|)
    ensures forall i :: 0 <= i < |was| ==> s[i] == was[i]
  {
    s := was + [n];
  }

  lemma SiftedUp(s: seq<Node>, pos: nat)
    requires 0 < pos < |s| && HeapAbove(s, pos) && s[pos].expire < s[Up(pos)].expire
    ensures HeapAbove(Swapped(s, pos, Up(pos)), Up(pos))
  {
  }

  lemma AboveFits(s: seq<Node>, pos: nat)
    requires pos < |s| && HeapAbove(s, pos) && (pos > 0 ==> s[Up(pos)].expire <= s[pos].expire)
    ensures Heap(s)
  {
  }

  lemma HoleFilled(was: seq<Node>) returns (s: seq<Node>)
    requires |was| > 1 && Heap(was)
    ensures |s| == |was| - 1 && s[0] == was[|was| - 1] && s[1..] == was[1..|was| - 1]
    ensures forall h :: 0 < h < |s| ==> s[h] == was[h]
    ensures multiset(was) == multiset(s) + multiset{was[0]} && HeapBelow(s, 0)
  {
    var n := |was| - 1;
    assert was == was[..n] + [was[n]];
    s := was[..n][0 := was[n]];
    forall i | 0 < i < |s| && Up(i) != 0 ensures s[Up(i)].expire <= s[i].expire {
      assert was[Up(i)].expire <= was[i].expire;
    }
  }

  lemma SiftedDown(s: seq<Node>, i: nat, c: nat)
    requires i < c < |s| && Smaller(s, i, c) && HeapBelow(s, i) && s[i].expire >= s[c].expire
    ensures HeapBelow(Swapped(s, i, c), c)
  {
    var t := Swapped(s, i, c);
    hide Swapped;
    forall h | 0 < h < |t| && Up(h) != c ensures t[Up(h)].expire <= t[h].expire {
      if Up(h) == i { assert h == 2 * i + 1 || h == 2 * i + 2; }
      if h == i { assert s[Up(i)].expire <= s[c].expire; }
    }
    forall h | 0 < h < |t| && Up(h) == c ensures t[Up(c)].expire <= t[h].expire {
      assert s[Up(h)].expire <= s[h].expire;
    }
  }

  /** c is the child of i that expires first. */
  predicate Smaller(s: seq<Node>, i: nat, c: nat)
    requires i < c < |s|
  {
    && (c == 2 * i + 1 || c == 2 * i + 2)
    && forall h :: i < h < |s| && (h == 2 * i + 1 || h == 2 * i + 2) ==> s[c].expire <= s[h].expire
  }

  /** The node has no child, or is not greater than the smaller one. */
  lemma Fits(s: seq<Node>, i: nat, c: nat)
    requires i < |s| && i <= c < |s| && HeapBelow(s, i)
    requires if c == i then |s| <= 2 * i + 1 else Smaller(s, i, c) && s[i].expire <= s[c].expire
    ensures Heap(s)
  {
    forall h | 0 < h < |s| ensures s[Up(h)].expire <= s[h].expire {
      if Up(h) == i { assert h == 2 * i + 1 || h == 2 * i + 2; }
    }
  }

  // ---------- Firing ----------

  /** The node that shaco_timer_register makes; the sum is that of 64-bit words. */
  function NewNode(r: Request, elapsed: nat): Node {
    Node(r.handle, r.session, r.interval, (elapsed + r.interval) % WRAP)
  }

  function NewNodes(rs: seq<Request>, elapsed: nat): (ns: seq<Node>)
    ensures |ns| == |rs|
  {
    seq(|rs|, i requires 0 <= i < |rs| => NewNode(rs[i], elapsed))
  }

  function Call(script: seq<seq<Request>>, k: nat): seq<Request> {
    if k < |script| then script[k] else []
  }

  /** What the first k callbacks register. */
  function Registered(script: seq<seq<Request>>, k: nat, elapsed: nat): seq<Node>
    decreases k
  {
    if k == 0 then [] else Registered(script, k - 1, elapsed) + NewNodes(Call(script, k - 1), elapsed)
  }

  lemma {:induction false} RegisteredBound(script: seq<seq<Request>>, k: nat, n: nat, elapsed: nat)
    requires k <= n || |script| <= n
    ensures |Registered(script, k, elapsed)| <= |Registered(script, n, elapsed)|
    decreases k + n
  {
    if k > n { RegisteredBound(script, k - 1, n, elapsed); } else if k < n { RegisteredBound(script, k, n - 1, elapsed); }
  }

  /** The callbacks ask for no interval below this one, and the clock does not wrap within any of them. */
  ghost predicate Intervals(script: seq<seq<Request>>, elapsed: nat, least: int) {
    forall k, i :: 0 <= k < |script| && 0 <= i < |script[k]| ==>
      script[k][i].interval >= least && elapsed + script[k][i].interval < WRAP
  }

  /** No callback registers a time in the past. */
  ghost predicate Forward(script: seq<seq<Request>>, elapsed: nat) {
    Intervals(script, elapsed, 0)
  }

  /** No callback registers a time that has come. */
  ghost predicate Later(script: seq<seq<Request>>, elapsed: nat) {
    Intervals(script, elapsed, 1)
  }

  ghost predicate Sorted(ns: seq<Node>) {
    forall i, j :: 0 <= i < j < |ns| ==> ns[i].expire <= ns[j].expire
  }

  /** A uint64_t as an int. */
  function Int32(n: nat): int {
    var m := n % 0x1_0000_0000;
    if m < 0x8000_0000 then m else m - 0x1_0000_0000
  }

  /** The time to wait is -1 if there is no node, 0 if one is due, and else the distance to the one that expires first, as
      far as that is an int. */
  ghost predicate WaitsFor(r: int, nodes: multiset<Node>, clock: nat) {
    && (nodes == multiset{} ==> r == -1)
    && (forall n :: n in nodes && n.expire <= clock ==> r == 0)
    && (forall n :: n in nodes && clock < n.expire < clock + 0x8000_0000 && (forall m :: m in nodes ==> n.expire <= m.expire) ==>
          r == n.expire - clock)
  }

  lemma FirstWaits(nodes: multiset<Node>, first: Node, clock: nat, r: int)
    requires first in nodes && forall n :: n in nodes ==> first.expire <= n.expire
    requires r == if first.expire > clock then Int32(first.expire - clock) else 0
    ensures WaitsFor(r, nodes, clock)
  {
  }

  class Timer {
    var elapsed: nat
    var dirty: bool
    const h: TimeHeap

    ghost predicate Valid()
      reads this, h, h.p
    {
      h.Valid()
    }

    ghost function Nodes(): multiset<Node>
      reads h, h.p
      requires h.Room()
    {
      multiset(h.p[..h.sz])
    }

    constructor ()
      ensures Valid() && Nodes() == multiset{} && fresh(h) && fresh(h.p)
    {
      elapsed, dirty := 0, true;
      h := new TimeHeap();
    }

    /** _elapsed_time: the clock is read once in a round. */
    method ReadClock(clock: nat)
      modifies this
      ensures !dirty && elapsed == if old(dirty) then clock else old(elapsed)
    {
      if dirty { dirty, elapsed := false, clock; }
    }

    /** shaco_timer_register */
    method Register(r: Request, clock: nat)
      requires Valid()
      modifies this, h, h.p
      ensures Valid() && !dirty && elapsed == (if old(dirty) then clock else old(elapsed)) && (h.p == old(h.p) || fresh(h.p))
      ensures Nodes() == old(Nodes()) + multiset{NewNode(r, elapsed)}
    {
      ReadClock(clock);
      h.Push(Node(r.handle, r.session, r.interval, (elapsed + r.interval) % WRAP));
    }

    /** shaco_timer_max_timeout: how long to wait for the next node, -1 for ever. The next round reads the clock anew. */
    method MaxTimeout(clock: nat) returns (r: int)
      requires Valid()
      modifies this
      ensures Valid() && dirty && elapsed == clock && Nodes() == old(Nodes())
      ensures WaitsFor(r, Nodes(), clock)
    {
      elapsed := clock;
      dirty := true;
      if h.sz > 0 {
        AllNodes(h.p[..h.sz]);
        var first := h.p[0];
        r := if first.expire > elapsed then Int32(first.expire - elapsed) else 0;
        FirstWaits(Nodes(), first, elapsed, r);
      } else {
        r := -1;
      }
    }

    method RegisterAll(rs: seq<Request>, clock: nat)
      requires Valid() && !dirty
      modifies this, h, h.p
      ensures Valid() && !dirty && elapsed == old(elapsed) && (h.p == old(h.p) || fresh(h.p))
      ensures Nodes() == old(Nodes()) + multiset(NewNodes(rs, elapsed))
    {
      hide Heap, NewNode;
      var i := 0;
      ghost var ns := NewNodes(rs, elapsed);
      assert ns[..0] == [];
      while i < |rs|
        invariant 0 <= i <= |rs| && Valid() && !dirty && elapsed == old(elapsed) && (h.p == old(h.p) || fresh(h.p))
        invariant Nodes() == old(Nodes()) + multiset(ns[..i])
      {
        NextNew(ns, i);
        Register(rs[i], clock);
        i := i + 1;
      }
      assert ns[..i] == ns;
    }

    /** The first node is taken out, and its callback registers others. */
    method Fire(script: seq<seq<Request>>, calls: nat, clock: nat, ghost fired: seq<Node>, ghost was: multiset<Node>) returns (n: Node)
      requires calls == |fired| && Valid() && !dirty && h.sz > 0 && h.p[0].expire <= elapsed
      requires FiredSoFar(fired, Nodes(), was, script, elapsed)
      modifies this, h, h.p
      ensures Valid() && !dirty && elapsed == old(elapsed) && (h.p == old(h.p) || fresh(h.p))
      ensures FiredSoFar(fired + [n], Nodes(), was, script, elapsed)
      ensures Remaining(|was|, script, elapsed, |fired| + 1) < Remaining(|was|, script, elapsed, |fired|)
    {
      hide FiredSoFar, NewNodes, Call, Remaining;
      ghost var before := Nodes();
      AllNodes(h.p[..h.sz]);
      n := h.Pop();
      ghost var rest := Nodes();
      FireNext(fired, before, rest, n, was, script, elapsed);
      RegisterAll(Call(script, calls), clock);
    }

    /** shaco_timer_trigger: the first node is fired as long as it is due. Its callback may register others. */
    method Trigger(script: seq<seq<Request>>, clock: nat) returns (fired: seq<Node>)
      requires Valid()
      modifies this, h, h.p
      ensures Valid() && !dirty && elapsed == (if old(dirty) then clock else old(elapsed)) && (h.p == old(h.p) || fresh(h.p))
      ensures FiredSoFar(fired, Nodes(), old(Nodes()), script, elapsed)
      ensures forall n :: n in Nodes() ==> n.expire > elapsed
    {
      hide FiredSoFar, Remaining;
      ReadClock(clock);
      ghost var was := Nodes();
      NoneFired(was, script, elapsed);
      fired := [];
      while h.sz > 0
        invariant Valid() && !dirty && elapsed == (if old(dirty) then clock else old(elapsed)) && (h.p == old(h.p) || fresh(h.p))
        invariant FiredSoFar(fired, Nodes(), was, script, elapsed)
        decreases Remaining(|was|, script, elapsed, |fired|)
      {
        if h.p[0].expire > elapsed {
          NoneDue(h.p[..h.sz], elapsed);
          break;
        }
        var n := Fire(script, |fired|, clock, fired, was);
        fired := fired + [n];
      }
    }
  }

  ghost predicate Accounted(fired: seq<Node>, nodes: multiset<Node>, was: multiset<Node>, added: seq<Node>) {
    multiset(fired) + nodes == was + multiset(added)
  }

  ghost predicate InOrder(fired: seq<Node>, nodes: multiset<Node>) {
    Sorted(fired) && forall n, m :: n in fired && m in nodes ==> n.expire <= m.expire
  }

  /** The fired nodes were due; with those that are left they are the nodes of the start and what the callbacks have
      registered since. They come in order if no callback registers a time in the past. */
  ghost predicate FiredSoFar(fired: seq<Node>, nodes: multiset<Node>, was: multiset<Node>, script: seq<seq<Request>>, elapsed: nat) {
    && Accounted(fired, nodes, was, Registered(script, |fired|, elapsed))
    && (forall n :: n in fired ==> n.expire <= elapsed)
    && (Forward(script, elapsed) ==> InOrder(fired, nodes))
  }

  function Remaining(n: nat, script: seq<seq<Request>>, elapsed: nat, calls: nat): nat {
    var all := n + |Registered(script, |script|, elapsed)|;
    if calls <= all then all - calls else 0
  }

  lemma NextNew(ns: seq<Node>, i: nat)
    requires i < |ns|
    ensures multiset(ns[..i + 1]) == multiset(ns[..i]) + multiset{ns[i]}
  {
    assert ns[..i + 1] == ns[..i] + [ns[i]];
  }

  lemma NoneFired(was: multiset<Node>, script: seq<seq<Request>>, elapsed: nat)
    ensures FiredSoFar([], was, was, script, elapsed)
  {
  }

  lemma AllNodes(s: seq<Node>)
    requires Heap(s) && s != []
    ensures s[0] in multiset(s) && forall n :: n in multiset(s) ==> s[0].expire <= n.expire
  {
    forall n | n in multiset(s) ensures s[0].expire <= n.expire {
      var i :| 0 <= i < |s| && s[i] == n;
      HeapMin(s, i);
    }
  }

  lemma NoneDue(s: seq<Node>, elapsed: nat)
    requires Heap(s) && s != [] && s[0].expire > elapsed
    ensures forall n :: n in multiset(s) ==> n.expire > elapsed
  {
    AllNodes(s);
  }

  /** n is one of those that expire first, and the rest is left. */
  ghost predicate FirstTaken(before: multiset<Node>, rest: multiset<Node>, n: Node) {
    before == rest + multiset{n} && forall m :: m in before ==> n.expire <= m.expire
  }

  lemma FireNext(fired: seq<Node>, before: multiset<Node>, rest: multiset<Node>, n: Node, was: multiset<Node>,
                 script: seq<seq<Request>>, elapsed: nat)
    requires FiredSoFar(fired, before, was, script, elapsed) && FirstTaken(before, rest, n) && n.expire <= elapsed
    ensures FiredSoFar(fired + [n], rest + multiset(NewNodes(Call(script, |fired|), elapsed)), was, script, elapsed)
    ensures Remaining(|was|, script, elapsed, |fired| + 1) < Remaining(|was|, script, elapsed, |fired|)
  {
    var k := |fired|;
    var news := NewNodes(Call(script, k), elapsed);
    FiredParts(fired, before, was, script, elapsed);
    RegisteredNext(script, k, elapsed);
    hide *;
    FireCounts(fired, before, rest, n, was, Registered(script, k, elapsed), news);
    RemainingLess(|was|, script, elapsed, k);
    if Forward(script, elapsed) {
      ForwardNodes(script, k, elapsed);
      FireOrder(fired, before, rest, n, news, elapsed);
    }
    FiredFrom(fired + [n], rest + multiset(news), was, script, elapsed);
  }

  lemma FiredParts(fired: seq<Node>, nodes: multiset<Node>, was: multiset<Node>, script: seq<seq<Request>>, elapsed: nat)
    requires FiredSoFar(fired, nodes, was, script, elapsed)
    ensures Accounted(fired, nodes, was, Registered(script, |fired|, elapsed)) && forall n :: n in fired ==> n.expire <= elapsed
    ensures Forward(script, elapsed) ==> InOrder(fired, nodes)
  {
  }

  lemma FiredFrom(fired: seq<Node>, nodes: multiset<Node>, was: multiset<Node>, script: seq<seq<Request>>, elapsed: nat)
    requires Accounted(fired, nodes, was, Registered(script, |fired|, elapsed)) && forall n :: n in fired ==> n.expire <= elapsed
    requires Forward(script, elapsed) ==> InOrder(fired, nodes)
    ensures FiredSoFar(fired, nodes, was, script, elapsed)
  {
  }

  lemma RemainingLess(n: nat, script: seq<seq<Request>>, elapsed: nat, calls: nat)
    requires calls < n + |Registered(script, calls, elapsed)|
    ensures Remaining(n, script, elapsed, calls + 1) < Remaining(n, script, elapsed, calls)
  {
    RegisteredBound(script, calls, |script|, elapsed);
  }

  lemma RegisteredNext(script: seq<seq<Request>>, k: nat, elapsed: nat)
    ensures Registered(script, k + 1, elapsed) == Registered(script, k, elapsed) + NewNodes(Call(script, k), elapsed)
  {
  }

  lemma ForwardNodes(script: seq<seq<Request>>, k: nat, elapsed: nat)
    requires Forward(script, elapsed)
    ensures forall i :: 0 <= i < |NewNodes(Call(script, k), elapsed)| ==> NewNodes(Call(script, k), elapsed)[i].expire >= elapsed
  {
  }

  lemma FireCounts(fired: seq<Node>, before: multiset<Node>, rest: multiset<Node>, n: Node, was: multiset<Node>, added: seq<Node>, news: seq<Node>)
    requires Accounted(fired, before, was, added) && FirstTaken(before, rest, n)
    ensures Accounted(fired + [n], rest + multiset(news), was, added + news)
    ensures |fired| < |was| + |added|
  {
    assert multiset(fired + [n]) == multiset(fired) + multiset{n};
    assert multiset(added + news) == multiset(added) + multiset(news);
    assert multiset(fired + [n]) + (rest + multiset(news)) == (multiset(fired) + before) + multiset(news);
    assert |multiset(fired) + before| == |fired| + |rest| + 1;
    assert |was + multiset(added)| == |was| + |added|;
  }

  lemma FireOrder(fired: seq<Node>, before: multiset<Node>, rest: multiset<Node>, n: Node, news: seq<Node>, elapsed: nat)
    requires FirstTaken(before, rest, n) && n.expire <= elapsed
    requires InOrder(fired, before) && forall a :: a in fired ==> a.expire <= elapsed
    requires forall i :: 0 <= i < |news| ==> news[i].expire >= elapsed
    ensures InOrder(fired + [n], rest + multiset(news))
  {
    forall a, m | a in fired + [n] && m in rest + multiset(news) ensures a.expire <= m.expire {
      assert m in rest || m in news;
      assert m in rest ==> m in before;
      assert a in fired || a == n;
    }
    assert forall i :: 0 <= i < |fired| ==> fired[i] in fired;
  }

  // ---------- What is fired ----------

  /** A trigger fires every node that is due, as often as there is one, and no other. */
  lemma FiredAreDue(fired: seq<Node>, nodes: multiset<Node>, was: multiset<Node>, script: seq<seq<Request>>, elapsed: nat, n: Node)
    requires FiredSoFar(fired, nodes, was, script, elapsed) && forall m :: m in nodes ==> m.expire > elapsed
    ensures multiset(fired)[n] ==
            if n.expire <= elapsed then was[n] + multiset(Registered(script, |fired|, elapsed))[n] else 0
  {
    assert (multiset(fired) + nodes)[n] == (was + multiset(Registered(script, |fired|, elapsed)))[n];
    assert n in fired <==> n in multiset(fired);
  }

  lemma {:induction false} RegisteredLater(script: seq<seq<Request>>, k: nat, elapsed: nat)
    requires Later(script, elapsed)
    ensures forall n :: n in Registered(script, k, elapsed) ==> n.expire > elapsed
    decreases k
  {
    if k > 0 { RegisteredLater(script, k - 1, elapsed); }
  }

  /** Where no callback registers a time that has come, the trigger fires what was due at the start: whatever the
      callbacks do, it ends after so many rounds. */
  lemma FiredWereDue(fired: seq<Node>, nodes: multiset<Node>, was: multiset<Node>, script: seq<seq<Request>>, elapsed: nat)
    requires FiredSoFar(fired, nodes, was, script, elapsed) && (forall m :: m in nodes ==> m.expire > elapsed)
    requires Later(script, elapsed)
    ensures forall n :: multiset(fired)[n] == if n.expire <= elapsed then was[n] else 0
    ensures |fired| <= |was|
  {
    var news := multiset(Registered(script, |fired|, elapsed));
    RegisteredLater(script, |fired|, elapsed);
    forall n ensures multiset(fired)[n] == if n.expire <= elapsed then was[n] else 0 {
      FiredAreDue(fired, nodes, was, script, elapsed, n);
      assert n in news <==> n in Registered(script, |fired|, elapsed);
    }
    assert multiset(fired) <= was;
    assert was == multiset(fired) + (was - multiset(fired));
  }

  // ---------- From registration to firing ----------

  predicate IsFor(n: Node, handle: int, session: int) {
    n.handle == handle && n.session == session
  }

  function Hits(ns: seq<Node>, handle: int, session: int): nat {
    if ns == [] then 0 else Hits(ns[1..], handle, session) + if IsFor(ns[0], handle, session) then 1 else 0
  }

  lemma {:induction false} HitsNone(ns: seq<Node>, handle: int, session: int)
    requires forall n :: n in ns ==> !IsFor(n, handle, session)
    ensures Hits(ns, handle, session) == 0
    decreases |ns|
  {
    if ns != [] { HitsNone(ns[1..], handle, session); }
  }

  lemma {:induction false} HitsOne(ns: seq<Node>, x: Node)
    requires multiset(ns)[x] == 1 && forall n :: n in ns && IsFor(n, x.handle, x.session) ==> n == x
    ensures Hits(ns, x.handle, x.session) == 1
    decreases |ns|
  {
    assert x in multiset(ns) && ns != [];
    assert ns == [ns[0]] + ns[1..];
    assert multiset(ns) == multiset{ns[0]} + multiset(ns[1..]);
    if ns[0] == x {
      assert multiset(ns[1..])[x] == 0;
      forall n | n in ns[1..] ensures !IsFor(n, x.handle, x.session) {
        assert n in multiset(ns[1..]) && n in ns;
      }
      HitsNone(ns[1..], x.handle, x.session);
    } else {
      assert ns[0] in ns;
      HitsOne(ns[1..], x);
    }
  }

  /** One round of the server: it waits from 'poll' on, triggers at 'clock', and the callbacks register. */
  datatype Round = Round(poll: nat, clock: nat, script: seq<seq<Request>>)

  predicate Silent(script: seq<seq<Request>>, handle: int, session: int) {
    forall k, i :: 0 <= k < |script| && 0 <= i < |script[k]| ==> !(script[k][i].handle == handle && script[k][i].session == session)
  }

  predicate NoneFor(nodes: multiset<Node>, handle: int, session: int) {
    forall n :: n in nodes ==> !IsFor(n, handle, session)
  }

  /** There is exactly one node for this handle and session, and it expires then. */
  ghost predicate OneFor(nodes: multiset<Node>, handle: int, session: int, expire: int) {
    exists x :: IsFor(x, handle, session) && x.expire == expire && nodes[x] == 1
                && forall n :: n in nodes && IsFor(n, handle, session) ==> n == x
  }

  lemma {:induction false} SilentRegistered(script: seq<seq<Request>>, k: nat, elapsed: nat, handle: int, session: int)
    requires Silent(script, handle, session)
    ensures forall n :: n in Registered(script, k, elapsed) ==> !IsFor(n, handle, session)
    decreases k
  {
    if k > 0 { SilentRegistered(script, k - 1, elapsed, handle, session); }
  }

  /** What a trigger does to the nodes for one handle and session, where no callback registers for these. */
  lemma TriggerFor(fired: seq<Node>, nodes: multiset<Node>, was: multiset<Node>, script: seq<seq<Request>>, elapsed: nat,
                   handle: int, session: int, n: Node)
    requires FiredSoFar(fired, nodes, was, script, elapsed) && forall m :: m in nodes ==> m.expire > elapsed
    requires Silent(script, handle, session) && IsFor(n, handle, session)
    ensures multiset(fired)[n] == (if n.expire <= elapsed then was[n] else 0) && nodes[n] == was[n] - multiset(fired)[n]
  {
    var news := Registered(script, |fired|, elapsed);
    SilentRegistered(script, |fired|, elapsed, handle, session);
    FiredAreDue(fired, nodes, was, script, elapsed, n);
    assert n !in news && multiset(news)[n] == 0;
    assert (multiset(fired) + nodes)[n] == (was + multiset(news))[n];
  }

  lemma TriggerNone(fired: seq<Node>, nodes: multiset<Node>, was: multiset<Node>, script: seq<seq<Request>>, elapsed: nat,
                    handle: int, session: int)
    requires FiredSoFar(fired, nodes, was, script, elapsed) && forall m :: m in nodes ==> m.expire > elapsed
    requires Silent(script, handle, session) && NoneFor(was, handle, session)
    ensures NoneFor(nodes, handle, session) && Hits(fired, handle, session) == 0
  {
    hide FiredSoFar;
    forall n | IsFor(n, handle, session) ensures n !in nodes && n !in fired {
      TriggerFor(fired, nodes, was, script, elapsed, handle, session, n);
      assert n in fired <==> n in multiset(fired);
    }
    HitsNone(fired, handle, session);
  }

  lemma TriggerOne(fired: seq<Node>, nodes: multiset<Node>, was: multiset<Node>, script: seq<seq<Request>>, elapsed: nat,
                   handle: int, session: int, expire: int)
    requires FiredSoFar(fired, nodes, was, script, elapsed) && forall m :: m in nodes ==> m.expire > elapsed
    requires Silent(script, handle, session) && OneFor(was, handle, session, expire)
    ensures if expire <= elapsed then NoneFor(nodes, handle, session) && Hits(fired, handle, session) == 1
            else OneFor(nodes, handle, session, expire) && Hits(fired, handle, session) == 0
  {
    hide FiredSoFar;
    var x :| IsFor(x, handle, session) && x.expire == expire && was[x] == 1
             && forall n :: n in was && IsFor(n, handle, session) ==> n == x;
    forall n | IsFor(n, handle, session)
      ensures multiset(fired)[n] == (if n == x && expire <= elapsed then 1 else 0)
      ensures nodes[n] == (if n == x && expire > elapsed then 1 else 0)
    {
      TriggerFor(fired, nodes, was, script, elapsed, handle, session, n);
      if n != x { assert n !in was; }
    }
    assert forall n :: n in fired <==> n in multiset(fired);
    if expire <= elapsed { HitsOne(fired, x); } else { HitsNone(fired, handle, session); }
  }

  /** The first trigger at or past a time is that of round k. */
  predicate FirstAt(rounds: seq<Round>, k: nat, time: int)
    requires k < |rounds|
  {
    rounds[k].clock >= time && forall j :: 0 <= j < k ==> rounds[j].clock < time
  }

  method RunRound(t: Timer, round: Round) returns (fired: seq<Node>)
    requires t.Valid()
    modifies t, t.h, t.h.p
    ensures t.Valid() && t.elapsed == round.clock && (t.h.p == old(t.h.p) || fresh(t.h.p))
    ensures FiredSoFar(fired, t.Nodes(), old(t.Nodes()), round.script, round.clock)
    ensures forall n :: n in t.Nodes() ==> n.expire > round.clock
  {
    hide FiredSoFar;
    var _ := t.MaxTimeout(round.poll);
    fired := t.Trigger(round.script, round.clock);
  }

  /** Before the due time the one node waits; at the first trigger past it, it is gone. */
  ghost predicate Waiting(nodes: multiset<Node>, rounds: seq<Round>, i: nat, r: Request, due: int)
    requires i <= |rounds|
  {
    if forall j :: 0 <= j < i ==> rounds[j].clock < due then OneFor(nodes, r.handle, r.session, due)
    else NoneFor(nodes, r.handle, r.session)
  }

  lemma NextRound(ns: seq<Node>, nodes: multiset<Node>, was: multiset<Node>, rounds: seq<Round>, i: nat, r: Request, due: int)
    requires i < |rounds| && Waiting(was, rounds, i, r, due) && Silent(rounds[i].script, r.handle, r.session)
    requires FiredSoFar(ns, nodes, was, rounds[i].script, rounds[i].clock)
    requires forall m :: m in nodes ==> m.expire > rounds[i].clock
    ensures Waiting(nodes, rounds, i + 1, r, due)
    ensures Hits(ns, r.handle, r.session) == if FirstAt(rounds, i, due) then 1 else 0
  {
    hide FiredSoFar, Silent, Hits, OneFor, NoneFor;
    if forall j :: 0 <= j < i ==> rounds[j].clock < due {
      TriggerOne(ns, nodes, was, rounds[i].script, rounds[i].clock, r.handle, r.session, due);
    } else {
      TriggerNone(ns, nodes, was, rounds[i].script, rounds[i].clock, r.handle, r.session);
    }
  }

  lemma OneRegistered(nodes: multiset<Node>, was: multiset<Node>, elapsed: nat, rounds: seq<Round>, r: Request)
    requires NoneFor(was, r.handle, r.session) && nodes == was + multiset{NewNode(r, elapsed)}
    requires 0 <= r.interval && elapsed + r.interval < WRAP
    ensures Waiting(nodes, rounds, 0, r, elapsed + r.interval)
  {
    var n := NewNode(r, elapsed);
    assert n !in was && was[n] == 0;
    assert nodes[n] == 1;
    assert OneFor(nodes, r.handle, r.session, elapsed + r.interval);
  }

  /** In the first round that triggers at or past the time one node is fired for the handle and session, in no other
      round any. */
  ghost predicate FiresOnce(fired: seq<seq<Node>>, rounds: seq<Round>, r: Request, due: int) {
    |fired| <= |rounds| && forall k :: 0 <= k < |fired| ==>
      Hits(fired[k], r.handle, r.session) == if FirstAt(rounds, k, due) then 1 else 0
  }

  lemma FiresOn(fired: seq<seq<Node>>, ns: seq<Node>, rounds: seq<Round>, r: Request, due: int)
    requires FiresOnce(fired, rounds, r, due) && |fired| < |rounds|
    requires Hits(ns, r.handle, r.session) == if FirstAt(rounds, |fired|, due) then 1 else 0
    ensures FiresOnce(fired + [ns], rounds, r, due)
  {
    hide Hits, FirstAt;
  }

  method RegisterFor(t: Timer, r: Request, clock: nat, ghost rounds: seq<Round>) returns (ghost due: int)
    requires t.Valid() && NoneFor(t.Nodes(), r.handle, r.session)
    requires 0 <= r.interval && (if t.dirty then clock else t.elapsed) + r.interval < WRAP
    modifies t, t.h, t.h.p
    ensures t.Valid() && (t.h.p == old(t.h.p) || fresh(t.h.p))
    ensures due == (if old(t.dirty) then clock else old(t.elapsed)) + r.interval && Waiting(t.Nodes(), rounds, 0, r, due)
  {
    hide Waiting, NoneFor, Heap, NewNode;
    ghost var was := t.Nodes();
    t.Register(r, clock);
    OneRegistered(t.Nodes(), was, t.elapsed, rounds, r);
    due := t.elapsed + r.interval;
  }

  method RunFor(t: Timer, rounds: seq<Round>, i: nat, ghost r: Request, ghost due: int) returns (ns: seq<Node>)
    requires t.Valid() && i < |rounds| && Waiting(t.Nodes(), rounds, i, r, due)
    requires Silent(rounds[i].script, r.handle, r.session)
    modifies t, t.h, t.h.p
    ensures t.Valid() && (t.h.p == old(t.h.p) || fresh(t.h.p)) && Waiting(t.Nodes(), rounds, i + 1, r, due)
    ensures Hits(ns, r.handle, r.session) == if FirstAt(rounds, i, due) then 1 else 0
  {
    hide FiredSoFar, Silent, Waiting, Heap, Hits, FirstAt;
    ghost var was := t.Nodes();
    ns := RunRound(t, rounds[i]);
    NextRound(ns, t.Nodes(), was, rounds, i, r, due);
  }

  /** A timer is registered, and the server goes on round by round: the first trigger when the interval is over fires one
      node for its handle and session, and no other trigger fires any. */
  method RegisterAndRun(t: Timer, r: Request, clock: nat, rounds: seq<Round>) returns (fired: seq<seq<Node>>)
    requires t.Valid() && NoneFor(t.Nodes(), r.handle, r.session)
    requires forall k :: 0 <= k < |rounds| ==> Silent(rounds[k].script, r.handle, r.session)
    requires 0 <= r.interval && (if t.dirty then clock else t.elapsed) + r.interval < WRAP
    modifies t, t.h, t.h.p
    ensures |fired| == |rounds|
    ensures FiresOnce(fired, rounds, r, (if old(t.dirty) then clock else old(t.elapsed)) + r.interval)
  {
    hide FiredSoFar, Silent, Waiting, NoneFor, FiresOnce, Heap, NewNode, Hits, FirstAt;
    ghost var due := RegisterFor(t, r, clock, rounds);
    NothingFired(rounds, r, due);
    fired := [];
    var i := 0;
    while i < |rounds|
      invariant 0 <= i <= |rounds| && |fired| == i && t.Valid() && (t.h.p == old(t.h.p) || fresh(t.h.p))
      invariant Waiting(t.Nodes(), rounds, i, r, due) && FiresOnce(fired, rounds, r, due)
    {
      var ns := RunFor(t, rounds, i, r, due);
      FiresOn(fired, ns, rounds, r, due);
      fired := fired + [ns];
      i := i + 1;
    }
  }

  lemma NothingFired(rounds: seq<Round>, r: Request, due: int)
    ensures FiresOnce([], rounds, r, due)
  {
  }
}
