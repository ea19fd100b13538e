/** Sweeping: sweeplist, sweeptolive, entersweep and sweepstep (lgc.c:734-766, 960-967, 1032-1045). */
module LuaSweep {
  import opened LuaObjects
  import opened LuaMark

  function IndexOf(q: seq<Ref>, x: Ref): (i: nat)
    requires x in q
    ensures i < |q| && q[i] == x && x !in q[..i]
  {
    if q[0] == x then 0
    else
      assert q == [q[0]] + q[1..];
      var i := IndexOf(q[1..], x) + 1;
      assert q[..i] == [q[0]] + q[1..][..i - 1];
      i
  }

  function ListOf(s: State, l: ListName): seq<Ref> {
    match l
    case AllGc => s.allgc
    case FinObj => s.finobj
    case ToBeFnz => s.tobefnz
  }

  function SetList(s: State, l: ListName, q: seq<Ref>): State {
    match l
    case AllGc => s.(allgc := q)
    case FinObj => s.(finobj := q)
    case ToBeFnz => s.(tobefnz := q)
  }

  datatype Place = Nowhere | At(list: ListName, index: nat)

  /** Where a cursor points: the element that *p denotes is the one at this index of this list. The address of an
      object's next field follows the object when it moves to another list. */
  function PlaceOf(s: State, p: Cursor): (r: Place)
    ensures r.At? ==> r.index <= |ListOf(s, r.list)|
  {
    match p
    case NoCursor => Nowhere
    case Head(l) => At(l, 0)
    case After(x) =>
      if x in s.allgc then At(AllGc, IndexOf(s.allgc, x) + 1)
      else if x in s.finobj then At(FinObj, IndexOf(s.finobj, x) + 1)
      else if x in s.tobefnz then At(ToBeFnz, IndexOf(s.tobefnz, x) + 1)
      else Nowhere
  }

  /** The objects a sweep from p has still to visit. */
  function Todo(s: State, p: Cursor): seq<Ref> {
    match PlaceOf(s, p)
    case Nowhere => []
    case At(l, i) => ListOf(s, l)[i..]
  }

  /** makewhite: the object gets the current white and no other colour. */
  function MakeWhite(s: State, o: Ref): State {
    s.(color := s.color[o := White(s.white)])
  }

  /** freeobj */
  function Free(s: State, o: Ref): State {
    s.(heap := s.heap.(objs := s.heap.objs - {o}), color := s.color - {o}, finalizable := s.finalizable - {o})
  }

  /** One round of the loop of sweeplist: the object *p is freed if it is dead, and becomes white otherwise. */
  function SweepOne(s: State, p: Cursor): (State, Cursor)
    requires Todo(s, p) != []
  {
    var At(l, i) := PlaceOf(s, p);
    var q := ListOf(s, l);
    if IsDead(s, q[i]) then (Free(SetList(s, l, q[..i] + q[i + 1..]), q[i]), p)
    else (MakeWhite(s, q[i]), After(q[i]))
  }

  function Count(s: State): nat {
    |s.allgc| + |s.finobj| + |s.tobefnz|
  }

  /** sweeplist: at most count objects; a null cursor when the list is finished. */
  function SweepList(s: State, p: Cursor, count: nat): (State, Cursor)
    decreases count
  {
    if Todo(s, p) == [] then (s, NoCursor)
    else if count == 0 then (s, p)
    else
      var (t, r) := SweepOne(s, p);
      SweepList(t, r, count - 1)
  }

  /** sweeptolive */
  function SweepToLive(s: State, p: Cursor): (State, Cursor)
    decreases Count(s)
  {
    var (t, r) := SweepList(s, p, 1);
    if r == p && Count(t) < Count(s) then SweepToLive(t, p) else (t, r)
  }

  // ---------- The lists of all objects ----------

  ghost function AllObjects(s: State): multiset<Ref> {
    multiset(s.allgc) + multiset(s.finobj) + multiset(s.tobefnz) + multiset(s.fixedgc) + multiset{s.mainthread}
  }

  /** Every allocated object is on exactly one list, once; the main thread is on none. Finalizable objects are
      those on 'finobj' and 'tobefnz'. */
  ghost predicate Listed(s: State) {
    && s.color.Keys == s.heap.objs.Keys
    && AllObjects(s) == multiset(s.heap.objs.Keys)
    && (forall r :: r in s.finalizable <==> r in s.finobj || r in s.tobefnz)
  }

  lemma ListedOnce(s: State)
    requires Listed(s)
    ensures NoDup(s.allgc) && NoDup(s.finobj) && NoDup(s.tobefnz)
    ensures forall r :: r in s.allgc ==> r !in s.finobj && r !in s.tobefnz && r !in s.fixedgc && r != s.mainthread
    ensures forall r :: r in s.finobj ==> r !in s.tobefnz && r !in s.fixedgc && r != s.mainthread
    ensures forall r :: r in s.tobefnz ==> r !in s.fixedgc && r != s.mainthread
    ensures forall r :: r in s.heap.objs <==>
              r in s.allgc || r in s.finobj || r in s.tobefnz || r in s.fixedgc || r == s.mainthread
  {
    forall r
      ensures multiset(s.allgc)[r] + multiset(s.finobj)[r] + multiset(s.tobefnz)[r] + multiset(s.fixedgc)[r]
              + (if r == s.mainthread then 1 else 0) == if r in s.heap.objs then 1 else 0
    {
      assert AllObjects(s)[r] == multiset(s.heap.objs.Keys)[r];
    }
    assert forall r :: r in s.allgc <==> multiset(s.allgc)[r] > 0;
    assert forall r :: r in s.finobj <==> multiset(s.finobj)[r] > 0;
    assert forall r :: r in s.tobefnz <==> multiset(s.tobefnz)[r] > 0;
    assert forall r :: r in s.fixedgc <==> multiset(s.fixedgc)[r] > 0;
    OnceNoDup(s.allgc);
    OnceNoDup(s.finobj);
    OnceNoDup(s.tobefnz);
  }

  lemma OnceNoDup(q: seq<Ref>)
    requires forall r :: multiset(q)[r] <= 1
    ensures NoDup(q)
  {
    forall i, j | 0 <= i < j < |q| ensures q[i] != q[j] {
      assert q == q[..j] + [q[j]] + q[j + 1..];
      assert multiset(q) == multiset(q[..j]) + multiset{q[j]} + multiset(q[j + 1..]);
      assert q[..j][i] == q[i];
      assert q[i] in multiset(q[..j]);
      assert multiset(q)[q[j]] == multiset(q[..j])[q[j]] + 1 + multiset(q[j + 1..])[q[j]];
    }
  }

  lemma IndexIs(q: seq<Ref>, i: nat)
    requires NoDup(q) && i < |q|
    ensures IndexOf(q, q[i]) == i
  {
  }

  // ---------- What sweeping keeps ----------

  /** Between s and t only dead objects have been freed; what was live is live and holds what it held. */
  ghost predicate Sweeps(s: State, t: State) {
    && t == s.(heap := t.heap, color := t.color, finalizable := t.finalizable,
               allgc := t.allgc, finobj := t.finobj, tobefnz := t.tobefnz)
    && t.heap.cells == s.heap.cells
    && (forall r :: r in t.heap.objs ==> r in s.heap.objs && t.heap.objs[r] == s.heap.objs[r])
    && (forall r :: Live(t, r) <==> Live(s, r))
    && (forall r :: r in t.color && r in s.color ==> t.color[r] == s.color[r] || t.color[r] == White(s.white))
  }

  lemma SweepsTransitive(s: State, t: State, u: State)
    requires Sweeps(s, t) && Sweeps(t, u)
    requires s.color.Keys == s.heap.objs.Keys && t.color.Keys == t.heap.objs.Keys && u.color.Keys == u.heap.objs.Keys
    ensures Sweeps(s, u)
  {
    forall r | r in u.color && r in s.color ensures u.color[r] == s.color[r] || u.color[r] == White(s.white) {
      assert r in t.heap.objs;
    }
  }

  /** No live object refers to a dead or freed one. */
  ghost predicate LiveClosed(s: State) {
    forall o, r :: Live(s, o) && Refers(s.heap, o, r) ==> Live(s, r)
  }

  lemma SweepsLiveClosed(s: State, t: State)
    requires Sweeps(s, t) && LiveClosed(s)
    ensures LiveClosed(t)
  {
    forall o, r | Live(t, o) && Refers(t.heap, o, r) ensures Live(t, r) {
      assert Refers(s.heap, o, r);
    }
  }

  /** The cursor is at a place in list l, or the sweep of l is over. */
  ghost predicate InList(s: State, p: Cursor, l: ListName) {
    p != NoCursor ==> PlaceOf(s, p).At? && PlaceOf(s, p).list == l
  }

  /** One round of the loop visits the next object, and frees it if and only if it is dead. */
  ghost predicate Round(s: State, p: Cursor, t: State, r: Cursor, l: ListName)
    requires Todo(s, p) != []
  {
    var o := Todo(s, p)[0];
    && Listed(t) && Sweeps(s, t) && InList(t, r, l) && r != NoCursor && Todo(t, r) == Todo(s, p)[1..]
    && (if IsDead(s, o) then o !in t.heap.objs && r == p && Count(t) < Count(s) && t.color == s.color - {o}
        else t.color == s.color[o := White(s.white)] && t.heap == s.heap && r != p && Count(t) == Count(s))
    && (forall k :: k != l ==> ListOf(t, k) == ListOf(s, k))
  }

  /** Freeing a dead object of 'allgc'. */
  lemma FreeListed(s: State, t: State, i: nat)
    requires Listed(s) && i < |s.allgc|
    requires t == Free(s.(allgc := s.allgc[..i] + s.allgc[i + 1..]), s.allgc[i])
    ensures Listed(t)
  {
    var q := s.allgc;
    var o := q[i];
    assert q == q[..i] + [o] + q[i + 1..];
    assert multiset(q) == multiset(t.allgc) + multiset{o};
    ListedOnce(s);
    assert o in q;
    assert t.heap.objs.Keys == s.heap.objs.Keys - {o};
    assert multiset(t.heap.objs.Keys) + multiset{o} == multiset(s.heap.objs.Keys);
    assert AllObjects(t) + multiset{o} == AllObjects(s);
    Cancel(AllObjects(t), multiset(t.heap.objs.Keys), o);
  }

  lemma Cancel(a: multiset<Ref>, b: multiset<Ref>, o: Ref)
    requires a + multiset{o} == b + multiset{o}
    ensures a == b
  {
    assert a == (a + multiset{o}) - multiset{o};
    assert b == (b + multiset{o}) - multiset{o};
  }

  lemma FreeSweeps(s: State, q: seq<Ref>, o: Ref)
    requires s.color.Keys == s.heap.objs.Keys && IsDead(s, o)
    ensures Sweeps(s, Free(s.(allgc := q), o))
  {
  }

  /** The next object is dead: it leaves the list, and the cursor stays. */
  lemma SweepOneDead(s: State, p: Cursor, i: nat)
    requires Listed(s) && PlaceOf(s, p) == At(AllGc, i) && i < |s.allgc| && IsDead(s, s.allgc[i])
    ensures var (t, r) := SweepOne(s, p);
            && Listed(t) && Sweeps(s, t) && r == p && PlaceOf(t, p) == At(AllGc, i)
            && t == Free(s.(allgc := s.allgc[..i] + s.allgc[i + 1..]), s.allgc[i])
  {
    ListedOnce(s);
    FreeListed(s, SweepOne(s, p).0, i);
    FreeSweeps(s, s.allgc[..i] + s.allgc[i + 1..], s.allgc[i]);
    hide Listed, Sweeps;
    RemovedPlace(s, SweepOne(s, p).0, p, AllGc, i);
  }

  lemma WhitenSweeps(s: State, o: Ref)
    requires Listed(s) && o in s.heap.objs && !IsDead(s, o)
    ensures Listed(MakeWhite(s, o)) && Sweeps(s, MakeWhite(s, o))
  {
    assert AllObjects(MakeWhite(s, o)) == AllObjects(s);
  }

  lemma PlaceIs(s: State, l: ListName, i: nat)
    requires Listed(s) && i < |ListOf(s, l)|
    ensures PlaceOf(s, After(ListOf(s, l)[i])) == At(l, i + 1)
  {
    ListedOnce(s);
    assert ListOf(s, l)[i] in ListOf(s, l);
    IndexIs(ListOf(s, l), i);
    hide Listed;
  }

  /** The next object is not dead: it becomes white, and the cursor moves behind it. */
  lemma SweepOneLive(s: State, p: Cursor, l: ListName, i: nat)
    requires Listed(s) && PlaceOf(s, p) == At(l, i) && i < |ListOf(s, l)| && !IsDead(s, ListOf(s, l)[i])
    ensures var o := ListOf(s, l)[i];
            SweepOne(s, p) == (MakeWhite(s, o), After(o)) && Listed(MakeWhite(s, o)) && Sweeps(s, MakeWhite(s, o))
    ensures PlaceOf(MakeWhite(s, ListOf(s, l)[i]), After(ListOf(s, l)[i])) == At(l, i + 1)
    ensures p != After(ListOf(s, l)[i])
  {
    var o := ListOf(s, l)[i];
    assert o in ListOf(s, l);
    ListedOnce(s);
    WhitenSweeps(s, o);
    PlaceIs(s, l, i);
    hide Listed, Sweeps;
    assert PlaceOf(MakeWhite(s, o), After(o)) == PlaceOf(s, After(o));
  }

  lemma DeadRound(s: State, p: Cursor, t: State, i: nat)
    requires PlaceOf(s, p) == At(AllGc, i) && PlaceOf(t, p) == At(AllGc, i) && p != NoCursor
    requires i < |s.allgc| && IsDead(s, s.allgc[i])
    requires Listed(t) && Sweeps(s, t)
    requires t == Free(s.(allgc := s.allgc[..i] + s.allgc[i + 1..]), s.allgc[i])
    ensures Todo(s, p) != [] && Round(s, p, t, p, AllGc)
  {
    hide PlaceOf, Listed, Sweeps;
    assert t.allgc[i..] == s.allgc[i + 1..] == s.allgc[i..][1..];
    assert ListOf(s, AllGc) == s.allgc && ListOf(t, AllGc) == t.allgc;
    assert forall k: ListName :: k != AllGc ==> ListOf(t, k) == ListOf(s, k);
    assert Todo(s, p) == s.allgc[i..] && Todo(t, p) == t.allgc[i..] && p != NoCursor;
  }

  lemma LiveRound(s: State, p: Cursor, o: Ref, l: ListName, i: nat)
    requires PlaceOf(s, p) == At(l, i) && i < |ListOf(s, l)| && o == ListOf(s, l)[i] && !IsDead(s, o)
    requires PlaceOf(MakeWhite(s, o), After(o)) == At(l, i + 1) && p != After(o)
    requires Listed(MakeWhite(s, o)) && Sweeps(s, MakeWhite(s, o))
    ensures Todo(s, p) != [] && Round(s, p, MakeWhite(s, o), After(o), l)
  {
    hide PlaceOf, Listed, Sweeps;
    assert forall k :: ListOf(MakeWhite(s, o), k) == ListOf(s, k);
    assert ListOf(s, l)[i + 1..] == ListOf(s, l)[i..][1..];
  }

  lemma SweepOneKeeps(s: State, p: Cursor, l: ListName)
    requires Listed(s) && InList(s, p, l) && Todo(s, p) != []
    requires forall r :: IsDead(s, r) ==> r !in s.finobj && r !in s.tobefnz
    ensures var (t, r) := SweepOne(s, p); Round(s, p, t, r, l)
  {
    hide Listed, Sweeps, Round, IndexOf;
    var At(_, i) := PlaceOf(s, p);
    var o := ListOf(s, l)[i];
    assert o in ListOf(s, l);
    hide PlaceOf;
    if IsDead(s, o) {
      SweepOneDead(s, p, i);
      DeadRound(s, p, SweepOne(s, p).0, i);
    } else {
      SweepOneLive(s, p, l, i);
      LiveRound(s, p, o, l, i);
    }
  }

  lemma RemovedIndex(q: seq<Ref>, i: nat, x: Ref)
    requires 0 < i < |q| && NoDup(q) && q[i - 1] == x
    ensures var p := q[..i] + q[i + 1..]; x in p && IndexOf(p, x) == i - 1
  {
    var p := q[..i] + q[i + 1..];
    assert p[i - 1] == x;
    assert NoDup(p);
    IndexIs(p, i - 1);
  }

  /** Removing the object the cursor points at leaves the cursor where it is. */
  lemma RemovedPlace(s: State, t: State, p: Cursor, l: ListName, i: nat)
    requires PlaceOf(s, p) == At(l, i) && i < |ListOf(s, l)| && NoDup(ListOf(s, l))
    requires ListOf(t, l) == ListOf(s, l)[..i] + ListOf(s, l)[i + 1..]
    requires forall k :: k != l ==> ListOf(t, k) == ListOf(s, k)
    ensures PlaceOf(t, p) == At(l, i)
  {
    if p.After? {
      var q, q' := ListOf(s, l), ListOf(t, l);
      RemovedIndex(q, i, p.ref);
      assert forall y :: y in q' ==> y in q;
      hide NoDup, IndexOf;
      assert ListOf(t, AllGc) == t.allgc && ListOf(t, FinObj) == t.finobj && ListOf(t, ToBeFnz) == t.tobefnz;
      assert ListOf(s, AllGc) == s.allgc && ListOf(s, FinObj) == s.finobj && ListOf(s, ToBeFnz) == s.tobefnz;
    }
  }

  // ---------- The loops ----------

  /** Exactly the dead objects of done are gone, and the others of done are white. */
  ghost predicate Swept(s: State, t: State, done: seq<Ref>) {
    && (forall r :: r in t.heap.objs <==> r in s.heap.objs && !(r in done && IsDead(s, r)))
    && (forall r :: r in t.heap.objs ==>
          r in t.color && r in s.color && t.color[r] == if r in done then White(s.white) else s.color[r])
  }

  lemma SweptTransitive(s: State, t: State, u: State, d: seq<Ref>, e: seq<Ref>)
    requires Swept(s, t, d) && Swept(t, u, e) && t.white == s.white
    ensures Swept(s, u, d + e)
  {
  }

  /** Sweeping from cursor p to cursor r of list l has visited exactly the objects of done. */
  ghost predicate Stretch(s: State, p: Cursor, done: seq<Ref>, t: State, r: Cursor, l: ListName) {
    && Listed(t) && Sweeps(s, t) && InList(t, r, l)
    && Todo(s, p) == done + Todo(t, r) && Swept(s, t, done)
    && (forall k :: k != l ==> ListOf(t, k) == ListOf(s, k))
    && Count(t) <= Count(s)
  }

  lemma StretchTransitive(s: State, p: Cursor, d: seq<Ref>, t: State, r: Cursor, e: seq<Ref>, u: State, q: Cursor, l: ListName)
    requires Stretch(s, p, d, t, r, l) && Stretch(t, r, e, u, q, l) && s.color.Keys == s.heap.objs.Keys
    ensures Stretch(s, p, d + e, u, q, l)
  {
    hide Todo, InList, Listed, Count, Sweeps, Swept, ListOf;
    Domains(t);
    Domains(u);
    SameWhite(s, t);
    SweepsTransitive(s, t, u);
    SweptTransitive(s, t, u, d, e);
    assert d + (e + Todo(u, q)) == (d + e) + Todo(u, q);
  }

  lemma SameWhite(s: State, t: State)
    requires Sweeps(s, t)
    ensures t.white == s.white
  {
  }

  lemma RoundIsStretch(s: State, p: Cursor, t: State, r: Cursor, l: ListName)
    requires Todo(s, p) != [] && Round(s, p, t, r, l) && Listed(s)
    ensures Stretch(s, p, [Todo(s, p)[0]], t, r, l)
  {
    hide Todo, InList, PlaceOf, Sweeps;
    var o := Todo(s, p)[0];
    assert s.color.Keys == s.heap.objs.Keys && t.color.Keys == t.heap.objs.Keys;
    hide Listed;
    assert Swept(s, t, [o]);
    hide Swept;
  }

  /** No object waiting for its finalizer, or with one, is dead. */
  ghost predicate DeadAreOrdinary(s: State) {
    forall r :: IsDead(s, r) ==> r !in s.finobj && r !in s.tobefnz
  }

  lemma DeadBefore(s: State, t: State, x: Ref)
    requires Sweeps(s, t) && t.color.Keys == t.heap.objs.Keys && s.color.Keys == s.heap.objs.Keys && IsDead(t, x)
    ensures IsDead(s, x) && x in t.heap.objs
  {
  }

  lemma DeadOnAllGc(s: State, x: Ref)
    requires DeadAreOrdinary(s) && Listed(s) && IsDead(s, x)
    ensures x in s.allgc || x in s.fixedgc || x == s.mainthread
  {
    ListedOnce(s);
    hide Listed, NoDup;
    assert x in s.color && s.color.Keys == s.heap.objs.Keys by { Domains(s); }
  }

  lemma StretchLists(s: State, p: Cursor, done: seq<Ref>, t: State, r: Cursor, l: ListName)
    requires Stretch(s, p, done, t, r, l)
    ensures Listed(t) && Sweeps(s, t) && t.fixedgc == s.fixedgc && t.mainthread == s.mainthread
    ensures l != AllGc ==> t.allgc == s.allgc
    ensures l != FinObj ==> t.finobj == s.finobj
    ensures l != ToBeFnz ==> t.tobefnz == s.tobefnz
  {
    hide Todo, InList, Swept, Listed;
    assert ListOf(t, AllGc) == t.allgc && ListOf(t, FinObj) == t.finobj && ListOf(t, ToBeFnz) == t.tobefnz;
    assert ListOf(s, AllGc) == s.allgc && ListOf(s, FinObj) == s.finobj && ListOf(s, ToBeFnz) == s.tobefnz;
  }

  lemma DeadStayOrdinary(s: State, p: Cursor, done: seq<Ref>, t: State, r: Cursor, l: ListName)
    requires DeadAreOrdinary(s) && Stretch(s, p, done, t, r, l) && Listed(s)
    ensures DeadAreOrdinary(t)
  {
    StretchLists(s, p, done, t, r, l);
    Domains(s);
    Domains(t);
    ListedOnce(t);
    hide Stretch, Listed, NoDup, Sweeps;
    forall x | IsDead(t, x) ensures x !in t.finobj && x !in t.tobefnz {
      DeadBefore(s, t, x);
      DeadOnAllGc(s, x);
    }
  }

  /** sweeplist visits the first count objects, in order, and no others. */
  lemma {:induction false} SweepListKeeps(s: State, p: Cursor, l: ListName, count: nat) returns (done: seq<Ref>)
    requires Listed(s) && InList(s, p, l) && DeadAreOrdinary(s)
    ensures var (t, r) := SweepList(s, p, count);
            && Stretch(s, p, done, t, r, l) && DeadAreOrdinary(t) && (r == NoCursor <==> Todo(t, r) == [])
    ensures |done| == if count <= |Todo(s, p)| then count else |Todo(s, p)|
    decreases count
  {
    hide Todo, InList, DeadAreOrdinary, Listed, Sweeps, Swept, PlaceOf, Round;
    if Todo(s, p) == [] {
      done := [];
      StretchOver(s, p, l);
    } else if count == 0 {
      done := [];
      StretchReflexive(s, p, l);
      NoCursorNothing(s);
    } else {
      var (t, r) := SweepOne(s, p);
      RoundKeeps(s, p, l);
      done := SweepListKeeps(t, r, l, count - 1);
      var (u, q) := SweepList(t, r, count - 1);
      Domains(s);
      StretchTransitive(s, p, [Todo(s, p)[0]], t, r, done, u, q, l);
      done := [Todo(s, p)[0]] + done;
    }
  }

  lemma Domains(s: State)
    requires Listed(s)
    ensures s.color.Keys == s.heap.objs.Keys
  {
  }

  lemma NoCursorNothing(s: State)
    ensures Todo(s, NoCursor) == []
  {
  }

  lemma StretchReflexive(s: State, p: Cursor, l: ListName)
    requires Listed(s) && InList(s, p, l)
    ensures Stretch(s, p, [], s, p, l)
  {
  }

  lemma StretchOver(s: State, p: Cursor, l: ListName)
    requires Listed(s) && InList(s, p, l) && Todo(s, p) == []
    ensures Stretch(s, p, [], s, NoCursor, l) && Todo(s, NoCursor) == []
  {
  }

  lemma RoundKeeps(s: State, p: Cursor, l: ListName)
    requires Listed(s) && InList(s, p, l) && DeadAreOrdinary(s) && Todo(s, p) != []
    ensures var (t, r) := SweepOne(s, p);
            && Stretch(s, p, [Todo(s, p)[0]], t, r, l) && DeadAreOrdinary(t) && r != NoCursor
            && (if IsDead(s, Todo(s, p)[0]) then r == p && Count(t) < Count(s) else r != p)
  {
    hide Todo, InList, PlaceOf;
    SweepOneKeeps(s, p, l);
    var (t, r) := SweepOne(s, p);
    hide SweepOne;
    RoundIsStretch(s, p, t, r, l);
    DeadStayOrdinary(s, p, [Todo(s, p)[0]], t, r, l);
    hide Listed, Sweeps, Swept, Count;
  }

  /** sweeptolive stops at the first live object: the cursor it returns has moved, or is null. */
  lemma {:induction false} SweepToLiveKeeps(s: State, p: Cursor, l: ListName) returns (done: seq<Ref>)
    requires Listed(s) && InList(s, p, l) && DeadAreOrdinary(s)
    ensures var (t, r) := SweepToLive(s, p);
            && Stretch(s, p, done, t, r, l) && DeadAreOrdinary(t)
            && (r == NoCursor || (r.After? && r != p && r.ref in done))
    decreases Count(s)
  {
    hide Todo, InList, DeadAreOrdinary, Listed, Sweeps, Swept, PlaceOf, Round, Count;
    var (t, r) := SweepList(s, p, 1);
    if Todo(s, p) == [] {
      done := [];
      StretchOver(s, p, l);
      NoCursorNothing(s);
    } else {
      var o := Todo(s, p)[0];
      var (t1, r1) := SweepOne(s, p);
      RoundKeeps(s, p, l);
      done := [o];
      if Todo(t1, r1) == [] {
        StretchOver(t1, r1, l);
        Domains(s);
        StretchTransitive(s, p, [o], t1, r1, [], t1, NoCursor, l);
        assert [o] + [] == [o];
        NoCursorIsNot(p, s);
      } else if IsDead(s, o) {
        done := SweepToLiveKeeps(t1, p, l);
        var (u, q) := SweepToLive(t1, p);
        Domains(s);
        StretchTransitive(s, p, [o], t1, p, done, u, q, l);
        done := [o] + done;
      } else {
        LiveCursor(s, p);
      }
    }
  }

  lemma NoCursorIsNot(p: Cursor, s: State)
    requires Todo(s, p) != []
    ensures p != NoCursor
  {
  }

  lemma LiveCursor(s: State, p: Cursor)
    requires Todo(s, p) != [] && !IsDead(s, Todo(s, p)[0])
    ensures SweepOne(s, p).1 == After(Todo(s, p)[0])
  {
  }
}
