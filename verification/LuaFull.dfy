/** What a full collection starts from stays enclosed until its own cycle begins, whether finalizers are called or not
    (lgc.c:1163-1179). */
module LuaFull {
  import opened LuaObjects
  import opened LuaMark
  import opened LuaAtomicStep
  import opened LuaEvents
  import opened LuaInvariant
  import opened LuaSweepGood
  import opened LuaCollect
  import opened LuaMutator
  import opened LuaRun
  import opened LuaCycle
  import opened LuaEffects
  /** M contains the roots and the objects with finalizers, and all that its objects refer to. */
  ghost predicate Encloses(s: State, M: set<Ref>) {
    Surrounds(s, M) && ClosedUnderRefs(s.heap, M)
  }

  lemma StartsLive(s: State, N: set<Ref>)
    requires Fine(s, N)
    ensures ClosedUnderRefs(s.heap, LiveSet(s)) && forall r :: IsStart(s, r) ==> r in LiveSet(s)
  {
    LiveSetClosed(s, N);
    FinalizersIn(s, N);
    if KeepInvariant(s) {
      MarkingParts(s, N);
    } else {
      SweepParts(s, N);
    }
    assert s.color.Keys == s.heap.objs.Keys by { assert Frame(s); }
    hide Good, Frame, Surrounds, Inv, IsRoot, ClosedUnderRefs;
  }

  lemma {:induction false} ReachableLive(s: State, N: set<Ref>, r: Ref)
    requires Fine(s, N) && Reachable(s, r)
    ensures r in LiveSet(s)
  {
    StartsLive(s, N);
    var p :| IsPath(s.heap, p) && IsStart(s, p[0]) && p[|p| - 1] == r;
    hide Fine, IsStart, LiveSet;
    PathStaysIn(s.heap, p, LiveSet(s), |p| - 1);
  }

  /** What can be reached is the smallest such set. */
  lemma ReachableEncloses(s: State, N: set<Ref>)
    requires Fine(s, N)
    ensures Encloses(s, ReachableSet(s))
  {
    var K := ReachableSet(s);
    StartsLive(s, N);
    hide Fine, IsStart, Reachable, Refers, LiveSet, Closed;
    forall r | Reachable(s, r) ensures r in K {
      ReachableLive(s, N, r);
      LiveThere(s, r);
    }
    forall o, r | o in K && Refers(s.heap, o, r) ensures r in K {
      ReachableNext(s, o, r);
    }
    ClosedFollows(s.heap, K);
    StartsIn(s, K);
  }

  lemma LiveThere(s: State, r: Ref)
    requires r in LiveSet(s)
    ensures r in s.heap.objs
  {
  }

  lemma StartsIn(s: State, K: set<Ref>)
    requires forall r :: Reachable(s, r) ==> r in K
    ensures forall r :: IsRoot(s, r) || r in s.finobj ==> r in K
  {
    hide IsRoot, Reachable;
    forall r | IsRoot(s, r) || r in s.finobj ensures r in K {
      StartReachable(s, r);
    }
  }

  lemma CallEncloses(s: State, N: set<Ref>, M: set<Ref>)
    requires Fine(s, N) && s.tobefnz != [] && Encloses(s, M)
    ensures Encloses(CallFinalizer(s), M)
  {
    var t := CallFinalizer(s);
    var o := s.tobefnz[0];
    CallDoes(s, N);
    assert IsRoot(s, o) && o in M;
    hide *;
    PushedRefs(s, t, o, M);
    ClosedFollows(t.heap, M);
    FewerRoots(s, t, M);
  }

  lemma PushedRefs(s: State, t: State, o: Ref, M: set<Ref>)
    requires Pushes(s, s.heap, t.heap, o) && Encloses(s, M) && o in M
    ensures ClosedUnderRefs(t.heap, M)
  {
    hide Surrounds;
    forall p, r | p in M && Refers(t.heap, p, r) ensures r in M {
      assert p in s.heap.objs;
      if r != o {
        assert Refers(s.heap, p, r);
      }
    }
  }

  lemma FewerRoots(s: State, t: State, M: set<Ref>)
    requires Encloses(s, M) && Closed(t.heap, M) && ClosedUnderRefs(t.heap, M) && s.tobefnz != []
    requires t == s.(heap := t.heap, color := t.color, tobefnz := s.tobefnz[1..], allgc := t.allgc,
                     finalizable := t.finalizable)
    ensures Encloses(t, M)
  {
    hide ClosedUnderRefs, Closed;
    assert RootValues(t) == RootValues(s);
    assert forall r :: IsRoot(t, r) ==> IsRoot(s, r);
    hide IsRoot, RootValues;
  }

  /** A step outside the marking phases lets no reference out of M. */
  lemma StepEncloses(s: State, max: nat, emergency: bool, N: set<Ref>, M: set<Ref>)
    requires Fine(s, N) && !KeepInvariant(s) && !s.phase.Pause? && Encloses(s, M)
    ensures Encloses(SingleStep(s, max, emergency), M)
  {
    StepIs(s, max, emergency);
    StepIs(s, max, true);
    assert !s.phase.InsideAtomic? && Good(s, N);
    hide Fine, Good, Encloses, SingleStep, CallFinalizer;
    if s.phase.CallFin? && s.tobefnz != [] && !emergency {
      CallEncloses(s, N, M);
    } else {
      IdleSurrounds(s, max, N);
      EnclosedRefs(s, SingleStep(s, max, true), max, N, M);
    }
  }

  lemma EnclosedRefs(s: State, t: State, max: nat, N: set<Ref>, M: set<Ref>)
    requires Fine(s, N) && !KeepInvariant(s) && !s.phase.Pause? && Encloses(s, M)
    requires t == SingleStep(s, max, true) && Surrounds(t, M)
    ensures Encloses(t, M)
  {
    StepIs(s, max, true);
    assert !s.phase.InsideAtomic? && Good(s, N);
    if InSweepLists(s) {
      hide *;
      SweepRefs(s, max, N);
      ClosedPart(s, M);
      RefsStayIn(s.heap, t.heap, M);
      BothParts(t, M);
    } else {
      assert t.heap == s.heap;
      hide *;
      ClosedPart(s, M);
      BothParts(t, M);
    }
  }

  lemma ClosedPart(s: State, M: set<Ref>)
    requires Encloses(s, M)
    ensures ClosedUnderRefs(s.heap, M) && Surrounds(s, M)
  {
    hide ClosedUnderRefs, Surrounds;
  }

  lemma BothParts(s: State, M: set<Ref>)
    requires ClosedUnderRefs(s.heap, M) && Surrounds(s, M)
    ensures Encloses(s, M)
  {
    hide ClosedUnderRefs, Surrounds;
  }

  lemma AbandonEncloses(s: State, N: set<Ref>, M: set<Ref>)
    requires Fine(s, N) && KeepInvariant(s) && Encloses(s, M)
    ensures Encloses(AbandonMarking(s), M)
  {
    assert AbandonMarking(s) == EnterSweep(s);
    hide *;
    ClosedPart(s, M);
    AbandonSurrounds(s, N, M);
    WidenGood(s, N);
    AllIn(s, N + s.heap.objs.Keys);
    AbandonRefs(s, N + s.heap.objs.Keys);
    RefsStayIn(s.heap, EnterSweep(s).heap, M);
    BothParts(AbandonMarking(s), M);
  }

  lemma AllIn(s: State, M: set<Ref>)
    requires Fine(s, M)
    ensures Good(s, M)
  {
    hide Good, ClosedUnderRefs;
  }

  /** In a pause the invariant holds for every set that encloses the program's data. */
  lemma PauseEncloses(s: State, N: set<Ref>, M: set<Ref>)
    requires Fine(s, N) && s.phase.Pause? && Encloses(s, M)
    ensures Fine(s, M)
  {
    hide Good, Surrounds, ClosedUnderRefs;
    PauseAnySet(s, M, N);
  }

  /** No step allocates. */
  lemma StepShrinks(s: State, max: nat, emergency: bool, N: set<Ref>)
    requires Fine(s, N) && s.phase.CallFin?
    ensures SingleStep(s, max, emergency).heap.objs.Keys <= s.heap.objs.Keys
    ensures SingleStep(s, max, emergency).phase.Pause? ==> emergency || s.tobefnz == []
    ensures SingleStep(s, max, emergency).phase.Pause? ==> SingleStep(s, max, emergency).tobefnz == s.tobefnz
    ensures SingleStep(s, max, emergency).phase.Pause? || SingleStep(s, max, emergency).phase.CallFin?
  {
    StepIs(s, max, emergency);
    if s.tobefnz != [] && !emergency {
      CallDoes(s, N);
      assert s.running in s.heap.objs;
      hide Fine, SingleStep, CallFinalizer;
    }
  }
}
