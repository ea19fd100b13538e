/** optimizejumps: a jump to a jump goes where that one goes (lpeg.c:904-916). */
module LpegJumps {
  import opened Basics
  import opened LpegMachine
  import opened LpegSemantics
  import opened LpegCorrect
  import opened LpegSplit
  import opened LpegVerify
  /** target: the end of a chain of jumps. A jump backwards does not lead to another jump (see Fits). */
  function Target(code: seq<Instr>, i: int): (t: int)
    decreases |code| - i
  {
    if 0 <= i < |code| && code[i].IJmp? then
      if code[i].off > 0 then Target(code, i + code[i].off) else i + code[i].off
    else i
  }

  function Retargeted(code: seq<Instr>, k: nat): Instr
    requires k < |code|
  {
    if IsJump(code[k]) then WithOff(code[k], Target(code, k + code[k].off) - k) else code[k]
  }

  function OptJumps(code: seq<Instr>): (r: seq<Instr>)
    ensures |r| == |code|
  {
    seq(|code|, k requires 0 <= k < |code| => Retargeted(code, k))
  }

  /** A chain of jumps stays in the code, goes forward unless it starts with a jump backwards, and ends at no jump. */
  lemma {:induction false} TargetInside(code: seq<Instr>, i: int)
    requires Shaped(code) && 0 <= i <= |code|
    ensures var t := Target(code, i);
            && 0 <= t <= |code| && (t < |code| ==> !code[t].IJmp?) && (t == 0 && i > 0 ==> !IsCheck(code[0]))
            && (i == |code| || !IsBackJmp(code[i]) ==> i <= t)
    decreases |code| - i
  {
    if i < |code| && code[i].IJmp? {
      assert Fits(code, i);
      if code[i].off > 0 {
        TargetInside(code, i + code[i].off);
      }
    }
  }

  // ---------- The machine runs the same ----------

  /** The configuration with every place in the code followed to the end of its chain. */
  function Norm(code: seq<Instr>, c: Config): Config {
    match c
    case Run(pc, pos, stk) => Run(Target(code, pc), pos, NormStack(code, stk))
    case Failing(stk) => Failing(NormStack(code, stk))
    case Stuck => Stuck
  }

  function NormStack(code: seq<Instr>, stk: seq<Entry>): seq<Entry> {
    seq(|stk|, i requires 0 <= i < |stk| => Entry(Target(code, stk[i].pc), stk[i].pos))
  }

  lemma NormParts(code: seq<Instr>, stk: seq<Entry>)
    ensures stk != [] ==>
              && NormStack(code, stk)[0] == Entry(Target(code, stk[0].pc), stk[0].pos)
              && NormStack(code, stk)[1..] == NormStack(code, stk[1..])
    ensures stk == [] <==> NormStack(code, stk) == []
  {
  }

  lemma NormPush(code: seq<Instr>, e: Entry, stk: seq<Entry>)
    ensures NormStack(code, [e] + stk) == [Entry(Target(code, e.pc), e.pos)] + NormStack(code, stk)
  {
  }

  /** From the next instruction the optimized code reaches the end of its chain, in one step at most. */
  lemma ChainStep(code: seq<Instr>, s: seq<Byte>, pc: int, pos: int, stk: seq<Entry>)
    requires Shaped(code) && 0 <= pc <= |code|
    ensures Reaches(OptJumps(code), s, Run(pc, pos, stk), Run(Target(code, pc), pos, stk))
  {
    var c := Run(pc, pos, stk);
    if pc < |code| && code[pc].IJmp? {
      assert Fits(code, pc);
      if code[pc].off <= 0 {
        assert Target(code, pc + code[pc].off) == pc + code[pc].off;
      }
      OneStep(OptJumps(code), s, c, Run(Target(code, pc), pos, stk));
    } else {
      ReachesRefl(OptJumps(code), s, c);
    }
  }

  lemma SameCheck(code: seq<Instr>, s: seq<Byte>, pc: int, pos: int, stk: seq<Entry>)
    requires Shaped(code) && 0 <= pc < |code| && IsFixCheckOp(code[pc])
    ensures var d := StepCheck(code[pc], s, pc, pos, stk);
            var p := Retargeted(code, pc);
            && IsFixCheckOp(p)
            && var f := StepCheck(p, s, pc, pos, NormStack(code, stk));
               f == Norm(code, d) || (d.Run? && d.pc == pc + 1 && f == Run(pc + 1, d.pos, NormStack(code, d.stk)))
  {
    TestKept(code, pc);
    hide NormStack, Passes, Target, Shaped;
  }

  lemma SamePush(code: seq<Instr>, s: seq<Byte>, pc: int, pos: int, stk: seq<Entry>)
    requires 0 <= pc < |code| && (code[pc].IChoice? || code[pc].IPartialCommit?)
    requires StepAt(code[pc], s, pc, pos, stk) != Stuck
    ensures var d := StepAt(code[pc], s, pc, pos, stk);
            var f := StepAt(Retargeted(code, pc), s, pc, pos, NormStack(code, stk));
            f == Norm(code, d) || (d.Run? && d.pc == pc + 1 && f == Run(pc + 1, d.pos, NormStack(code, d.stk)))
  {
    NormParts(code, stk);
    if code[pc].IChoice? {
      NormPush(code, Entry(pc + code[pc].off, pos - code[pc].aux), stk);
    } else {
      NormPush(code, Entry(stk[0].pc, pos), stk[1..]);
    }
    hide NormStack, Target;
  }

  lemma SameOther(code: seq<Instr>, s: seq<Byte>, pc: int, pos: int, stk: seq<Entry>)
    requires 0 <= pc < |code| && !code[pc].IJmp? && !IsFixCheckOp(code[pc])
    requires StepAt(code[pc], s, pc, pos, stk) != Stuck
    ensures var d := StepAt(code[pc], s, pc, pos, stk);
            var f := StepAt(Retargeted(code, pc), s, pc, pos, NormStack(code, stk));
            f == Norm(code, d) || (d.Run? && d.pc == pc + 1 && f == Run(pc + 1, d.pos, NormStack(code, d.stk)))
  {
    if code[pc].IChoice? || code[pc].IPartialCommit? {
      SamePush(code, s, pc, pos, stk);
      hide StepAt, Retargeted, Norm;
    } else {
      NormParts(code, stk);
      hide NormStack, SpanEnd, Target, StepCheck;
    }
  }

  /** What an instruction that is no plain jump does in the optimized code: the same, but for where it jumps. */
  lemma SameEffect(code: seq<Instr>, s: seq<Byte>, pc: int, pos: int, stk: seq<Entry>)
    requires Shaped(code) && 0 <= pc < |code| && !code[pc].IJmp?
    requires StepAt(code[pc], s, pc, pos, stk) != Stuck
    ensures var d := StepAt(code[pc], s, pc, pos, stk);
            var f := StepAt(Retargeted(code, pc), s, pc, pos, NormStack(code, stk));
            f == Norm(code, d) || (d.Run? && d.pc == pc + 1 && f == Run(pc + 1, d.pos, NormStack(code, d.stk)))
  {
    hide StepCheck, Retargeted, Norm, Shaped, NormStack;
    if IsFixCheckOp(code[pc]) {
      SameCheck(code, s, pc, pos, stk);
    } else {
      SameOther(code, s, pc, pos, stk);
    }
  }

  lemma TestKept(code: seq<Instr>, k: nat)
    requires Shaped(code) && k < |code|
    ensures IsFixCheckOp(code[k]) ==>
              && IsFixCheckOp(Retargeted(code, k)) && (Retargeted(code, k).off == 0 <==> code[k].off == 0)
              && Retargeted(code, k).off >= 0 && OpStep(Retargeted(code, k)) == OpStep(code[k])
              && forall s: seq<Byte>, i: int :: Passes(Retargeted(code, k), s, i) == Passes(code[k], s, i)
  {
    assert Fits(code, k);
    if IsTest(code[k]) {
      TargetInside(code, k + code[k].off);
    }
  }

  lemma NormStep(code: seq<Instr>, s: seq<Byte>, c: Config)
    requires Shaped(code) && Step(code, s, c) != Stuck
    ensures Reaches(OptJumps(code), s, Norm(code, c), Norm(code, Step(code, s, c)))
  {
    var P := OptJumps(code);
    var d := Step(code, s, c);
    if c.Failing? {
      NormParts(code, c.stk);
      OneStep(P, s, Norm(code, c), Norm(code, d));
    } else if code[c.pc].IJmp? {
      assert Fits(code, c.pc);
      assert Target(code, c.pc) == Target(code, d.pc);
      ReachesRefl(P, s, Norm(code, c));
    } else {
      SameEffect(code, s, c.pc, c.pos, c.stk);
      var f := StepAt(Retargeted(code, c.pc), s, c.pc, c.pos, NormStack(code, c.stk));
      assert P[c.pc] == Retargeted(code, c.pc);
      hide StepAt, NormStack, OptJumps;
      OneStep(P, s, Norm(code, c), f);
      if f != Norm(code, d) {
        ChainStep(code, s, c.pc + 1, d.pos, NormStack(code, d.stk));
        ReachesTrans(P, s, Norm(code, c), f, Norm(code, d));
      }
    }
  }

  lemma {:induction false} NormExec(code: seq<Instr>, s: seq<Byte>, c: Config, n: nat)
    requires Shaped(code) && Exec(code, s, c, n) != Stuck
    ensures Reaches(OptJumps(code), s, Norm(code, c), Norm(code, Exec(code, s, c, n)))
    decreases n
  {
    hide Shaped, Step, Norm, Reaches;
    if n == 0 {
      ReachesRefl(OptJumps(code), s, Norm(code, c));
    } else {
      if Step(code, s, c) == Stuck {
        ExecStuck(code, s, n - 1);
      }
      NormStep(code, s, c);
      NormExec(code, s, Step(code, s, c), n - 1);
      ReachesTrans(OptJumps(code), s, Norm(code, c), Norm(code, Step(code, s, c)), Norm(code, Exec(code, s, c, n)));
    }
  }

  /** The optimized code matches the same. */
  lemma OptJumpsDoes(code: seq<Instr>, e: Peg)
    requires Implements(code, e) && Shaped(code)
    ensures Implements(OptJumps(code), e)
  {
    var P := OptJumps(code);
    forall s: seq<Byte>, i | 0 <= i <= |s| ensures Does(P, s, i, Sem(e, s, i)) {
      var r := Sem(e, s, i);
      var c := Run(0, i, []);
      ImplementsDoes(code, e, s, i);
      hide Implements, Sem;
      assert NormStack(code, []) == [];
      assert Norm(code, c) == c;
      if r.Ok? {
        var n: nat :| Exec(code, s, c, n) == Run(|code|, r.j, []);
        NormExec(code, s, c, n);
        assert Norm(code, Run(|code|, r.j, [])) == Run(|P|, r.j, []);
      } else if r.No? {
        var n: nat :| Exec(code, s, c, n) == Failing([]);
        NormExec(code, s, c, n);
      }
    }
  }

  lemma OptJumpsShaped(code: seq<Instr>)
    requires Shaped(code)
    ensures Shaped(OptJumps(code))
  {
    var P := OptJumps(code);
    forall k | 0 <= k < |P| ensures Fits(P, k) {
      OptJumpFits(code, k);
    }
    if k :| 0 <= k < |P| && P[k].IJmp? {
      assert code[k].IJmp?;
      var j :| 0 <= j < |code| && IsTest(code[j]);
      TestKept(code, j);
      HasTest(P, j);
    } else {
      NoJmps(P);
    }
  }

  lemma OptJumpFits(code: seq<Instr>, k: nat)
    requires Shaped(code) && k < |code|
    ensures Fits(OptJumps(code), k)
  {
    var P := OptJumps(code);
    assert Fits(code, k);
    TestKept(code, k);
    TestKept(code, 0);
    if IsJump(code[k]) {
      var t := k + code[k].off;
      TargetInside(code, t);
      var u := Target(code, t);
      assert u < |code| ==> !P[u].IJmp?;
      if code[k].IJmp? && code[k].off <= 0 {
        assert u == t;
      }
    }
  }

  // ---------- The walk goes the same way ----------

  function NormBack(code: seq<Instr>, back: seq<int>): seq<int> {
    seq(|back|, i requires 0 <= i < |back| => Target(code, back[i]))
  }

  function NormWalk(code: seq<Instr>, c: Walk): Walk {
    match c
    case At(pc, back) => At(Target(code, pc), NormBack(code, back))
    case Back(back) => Back(NormBack(code, back))
    case _ => c
  }

  lemma NormBackParts(code: seq<Instr>, back: seq<int>)
    ensures back != [] ==>
              NormBack(code, back)[0] == Target(code, back[0]) && NormBack(code, back)[1..] == NormBack(code, back[1..])
    ensures |NormBack(code, back)| == |back|
  {
  }

  lemma NormBackPush(code: seq<Instr>, x: int, back: seq<int>)
    ensures NormBack(code, [x] + back) == [Target(code, x)] + NormBack(code, back)
  {
  }

  predicate Inside(code: seq<Instr>, c: Walk) {
    (c.At? ==> 0 <= c.pc <= |code|) && ((c.At? || c.Back?) ==> forall x :: x in c.back ==> 0 <= x <= |code|)
  }

  lemma InsideStep(code: seq<Instr>, c: Walk)
    requires Shaped(code) && Inside(code, c)
    ensures Inside(code, FreeStep(code, c))
  {
    if c.At? && 0 <= c.pc < |code| {
      assert Fits(code, c.pc);
      assert forall x :: c.back != [] && x in c.back[1..] ==> x in c.back;
    } else if c.Back? && c.back != [] {
      assert c.back[0] in c.back;
      assert forall x :: x in c.back[1..] ==> x in c.back;
    }
  }

  /** From any place in the code the walk comes to the end of the chain there. */
  lemma ChainWalk(code: seq<Instr>, pc: int, back: seq<int>, h: nat)
    requires Shaped(code) && 0 <= pc <= |code| && |back| <= h
    ensures Comes(OptJumps(code), At(pc, back), At(Target(code, pc), back), h)
  {
    var c := At(pc, back);
    if pc < |code| && code[pc].IJmp? {
      assert Fits(code, pc);
      if code[pc].off <= 0 {
        assert Target(code, pc + code[pc].off) == pc + code[pc].off;
      }
      ComesStep(OptJumps(code), c, At(Target(code, pc), back), h);
    } else {
      ComesRefl(OptJumps(code), c, h);
    }
  }

  lemma SameKind(code: seq<Instr>, k: int)
    requires Shaped(code) && 0 <= k < |code|
    ensures var p := OptJumps(code)[k];
            && p.IBack? == code[k].IBack? && p.IBackCommit? == code[k].IBackCommit? && p.IChoice? == code[k].IChoice?
            && IsFixCheckOp(p) == IsFixCheckOp(code[k]) && IsTest(p) == IsTest(code[k])
  {
    TestKept(code, k);
  }

  lemma NormHeight(code: seq<Instr>, c: Walk)
    ensures Height(NormWalk(code, c)) == Height(c)
  {
  }

  /** The next step in the optimized code: to the same place, or to one whose chain ends there. */
  lemma NormWalkStep(code: seq<Instr>, c: Walk, h: nat)
    requires Shaped(code) && Inside(code, c) && !FreeStep(code, c).Lost? && Height(c) <= h && Height(FreeStep(code, c)) <= h
    ensures Comes(OptJumps(code), NormWalk(code, c), NormWalk(code, FreeStep(code, c)), h)
  {
    var P := OptJumps(code);
    var d := FreeStep(code, c);
    InsideStep(code, c);
    NormHeight(code, c);
    NormHeight(code, d);
    if c.Back? {
      NormBackParts(code, c.back);
      ComesStep(P, NormWalk(code, c), NormWalk(code, d), h);
    } else if code[c.pc].IJmp? {
      assert Fits(code, c.pc);
      assert Target(code, c.pc) == Target(code, d.pc);
      ComesRefl(P, NormWalk(code, c), h);
    } else {
      var f := FreeStep(P, NormWalk(code, c));
      NormWalkAt(code, c);
      if f != NormWalk(code, d) {
        assert |f.back| <= h by { NormBackParts(code, d.back); }
        hide FreeStep, OptJumps, NormBack;
        ChainWalk(code, d.pc, f.back, h);
        ComesThen(P, NormWalk(code, c), f, NormWalk(code, d), h);
      } else {
        hide FreeStep, OptJumps;
        ComesStep(P, NormWalk(code, c), NormWalk(code, d), h);
      }
    }
  }

  lemma NormWalkAt(code: seq<Instr>, c: Walk)
    requires Shaped(code) && Inside(code, c) && c.At? && c.pc < |code| && !code[c.pc].IJmp?
    requires !FreeStep(code, c).Lost?
    ensures var d := FreeStep(code, c); var f := FreeStep(OptJumps(code), NormWalk(code, c));
            f == NormWalk(code, d) || (d.At? && f == At(d.pc, NormBack(code, d.back)))
  {
    var P := OptJumps(code);
    assert Target(code, c.pc) == c.pc;
    SameKind(code, c.pc);
    if c.pc + 1 < |code| { SameKind(code, c.pc + 1); }
    if c.pc > 0 { SameKind(code, c.pc - 1); }
    assert Fits(code, c.pc);
    TestKept(code, c.pc);
    NormBackParts(code, c.back);
    hide NormBack, Shaped;
    if code[c.pc].IChoice? {
      NormBackPush(code, c.pc + code[c.pc].off, c.back);
    } else if code[c.pc].IPartialCommit? {
      PartialKept(code, c.pc);
    }
  }

  lemma PartialKept(code: seq<Instr>, k: int)
    requires Shaped(code) && 0 <= k < |code| && code[k].IPartialCommit?
    ensures OptJumps(code)[k].IPartialCommit? && (OptJumps(code)[k].off > 0 <==> code[k].off > 0)
    ensures k + OptJumps(code)[k].off == Target(code, k + code[k].off)
  {
    assert Fits(code, k);
    TargetInside(code, k + code[k].off);
  }

  lemma {:induction false} NormWalkExec(code: seq<Instr>, c: Walk, n: nat, h: nat)
    requires Shaped(code) && Inside(code, c) && !FreeExec(code, c, n).Lost? && Low(code, c, n, h)
    ensures Comes(OptJumps(code), NormWalk(code, c), NormWalk(code, FreeExec(code, c, n)), h)
    decreases n
  {
    assert FreeExec(code, c, 0) == c && Height(c) <= h;
    hide Shaped, FreeStep, NormWalk, Comes, Inside, OptJumps, Height;
    if n == 0 {
      NormHeight(code, c);
      ComesRefl(OptJumps(code), NormWalk(code, c), h);
    } else {
      var d := FreeStep(code, c);
      if d.Lost? { FreeLost(code, n - 1); }
      LowNext(code, c, n, h);
      InsideStep(code, c);
      NormWalkStep(code, c, h);
      NormWalkExec(code, d, n - 1, h);
      ComesTrans(OptJumps(code), NormWalk(code, c), NormWalk(code, d), NormWalk(code, FreeExec(code, c, n)), h);
    }
  }

  lemma LowNext(code: seq<Instr>, c: Walk, n: nat, h: nat)
    requires n > 0 && Low(code, c, n, h)
    ensures Low(code, FreeStep(code, c), n - 1, h) && Height(FreeStep(code, c)) <= h
  {
    hide Height;
    forall k: nat | k <= n - 1 ensures Height(FreeExec(code, FreeStep(code, c), k)) <= h {
      assert FreeExec(code, c, k + 1) == FreeExec(code, FreeStep(code, c), k);
    }
    assert FreeExec(code, FreeStep(code, c), 0) == FreeStep(code, c);
  }

  lemma OptWalkDoes(code: seq<Instr>, v: bool, h: nat)
    requires Shaped(code) && WalkDoes(code, v, h)
    ensures WalkDoes(OptJumps(code), v, h)
  {
    var c := At(0, []);
    var d := if v then At(|code|, []) else Back([]);
    assert NormBack(code, []) == [];
    assert NormWalk(code, c) == c && NormWalk(code, d) == d;
    var n: nat :| FreeExec(code, c, n) == d && Low(code, c, n, h);
    NormWalkExec(code, c, n, h);
  }

  lemma LowSome(code: seq<Instr>, c: Walk, n: nat) returns (h: nat)
    ensures Low(code, c, n, h)
  {
    h := 0;
    for k := 0 to n + 1
      invariant forall j: nat :: j < k ==> Height(FreeExec(code, c, j)) <= h
    {
      if Height(FreeExec(code, c, k)) > h { h := Height(FreeExec(code, c, k)); }
    }
  }

  lemma OptUnsure(code: seq<Instr>)
    requires Shaped(code) && Unsure(code, At(0, []))
    ensures Unsure(OptJumps(code), At(0, []))
  {
    var P := OptJumps(code);
    var c := At(0, []);
    assert NormBack(code, []) == [];
    assert NormWalk(code, c) == c;
    var n: nat :| AtBlindSpot(code, FreeExec(code, c, n));
    var d := FreeExec(code, c, n);
    var h := LowSome(code, c, n);
    NormWalkExec(code, c, n, h);
    SameKind(code, d.pc);
    if d.pc + 1 < |code| { SameKind(code, d.pc + 1); }
    if d.pc + 2 < |code| { SameKind(code, d.pc + 2); }
    assert AtBlindSpot(P, FreeExec(P, NormWalk(code, d), 0));
    UnsureLater(P, c, NormWalk(code, d), h);
  }

  lemma OptJumpsChecked(code: seq<Instr>, e: Peg)
    requires Shaped(code) && Checked(code, e)
    ensures Checked(OptJumps(code), e)
  {
    var P := OptJumps(code);
    OptEdges(code);
    var v, h := TakeWalk(code, e);
    OptWalkDoes(code, v, h);
    if Unsure(code, At(0, [])) { OptUnsure(code); }
    hide WalkDoes, Advances, Unsure;
    assert Tells(P, v, h, e);
  }

  lemma OptEdges(code: seq<Instr>)
    requires Shaped(code)
    ensures var P := OptJumps(code);
            |P| == |code| && IsBackAt(P, 0) == IsBackAt(code, 0)
            && (code != [] ==> P[|P| - 1].IBackCommit? == code[|code| - 1].IBackCommit?)
  {
    if code != [] {
      SameKind(code, 0);
      SameKind(code, |code| - 1);
    }
  }
}
