/** The parsing machine: its instructions, its steps, and running a piece of code inside a larger one (lpeg.c:93-172,
    440-636). A charset is part of its instruction, so every instruction takes one cell. */
module LpegMachine {
  import opened Basics

  /** The instructions without captures, calls and functions. 'off' is the jump offset of a check that has become a
      test, or of a jump; it is 0 in a plain check. */
  datatype Instr =
    | IAny(n: nat, off: int) | IChar(c: Byte, off: int) | ISet(cs: set<Byte>, off: int)
    | ISpan(cs: set<Byte>) | IBack(n: nat)
    | IChoice(off: int, aux: nat) | IJmp(off: int)
    | ICommit(off: int) | IPartialCommit(off: int) | IBackCommit(off: int)
    | IFailTwice | IFail

  /** A backtrack entry: where to go on, and from which position. */
  datatype Entry = Entry(pc: int, pos: int)

  /** Failing is the label 'fail'. A machine is stuck where the C machine would leave its code or its stack. */
  datatype Config = Run(pc: int, pos: int, stk: seq<Entry>) | Failing(stk: seq<Entry>) | Stuck

  predicate IsFixCheckOp(p: Instr) {
    p.IAny? || p.IChar? || p.ISet?
  }

  /** ischeck and isfixcheck: only a function could tell them apart. */
  predicate IsCheck(p: Instr) {
    IsFixCheckOp(p) && p.off == 0
  }

  predicate IsTest(p: Instr) {
    IsFixCheckOp(p) && p.off != 0
  }

  /** isnofail */
  predicate IsNoFail(p: Instr) {
    p.ISpan? || p.IJmp?
  }

  /** isjmp: the instruction can jump. */
  predicate IsJump(p: Instr) {
    p.IChoice? || p.IJmp? || p.ICommit? || p.IPartialCommit? || p.IBackCommit? || IsTest(p)
  }

  function WithOff(p: Instr, off: int): Instr {
    match p
    case IAny(n, _) => IAny(n, off)
    case IChar(c, _) => IChar(c, off)
    case ISet(cs, _) => ISet(cs, off)
    case IChoice(_, aux) => IChoice(off, aux)
    case IJmp(_) => IJmp(off)
    case ICommit(_) => ICommit(off)
    case IPartialCommit(_) => IPartialCommit(off)
    case IBackCommit(_) => IBackCommit(off)
    case _ => p
  }

  /** op_step: how many characters a check consumes. */
  function OpStep(p: Instr): nat {
    if p.IAny? then p.n else 1
  }

  /** The check succeeds at this position. */
  predicate Passes(p: Instr, s: seq<Byte>, i: int)
    requires IsFixCheckOp(p)
  {
    match p
    case IAny(n, _) => n <= |s| - i
    case IChar(c, _) => 0 <= i < |s| && s[i] == c
    case ISet(cs, _) => 0 <= i < |s| && s[i] in cs
  }

  function SpanEnd(s: seq<Byte>, i: int, cs: set<Byte>): (j: int)
    ensures i <= j && (0 <= i <= |s| ==> j <= |s|)
    decreases |s| - i
  {
    if 0 <= i < |s| && s[i] in cs then SpanEnd(s, i + 1, cs) else i
  }

  /** A check that succeeds consumes; one that fails jumps if it is a test, and fails otherwise. */
  function StepCheck(p: Instr, s: seq<Byte>, pc: int, pos: int, stk: seq<Entry>): Config
    requires IsFixCheckOp(p)
  {
    if Passes(p, s, pos) then Run(pc + 1, pos + OpStep(p), stk)
    else if p.off != 0 then Run(pc + p.off, pos, stk)
    else Failing(stk)
  }

  /** The effect of an instruction. */
  function StepAt(p: Instr, s: seq<Byte>, pc: int, pos: int, stk: seq<Entry>): Config {
    if IsFixCheckOp(p) then StepCheck(p, s, pc, pos, stk)
    else
      match p
      case ISpan(cs) => Run(pc + 1, SpanEnd(s, pos, cs), stk)
      case IBack(n) => if n > pos then Failing(stk) else Run(pc + 1, pos - n, stk)
      case IChoice(off, aux) => Run(pc + 1, pos, [Entry(pc + off, pos - aux)] + stk)
      case IJmp(off) => Run(pc + off, pos, stk)
      case ICommit(off) => if stk == [] then Stuck else Run(pc + off, pos, stk[1..])
      case IPartialCommit(off) =>
        if stk == [] then Stuck else Run(pc + off, pos, [Entry(stk[0].pc, pos)] + stk[1..])
      case IBackCommit(off) => if stk == [] then Stuck else Run(pc + off, stk[0].pos, stk[1..])
      case IFailTwice => if stk == [] then Stuck else Failing(stk[1..])
      case _ => Failing(stk)
  }

  /** One round of the loop of match. A machine that has left its code, or has nothing to backtrack to, has stopped. */
  function Step(code: seq<Instr>, s: seq<Byte>, c: Config): Config {
    match c
    case Stuck => Stuck
    case Failing(stk) => if stk == [] then Stuck else Run(stk[0].pc, stk[0].pos, stk[1..])
    case Run(pc, pos, stk) => if 0 <= pc < |code| then StepAt(code[pc], s, pc, pos, stk) else Stuck
  }

  function Exec(code: seq<Instr>, s: seq<Byte>, c: Config, n: nat): Config
    decreases n
  {
    if n == 0 then c else Exec(code, s, Step(code, s, c), n - 1)
  }

  ghost predicate Reaches(code: seq<Instr>, s: seq<Byte>, c: Config, d: Config) {
    exists n :: Exec(code, s, c, n) == d
  }

  lemma {:induction false} ExecStuck(code: seq<Instr>, s: seq<Byte>, n: nat)
    ensures Exec(code, s, Stuck, n) == Stuck
    decreases n
  {
    if n > 0 { ExecStuck(code, s, n - 1); }
  }

  lemma {:induction false} ExecMore(code: seq<Instr>, s: seq<Byte>, c: Config, n: nat, m: nat)
    ensures Exec(code, s, c, n + m) == Exec(code, s, Exec(code, s, c, n), m)
    decreases n
  {
    if n > 0 { ExecMore(code, s, Step(code, s, c), n - 1, m); }
  }

  lemma ReachesRefl(code: seq<Instr>, s: seq<Byte>, c: Config)
    ensures Reaches(code, s, c, c)
  {
    assert Exec(code, s, c, 0) == c;
  }

  lemma ReachesStep(code: seq<Instr>, s: seq<Byte>, c: Config)
    ensures Reaches(code, s, c, Step(code, s, c))
  {
    assert Exec(code, s, Step(code, s, c), 0) == Step(code, s, c);
    assert Exec(code, s, c, 1) == Step(code, s, c);
  }

  lemma ReachesTrans(code: seq<Instr>, s: seq<Byte>, c: Config, d: Config, e: Config)
    requires Reaches(code, s, c, d) && Reaches(code, s, d, e)
    ensures Reaches(code, s, c, e)
  {
    var n: nat :| Exec(code, s, c, n) == d;
    var m: nat :| Exec(code, s, d, m) == e;
    ExecMore(code, s, c, n, m);
  }

  /** A step first, and the rest afterwards. */
  lemma ReachesThen(code: seq<Instr>, s: seq<Byte>, c: Config, e: Config)
    requires Reaches(code, s, Step(code, s, c), e)
    ensures Reaches(code, s, c, e)
  {
    ReachesStep(code, s, c);
    ReachesTrans(code, s, c, Step(code, s, c), e);
  }

  /** What is reached, and is not the start, is reached through the first step. */
  lemma ReachesAfter(code: seq<Instr>, s: seq<Byte>, c: Config, e: Config)
    requires Reaches(code, s, c, e) && c != e
    ensures Reaches(code, s, Step(code, s, c), e)
  {
    var n: nat :| Exec(code, s, c, n) == e;
    assert Exec(code, s, Step(code, s, c), n - 1) == e;
  }

  /** Two places where a machine stops cannot both be reached. */
  lemma ReachesUnique(code: seq<Instr>, s: seq<Byte>, c: Config, d: Config, e: Config)
    requires Reaches(code, s, c, d) && Reaches(code, s, c, e)
    requires Step(code, s, d) == Stuck && Step(code, s, e) == Stuck && d != Stuck && e != Stuck
    ensures d == e
  {
    var n: nat :| Exec(code, s, c, n) == d;
    var m: nat :| Exec(code, s, c, m) == e;
    if n < m {
      ExecMore(code, s, c, n, m - n);
      ExecStuck(code, s, m - n - 1);
    } else if m < n {
      ExecMore(code, s, c, m, n - m);
      ExecStuck(code, s, n - m - 1);
    }
  }

  // ---------- Code inside code ----------

  predicate Embedded(P: seq<Instr>, b: nat, code: seq<Instr>) {
    b + |code| <= |P| && P[b..b + |code|] == code
  }

  function Shift(stk: seq<Entry>, b: int): seq<Entry> {
    seq(|stk|, i requires 0 <= i < |stk| => Entry(stk[i].pc + b, stk[i].pos))
  }

  /** A configuration of a piece of code that stands at b in a program, above the program's own stack. */
  function Lift(c: Config, b: int, stk: seq<Entry>): Config {
    match c
    case Run(pc, pos, st) => Run(pc + b, pos, Shift(st, b) + stk)
    case Failing(st) => Failing(Shift(st, b) + stk)
    case Stuck => Stuck
  }

  lemma ShiftParts(st: seq<Entry>, b: int, stk: seq<Entry>)
    ensures Shift([], b) + stk == stk
    ensures st != [] ==>
              && (Shift(st, b) + stk)[0] == Entry(st[0].pc + b, st[0].pos)
              && (Shift(st, b) + stk)[1..] == Shift(st[1..], b) + stk
    ensures forall e: Entry :: Shift([e] + st, b) + stk == [Entry(e.pc + b, e.pos)] + (Shift(st, b) + stk)
  {
    if st != [] {
      assert (Shift(st, b) + stk)[1..] == Shift(st, b)[1..] + stk;
      assert Shift(st, b)[1..] == Shift(st[1..], b);
    }
    forall e: Entry ensures Shift([e] + st, b) + stk == [Entry(e.pc + b, e.pos)] + (Shift(st, b) + stk) {
      assert Shift([e] + st, b) == [Entry(e.pc + b, e.pos)] + Shift(st, b);
    }
  }

  lemma LiftStepAt(p: Instr, s: seq<Byte>, pc: int, pos: int, st: seq<Entry>, b: int, stk: seq<Entry>)
    requires StepAt(p, s, pc, pos, st) != Stuck
    ensures StepAt(p, s, pc + b, pos, Shift(st, b) + stk) == Lift(StepAt(p, s, pc, pos, st), b, stk)
  {
    ShiftParts(st, b, stk);
    if st != [] {
      ShiftParts(st[1..], b, stk);
    }
    hide Shift, Passes, SpanEnd;
    match p
    case IPartialCommit(off) =>
      assert Shift([Entry(st[0].pc, pos)] + st[1..], b) + stk == [Entry(st[0].pc + b, pos)] + (Shift(st[1..], b) + stk);
    case _ =>
  }

  /** A step of the piece is a step of the program. */
  lemma LiftStep(P: seq<Instr>, b: nat, code: seq<Instr>, s: seq<Byte>, c: Config, stk: seq<Entry>)
    requires Embedded(P, b, code) && Step(code, s, c) != Stuck
    ensures Step(P, s, Lift(c, b, stk)) == Lift(Step(code, s, c), b, stk)
  {
    if c.Run? {
      assert P[b + c.pc] == P[b..b + |code|][c.pc] == code[c.pc];
      LiftStepAt(code[c.pc], s, c.pc, c.pos, c.stk, b, stk);
      hide StepAt, Shift;
    } else {
      ShiftParts(c.stk, b, stk);
      hide Shift;
    }
  }

  lemma {:induction false} LiftExec(P: seq<Instr>, b: nat, code: seq<Instr>, s: seq<Byte>, c: Config, stk: seq<Entry>, n: nat)
    requires Embedded(P, b, code) && Exec(code, s, c, n) != Stuck
    ensures Exec(P, s, Lift(c, b, stk), n) == Lift(Exec(code, s, c, n), b, stk)
    decreases n
  {
    if n > 0 {
      if Step(code, s, c) == Stuck {
        ExecStuck(code, s, n - 1);
      }
      LiftStep(P, b, code, s, c, stk);
      LiftExec(P, b, code, s, Step(code, s, c), stk, n - 1);
    }
  }

  /** A run of the piece is a run of the program. */
  lemma LiftReaches(P: seq<Instr>, b: nat, code: seq<Instr>, s: seq<Byte>, c: Config, d: Config, stk: seq<Entry>)
    requires Embedded(P, b, code) && Reaches(code, s, c, d) && d != Stuck
    ensures Reaches(P, s, Lift(c, b, stk), Lift(d, b, stk))
  {
    var n: nat :| Exec(code, s, c, n) == d;
    LiftExec(P, b, code, s, c, stk, n);
  }

  // ---------- Jumps that stay in the code ----------

  /** Every jump of the code goes to an instruction of the code, or to its end. */
  predicate JumpsInside(code: seq<Instr>) {
    forall k :: 0 <= k < |code| && IsJump(code[k]) ==> 0 <= k + code[k].off <= |code|
  }

  /** No jump goes back to the first instruction if that one is a check. */
  predicate FrontFree(code: seq<Instr>) {
    code != [] && IsCheck(code[0]) ==> forall k :: 0 <= k < |code| && IsJump(code[k]) ==> k + code[k].off != 0
  }

  /** The configuration is within code that stands behind the first instruction. */
  predicate Behind(code: seq<Instr>, c: Config) {
    && c != Stuck
    && (c.Run? ==> 1 <= c.pc <= |code|)
    && (forall e :: e in c.stk ==> 1 <= e.pc <= |code|)
  }

  function Unlift(c: Config): Config
    requires c != Stuck
  {
    Lift(c, -1, [])
  }

  lemma BehindStep(code: seq<Instr>, s: seq<Byte>, c: Config)
    requires code != [] && IsCheck(code[0]) && JumpsInside(code) && FrontFree(code)
    requires Behind(code, c) && Step(code, s, c) != Stuck
    ensures Behind(code, Step(code, s, c))
  {
    hide Passes, SpanEnd;
    var d := Step(code, s, c);
    if c.stk != [] {
      assert c.stk[0] in c.stk;
    }
    forall e | e in d.stk ensures 1 <= e.pc <= |code| {
      if e !in c.stk {
        assert c.Run? && (code[c.pc].IChoice? || code[c.pc].IPartialCommit?);
      }
    }
  }

  lemma UnliftStep(code: seq<Instr>, s: seq<Byte>, c: Config)
    requires code != [] && Behind(code, c) && Step(code, s, c) != Stuck
    ensures Step(code[1..], s, Unlift(c)) == Unlift(Step(code, s, c))
  {
    if c.Run? {
      assert code[1..][c.pc - 1] == code[c.pc];
      LiftStepAt(code[c.pc], s, c.pc, c.pos, c.stk, -1, []);
      hide StepAt, Shift;
    } else {
      ShiftParts(c.stk, -1, []);
      hide Shift;
    }
  }

  lemma {:induction false} UnliftExec(code: seq<Instr>, s: seq<Byte>, c: Config, n: nat)
    requires code != [] && IsCheck(code[0]) && JumpsInside(code) && FrontFree(code)
    requires Behind(code, c) && Exec(code, s, c, n) != Stuck
    ensures Behind(code, Exec(code, s, c, n)) && Exec(code[1..], s, Unlift(c), n) == Unlift(Exec(code, s, c, n))
    decreases n
  {
    hide Behind, Step, Unlift, JumpsInside, FrontFree;
    if n > 0 {
      if Step(code, s, c) == Stuck {
        ExecStuck(code, s, n - 1);
      }
      BehindStep(code, s, c);
      UnliftStep(code, s, c);
      UnliftExec(code, s, Step(code, s, c), n - 1);
    }
  }

  /** Where the first instruction is a check, what follows it runs on its own. */
  lemma TailReaches(code: seq<Instr>, s: seq<Byte>, i: int, d: Config)
    requires code != [] && IsCheck(code[0]) && JumpsInside(code) && FrontFree(code)
    requires Reaches(code, s, Run(1, i, []), d) && d != Stuck && d.stk == []
    ensures Reaches(code[1..], s, Run(0, i, []), Unlift(d))
  {
    var n: nat :| Exec(code, s, Run(1, i, []), n) == d;
    UnliftExec(code, s, Run(1, i, []), n);
    assert Unlift(Run(1, i, [])) == Run(0, i, []) by { ShiftParts([], -1, []); }
    assert Exec(code[1..], s, Run(0, i, []), n) == Unlift(d);
  }
}
