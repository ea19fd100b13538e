/** The loop of match, with its backtrack stack in an array that is doubled when it is full, and the loop of verify
    (lpeg.c:402-419, 440-636, 656-782). */
module LpegMatch {
  import opened Basics
  import opened LpegMachine
  import opened LpegSemantics
  import opened LpegBuild
  import opened LpegVerify
  import opened LpegCompile

  const INITBACK := 100

  datatype Found = Matched(end: int) | NoMatch | StackOverflow

  /** The machine has matched, or has failed for good. */
  predicate Final(code: seq<Instr>, c: Config) {
    c == Failing([]) || (c.Run? && c.pc == |code| && c.stk == [])
  }

  ghost predicate Halts(code: seq<Instr>, s: seq<Byte>, c: Config) {
    exists n: nat :: Final(code, Exec(code, s, c, n))
  }

  /** Before it halts the machine is never stuck. */
  lemma BeforeHalt(code: seq<Instr>, s: seq<Byte>, c: Config, n: nat, total: nat)
    requires n <= total && Final(code, Exec(code, s, c, total))
    ensures Exec(code, s, c, n) != Stuck
    ensures n == total || Step(code, s, Exec(code, s, c, n)) == Exec(code, s, c, n + 1)
    ensures n < total ==> Step(code, s, Exec(code, s, c, n)) != Stuck
  {
    ExecMore(code, s, c, n, total - n);
    var d := Exec(code, s, c, n);
    if d == Stuck { ExecStuck(code, s, total - n); }
    if n < total {
      ExecMore(code, s, c, n, 1);
      assert Exec(code, s, d, 1) == Exec(code, s, Step(code, s, d), 0);
      if Step(code, s, d) == Stuck { ExecStuck(code, s, total - n - 1); }
    }
  }

  /** The elements of a stack in an array, the newest first. */
  function Newest<T>(a: seq<T>): seq<T> {
    seq(|a|, k requires 0 <= k < |a| => a[|a| - 1 - k])
  }

  lemma NewestPush<T>(a: seq<T>, e: T)
    ensures Newest(a + [e]) == [e] + Newest(a)
  {
  }

  lemma NewestPop<T>(a: seq<T>)
    requires a != []
    ensures Newest(a) == [a[|a| - 1]] + Newest(a[..|a| - 1])
  {
  }

  /** The newest element is replaced. */
  lemma NewestTop<T>(a: seq<T>, e: T)
    requires a != []
    ensures Newest(a[|a| - 1 := e]) == [e] + Newest(a)[1..]
  {
  }

  /** The stack has room for INITBACK entries, and grows up to the limit that is set. */
  function Room(max: nat): nat {
    if max < INITBACK then INITBACK else max
  }

  /** The backtrack stack: an array, and the first empty place in it. */
  class BackStack {
    const max: nat
    var cells: array<Entry>
    var top: nat

    ghost predicate Valid()
      reads this
    {
      1 <= top <= cells.Length && INITBACK <= cells.Length <= Room(max)
    }

    /** The pending choices, the newest first, without the entry to give up with. */
    ghost function Pending(): seq<Entry>
      reads this, cells
      requires Valid()
    {
      Newest(cells[1..top])
    }

    constructor (giveup: Entry, limit: nat)
      ensures Valid() && fresh(cells) && Pending() == [] && top == 1 && max == limit
    {
      var a := new Entry[INITBACK](_ => giveup);
      max, cells, top := limit, a, 1;
    }

    /** doublestack: a larger array with the same entries, or the error. */
    method Double() returns (ok: bool)
      requires Valid()
      modifies this
      ensures Valid() && top == old(top) && Pending() == old(Pending())
      ensures ok <==> old(cells.Length) < max
      ensures ok ==> cells.Length > old(cells.Length) && fresh(cells)
      ensures !ok ==> cells == old(cells)
    {
      var n := cells.Length;
      if n >= max { return false; }
      var size := 2 * n;
      if size > max { size := max; }
      var bigger := new Entry[size](_ => Entry(0, 0));
      for i := 0 to n
        invariant cells == old(cells) && top == old(top) && bigger[..i] == cells[..i]
      {
        bigger[i] := cells[i];
      }
      assert bigger[..n][1..top] == cells[..n][1..top];
      cells := bigger;
      return true;
    }

    method Push(e: Entry) returns (ok: bool)
      requires Valid()
      modifies this, cells
      ensures Valid() && (cells == old(cells) || fresh(cells))
      ensures ok <==> |old(Pending())| + 1 < Room(max)
      ensures ok ==> Pending() == [e] + old(Pending())
      ensures !ok ==> Pending() == old(Pending())
    {
      if top == cells.Length {
        ok := Double();
        if !ok { return; }
      }
      ghost var before := cells[1..top];
      NewestPush(before, e);
      cells[top] := e;
      assert cells[1..top + 1] == before + [e];
      top := top + 1;
      ok := true;
    }

    method Pop() returns (e: Entry)
      requires Valid() && Pending() != []
      modifies this`top
      ensures Valid() && old(Pending()) == [e] + Pending()
    {
      NewestPop(cells[1..top]);
      assert cells[1..top][..top - 2] == cells[1..top - 1];
      top := top - 1;
      return cells[top];
    }

    /** The position of the newest entry moves. */
    method MoveTop(pos: int)
      requires Valid() && Pending() != []
      modifies cells
      ensures Valid() && Pending() == [Entry(old(Pending())[0].pc, pos)] + old(Pending())[1..]
    {
      ghost var before := cells[1..top];
      var e := Entry(cells[top - 1].pc, pos);
      NewestTop(before, e);
      NewestPop(before);
      cells[top - 1] := e;
      assert cells[1..top] == before[top - 2 := e];
    }
  }

  /** With the entry to give up with there are more entries than fit. */
  predicate TooMany(c: Config, max: nat) {
    !c.Stuck? && |c.stk| + 1 > Room(max)
  }

  /** At some place the machine has more choices pending than the stack has room for. */
  ghost predicate NeedsStack(code: seq<Instr>, s: seq<Byte>, c: Config, max: nat) {
    exists n: nat :: TooMany(Exec(code, s, c, n), max)
  }

  ghost predicate Fits(code: seq<Instr>, s: seq<Byte>, c: Config, max: nat, n: nat) {
    forall k: nat :: k <= n ==> !TooMany(Exec(code, s, c, k), max)
  }

  /** Only a choice needs one more place. */
  lemma StepNeeds(code: seq<Instr>, s: seq<Byte>, c: Config, max: nat, n: nat, m: nat)
    requires Fits(code, s, c, max, n) && (m == n + 1 || m == n + 2)
    requires var d := Exec(code, s, c, n);
             d.Run? && 0 <= d.pc < |code| && (code[d.pc].IChoice? ==> |d.stk| + 2 <= Room(max))
    requires Exec(code, s, c, n + 1) == Step(code, s, Exec(code, s, c, n))
    requires m == n + 2 ==> Exec(code, s, c, n + 1).Failing? && Exec(code, s, c, n + 2) == Step(code, s, Exec(code, s, c, n + 1))
    ensures Fits(code, s, c, max, m)
  {
    var d := Exec(code, s, c, n);
    assert !TooMany(d, max);
    assert !TooMany(Step(code, s, d), max);
    hide Exec, TooMany;
    assert m == n + 2 ==> !TooMany(Exec(code, s, c, n + 2), max) by {
      hide *;
      if m == n + 2 { PopNeeds(code, s, Exec(code, s, c, n + 1), max); }
    }
  }

  lemma PopNeeds(code: seq<Instr>, s: seq<Byte>, d: Config, max: nat)
    requires d.Failing? && !TooMany(d, max)
    ensures !TooMany(Step(code, s, d), max)
  {
  }

  lemma FinalStuck(code: seq<Instr>, s: seq<Byte>, d: Config, m: nat)
    requires Final(code, d) && m > 0
    ensures Exec(code, s, d, m) == Stuck
  {
    assert Step(code, s, d) == Stuck;
    hide Step;
    ExecStuck(code, s, m - 1);
  }

  lemma FitsToTheEnd(code: seq<Instr>, s: seq<Byte>, c: Config, max: nat, n: nat)
    requires Fits(code, s, c, max, n) && Final(code, Exec(code, s, c, n))
    ensures !NeedsStack(code, s, c, max)
  {
    hide Exec, Final;
    forall k: nat ensures !TooMany(Exec(code, s, c, k), max) {
      if k > n {
        ExecMore(code, s, c, n, k - n);
        FinalStuck(code, s, Exec(code, s, c, n), k - n);
      }
    }
  }

  /** The next step, from a configuration that is not yet final. */
  function Advance(code: seq<Instr>, s: seq<Byte>, c: Config): Config {
    var d := Step(code, s, c);
    if d.Failing? && d.stk != [] then Step(code, s, d) else d
  }

  lemma AdvanceIs(code: seq<Instr>, s: seq<Byte>, c: Config, n: nat, total: nat) returns (m: nat)
    requires Final(code, Exec(code, s, c, total)) && n <= total
    requires Exec(code, s, c, n).Run? && Exec(code, s, c, n).pc != |code|
    ensures n < m <= total && Exec(code, s, c, m) == Advance(code, s, Exec(code, s, c, n))
    ensures m == n + if Step(code, s, Exec(code, s, c, n)).Failing? && Step(code, s, Exec(code, s, c, n)).stk != [] then 2 else 1
    ensures 0 <= Exec(code, s, c, n).pc < |code| && Advance(code, s, Exec(code, s, c, n)) != Stuck
    ensures var d := Exec(code, s, c, n); StepAt(code[d.pc], s, d.pc, d.pos, d.stk) != Stuck
  {
    var d := Exec(code, s, c, n);
    hide StepAt;
    BeforeHalt(code, s, c, n, total);
    m := n + 1;
    var e := Step(code, s, d);
    if e.Failing? && e.stk != [] {
      BeforeHalt(code, s, c, n + 1, total);
      m := n + 2;
    }
    BeforeHalt(code, s, c, m, total);
  }

  lemma ChoiceNeeds(code: seq<Instr>, s: seq<Byte>, c: Config, max: nat, n: nat, total: nat)
    requires Final(code, Exec(code, s, c, total)) && n < total
    requires var d := Exec(code, s, c, n);
             d.Run? && 0 <= d.pc < |code| && code[d.pc].IChoice? && |d.stk| + 2 > Room(max)
    ensures NeedsStack(code, s, c, max)
  {
    BeforeHalt(code, s, c, n, total);
    assert TooMany(Exec(code, s, c, n + 1), max);
  }

  lemma AdvanceNeeds(code: seq<Instr>, s: seq<Byte>, c: Config, max: nat, n: nat, m: nat, total: nat)
    requires Final(code, Exec(code, s, c, total)) && n < m <= total && Fits(code, s, c, max, n)
    requires var d := Exec(code, s, c, n);
             && d.Run? && 0 <= d.pc < |code| && (code[d.pc].IChoice? ==> |d.stk| + 2 <= Room(max))
             && m == n + if Step(code, s, d).Failing? && Step(code, s, d).stk != [] then 2 else 1
    ensures Fits(code, s, c, max, m)
  {
    BeforeHalt(code, s, c, n, total);
    if m == n + 2 { BeforeHalt(code, s, c, n + 1, total); }
    hide Exec, Step, Final;
    StepNeeds(code, s, c, max, n, m);
  }

  /** How the instructions that leave the stack alone go on: at another place, or to the label 'fail'. */
  method StackFree(p: Instr, s: seq<Byte>, pc: int, pos: int, ghost stk: seq<Entry>) returns (pc': int, pos': int, fail: bool)
    requires IsFixCheckOp(p) || p.ISpan? || p.IBack? || p.IJmp? || p.IFail?
    ensures StepAt(p, s, pc, pos, stk) == if fail then Failing(stk) else Run(pc', pos', stk)
  {
    pc', pos', fail := pc, pos, false;
    match p
    case IAny(n, off) =>
      if n <= |s| - pos { pc', pos' := pc + 1, pos + n; } else if off != 0 { pc' := pc + off; } else { fail := true; }
    case IChar(c, off) =>
      if 0 <= pos < |s| && s[pos] == c { pc', pos' := pc + 1, pos + 1; }
      else if off != 0 { pc' := pc + off; } else { fail := true; }
    case ISet(cs, off) =>
      if 0 <= pos < |s| && s[pos] in cs { pc', pos' := pc + 1, pos + 1; }
      else if off != 0 { pc' := pc + off; } else { fail := true; }
    case IBack(n) => if n > pos { fail := true; } else { pc', pos' := pc + 1, pos - n; }
    case ISpan(cs) =>
      while 0 <= pos' < |s| && s[pos'] in cs
        invariant SpanEnd(s, pos', cs) == SpanEnd(s, pos, cs)
        decreases |s| - pos'
      {
        pos' := pos' + 1;
      }
      pc' := pc + 1;
    case IJmp(off) => pc' := pc + off;
    case _ => fail := true;
  }

  /** How the instructions that use the stack go on. */
  method StackUser(p: Instr, s: seq<Byte>, pc: int, pos: int, stack: BackStack)
    returns (pc': int, pos': int, fail: bool, full: bool)
    requires p.IChoice? || p.ICommit? || p.IPartialCommit? || p.IBackCommit? || p.IFailTwice?
    requires stack.Valid() && StepAt(p, s, pc, pos, stack.Pending()) != Stuck
    modifies stack, stack.cells
    ensures stack.Valid() && (stack.cells == old(stack.cells) || fresh(stack.cells))
    ensures !full ==>
              old(StepAt(p, s, pc, pos, stack.Pending())) ==
              if fail then Failing(stack.Pending()) else Run(pc', pos', stack.Pending())
    ensures full <==> p.IChoice? && |old(stack.Pending())| + 2 > Room(stack.max)
  {
    pc', pos', fail, full := pc, pos, false, false;
    match p
    case IChoice(off, aux) =>
      var ok := stack.Push(Entry(pc + off, pos - aux));
      pc', full := pc + 1, !ok;
    case ICommit(off) =>
      var _ := stack.Pop();
      pc' := pc + off;
    case IPartialCommit(off) =>
      stack.MoveTop(pos);
      pc' := pc + off;
    case IBackCommit(off) =>
      var e := stack.Pop();
      pc', pos' := pc + off, e.pos;
    case IFailTwice =>
      var _ := stack.Pop();
      fail := true;
  }

  /** match: the end of the match, or the giveup entry; the stack is then as it was on entry, with that entry alone. */
  method Match(code: seq<Instr>, s: seq<Byte>, i: nat, max: nat) returns (r: Found)
    requires Halts(code, s, Run(0, i, []))
    ensures r.Matched? ==> Reaches(code, s, Run(0, i, []), Run(|code|, r.end, []))
    ensures r.NoMatch? ==> Reaches(code, s, Run(0, i, []), Failing([]))
    ensures r.StackOverflow? <==> NeedsStack(code, s, Run(0, i, []), max)
  {
    ghost var c := Run(0, i, []);
    ghost var total: nat :| Final(code, Exec(code, s, c, total));
    ghost var n: nat := 0;
    var stack := new BackStack(Entry(|code| + 1, i), max);
    var pc, pos := 0, i as int;
    while pc != |code|
      invariant fresh(stack) && fresh(stack.cells) && stack.Valid() && stack.max == max
      invariant n <= total && Exec(code, s, c, n) == Run(pc, pos, stack.Pending()) && Fits(code, s, c, max, n)
      decreases total - n
    {
      ghost var m := AdvanceIs(code, s, c, n, total);
      ghost var d := Exec(code, s, c, n);
      var p := code[pc];
      var fail, full := false, false;
      if IsFixCheckOp(p) || p.ISpan? || p.IBack? || p.IJmp? || p.IFail? {
        pc, pos, fail := StackFree(p, s, pc, pos, stack.Pending());
      } else {
        pc, pos, fail, full := StackUser(p, s, pc, pos, stack);
        if full {
          ChoiceNeeds(code, s, c, max, n, total);
          return StackOverflow;
        }
      }
      AdvanceNeeds(code, s, c, max, n, m, total);
      assert Step(code, s, d) == if fail then Failing(stack.Pending()) else Run(pc, pos, stack.Pending());
      if fail {
        if stack.top == 1 {
          assert Exec(code, s, c, m) == Failing([]);
          FitsToTheEnd(code, s, c, max, m);
          return NoMatch;
        }
        var e := stack.Pop();
        pc, pos := e.pc, e.pos;
      }
      n := m;
    }
    EndsClean(code, s, c, n, total);
    FitsToTheEnd(code, s, c, max, n);
    assert stack.top == 1;
    return Matched(pos);
  }

  /** At its end the code has left nothing on the stack. */
  lemma EndsClean(code: seq<Instr>, s: seq<Byte>, c: Config, n: nat, total: nat)
    requires Final(code, Exec(code, s, c, total)) && n <= total
    requires Exec(code, s, c, n).Run? && Exec(code, s, c, n).pc == |code|
    ensures Exec(code, s, c, n).stk == []
  {
    BeforeHalt(code, s, c, n, total);
  }

  // ---------- Matching a pattern ----------

  /** The position that the third argument of lpeg.match stands for. */
  function StartOf(init: int, len: nat): (i: nat)
    ensures i <= len
  {
    if init > 0 then (if init <= len then init - 1 else len) else if -init <= len then len + init else 0
  }

  /** The same outcome k characters on. */
  function Moved(r: Outcome, k: int): Outcome {
    if r.Ok? then Ok(r.j + k) else r
  }

  /** A match looks at nothing in front of its start. */
  lemma {:induction false} SemMoved(e: Peg, s: seq<Byte>, k: nat, i: nat)
    requires k + i <= |s|
    ensures Sem(e, s, k + i) == Moved(Sem(e, s[k..], i), k)
    decreases e, 0, 0
  {
    var t := s[k..];
    match e {
      case Seq(a, b) =>
        SemMoved(a, s, k, i);
        if Sem(a, t, i).Ok? { SemMoved(b, s, k, Sem(a, t, i).j); }
      case Or(a, b) => SemMoved(a, s, k, i); SemMoved(b, s, k, i);
      case Minus(a, b) => SemMoved(a, s, k, i); SemMoved(b, s, k, i);
      case Not(a) => SemMoved(a, s, k, i);
      case And(a) => SemMoved(a, s, k, i);
      case AtLeast(a, n) => AtLeastMoved(a, n, s, k, i);
      case AtMost(a, n) => AtMostMoved(a, n, s, k, i);
      case _ => assert i < |t| ==> t[i] == s[k + i];
    }
  }

  lemma {:induction false} AtLeastMoved(a: Peg, n: nat, s: seq<Byte>, k: nat, i: nat)
    requires k + i <= |s|
    ensures SemAtLeast(a, n, s, k + i) == Moved(SemAtLeast(a, n, s[k..], i), k)
    decreases a, 1, n + |s| - i
  {
    var t := s[k..];
    var r := Sem(a, t, i);
    SemMoved(a, s, k, i);
    AtLeastIs(a, n, t, i);
    AtLeastIs(a, n, s, k + i);
    hide Sem, SemAtLeast;
    if r.Ok? && n > 0 {
      AtLeastMoved(a, n - 1, s, k, r.j);
    } else if r.Ok? && i < r.j {
      AtLeastMoved(a, 0, s, k, r.j);
    }
  }

  lemma AtLeastIs(a: Peg, n: nat, s: seq<Byte>, i: int)
    requires 0 <= i <= |s|
    ensures SemAtLeast(a, n, s, i) ==
            match Sem(a, s, i) {
              case No => if n == 0 then Ok(i) else No
              case Loop => Loop
              case Ok(j) => if n > 0 then SemAtLeast(a, n - 1, s, j) else if i < j then SemAtLeast(a, 0, s, j) else Loop
            }
    ensures Sem(a, s, i).Ok? ==> i <= Sem(a, s, i).j <= |s|
  {
  }

  lemma {:induction false} AtMostMoved(a: Peg, n: nat, s: seq<Byte>, k: nat, i: nat)
    requires k + i <= |s|
    ensures SemAtMost(a, n, s, k + i) == Moved(SemAtMost(a, n, s[k..], i), k)
    decreases a, 1, n
  {
    if n > 0 {
      SemMoved(a, s, k, i);
      var r := Sem(a, s[k..], i);
      if r.Ok? { AtMostMoved(a, n - 1, s, k, r.j); }
    }
  }

  /** The result of a match says this outcome, or that the stack would become too large. */
  predicate Says(r: Found, out: Outcome) {
    match r
    case Matched(end) => out == Ok(end)
    case NoMatch => out == No
    case StackOverflow => true
  }

  /** lpeg.match on a pattern that the combinators built: what the expression says of the subject from the place on that
      the argument stands for, or the error that the stack would become too large. The default is 1; a negative number
      counts from the end, and what lies outside stands for the end it is nearest to. */
  method MatchPattern(ghost e: Peg, code: seq<Instr>, s: seq<Byte>, init: int, max: nat) returns (r: Found)
    requires Written(e) && Clean(e) && Clear(e) && Compile(e) == Code(code)
    ensures init == 1 ==> Says(r, Sem(e, s, 0))
    ensures 1 <= init <= |s| ==> Says(r, Moved(Sem(e, s[init - 1..], 0), init - 1))
    ensures -|s| <= init <= 0 ==> Says(r, Moved(Sem(e, s[|s| + init..], 0), |s| + init))
    ensures init > |s| ==> Says(r, Moved(Sem(e, [], 0), |s|))
    ensures init < -|s| ==> Says(r, Sem(e, s, 0))
    ensures r.StackOverflow? <==> NeedsStack(code, s, Run(0, StartOf(init, |s|), []), max)
  {
    var i := StartOf(init, |s|);
    hide Sem, Compile, Clean, Clear, Written;
    r := MatchAt(e, code, s, i, max);
    StartsFrom(e, s, i, r);
  }

  method MatchAt(ghost e: Peg, code: seq<Instr>, s: seq<Byte>, i: nat, max: nat) returns (r: Found)
    requires Written(e) && Clean(e) && Clear(e) && Compile(e) == Code(code) && i <= |s|
    ensures Says(r, Sem(e, s, i)) && (r.StackOverflow? <==> NeedsStack(code, s, Run(0, i, []), max))
  {
    hide Sem, Compile, Clean, Clear, Written;
    CompiledMatches(e, s, i);
    ghost var out := Sem(e, s, i);
    CompiledHalts(code, s, i, out);
    r := Match(code, s, i, max);
    CompiledOnly(code, s, i, out, r);
  }

  lemma StartsFrom(e: Peg, s: seq<Byte>, i: nat, r: Found)
    requires i <= |s| && Says(r, Sem(e, s, i))
    ensures Says(r, Moved(Sem(e, s[i..], 0), i)) && (i == |s| ==> Says(r, Moved(Sem(e, [], 0), i)))
  {
    SemMoved(e, s, i, 0);
    assert i == |s| ==> s[i..] == [];
  }

  lemma CompiledHalts(code: seq<Instr>, s: seq<Byte>, i: int, r: Outcome)
    requires !r.Loop? && Does(code, s, i, r)
    ensures Halts(code, s, Run(0, i, []))
  {
    var d := if r.Ok? then Run(|code|, r.j, []) else Failing([]);
    var n: nat :| Exec(code, s, Run(0, i, []), n) == d;
    assert Final(code, Exec(code, s, Run(0, i, []), n));
  }

  lemma CompiledOnly(code: seq<Instr>, s: seq<Byte>, i: int, out: Outcome, r: Found)
    requires !out.Loop? && Does(code, s, i, out)
    requires r.Matched? ==> Reaches(code, s, Run(0, i, []), Run(|code|, r.end, []))
    requires r.NoMatch? ==> Reaches(code, s, Run(0, i, []), Failing([]))
    ensures r.Matched? ==> out == Ok(r.end)
    ensures r.NoMatch? ==> out == No
  {
    DoesOnly(code, s, i, out);
  }

  // ---------- verify ----------

  datatype Verdict = Consumes | MayMatchEmpty | TooManyChoices

  /** The walk has come to an end. */
  predicate Arrived(code: seq<Instr>, c: Walk) {
    c == Back([]) || c == At(|code|, []) || c == TooDeep
  }

  ghost predicate Finishes(code: seq<Instr>) {
    exists n: nat :: Arrived(code, WalkExec(code, At(0, []), n))
  }

  lemma BeforeArrival(code: seq<Instr>, n: nat, total: nat)
    requires n <= total && Arrived(code, WalkExec(code, At(0, []), total))
    ensures var c := WalkExec(code, At(0, []), n);
            && c != Lost
            && (n < total ==> WalkStep(code, c) != Lost && WalkExec(code, At(0, []), n + 1) == WalkStep(code, c))
  {
    var c := WalkExec(code, At(0, []), n);
    WalkMore(code, At(0, []), n, total - n);
    if c == Lost { WalkLost(code, total - n); }
    if n < total {
      WalkMore(code, At(0, []), n, 1);
      assert WalkExec(code, c, 1) == WalkExec(code, WalkStep(code, c), 0);
      if WalkStep(code, c) == Lost { WalkLost(code, total - n - 1); }
    }
  }

  lemma CheckedFinishes(code: seq<Instr>, e: Peg)
    requires Checked(code, e)
    ensures Finishes(code)
  {
    var v, h := TakeWalk(code, e);
    WalkEnds(code, v, h);
    var n: nat :| Arrived(code, WalkExec(code, At(0, []), n));
  }

  /** The pending choices of verify, in an array of fixed size. */
  class Pending {
    const back: array<int>
    var top: nat

    ghost predicate Valid()
      reads this
    {
      top <= MAXBACKVER == back.Length
    }

    ghost function List(): seq<int>
      reads this, back
      requires Valid()
    {
      Newest(back[..top])
    }

    constructor ()
      ensures Valid() && fresh(back) && List() == []
    {
      back := new int[MAXBACKVER](_ => 0);
      top := 0;
    }

    method Push(p: int)
      requires Valid() && top < MAXBACKVER
      modifies this`top, back
      ensures Valid() && List() == [p] + old(List())
    {
      NewestPush(back[..top], p);
      back[top] := p;
      assert back[..top + 1] == old(back[..top]) + [p];
      top := top + 1;
    }

    method Pop() returns (p: int)
      requires Valid() && top > 0
      modifies this`top
      ensures Valid() && old(List()) == [p] + List()
    {
      NewestPop(back[..top]);
      assert back[..top][..top - 1] == back[..top - 1];
      top := top - 1;
      return back[top];
    }
  }

  /** One instruction of the walk: the next place, or the label 'fail', or the error. */
  method Visit(code: seq<Instr>, p: int, pending: Pending) returns (p': int, fail: bool, full: bool)
    requires pending.Valid() && 0 <= p < |code| && WalkStep(code, At(p, pending.List())) != Lost
    modifies pending, pending.back
    ensures pending.Valid()
    ensures old(WalkStep(code, At(p, pending.List()))) ==
            if full then TooDeep else if fail then Back(pending.List()) else At(p', pending.List())
  {
    p', fail, full := p, false, false;
    var x := code[p];
    if IsFixCheckOp(x) {
      if p + 1 < |code| && code[p + 1].IBack? { p' := p + 2; }
      else if x.off == 0 { fail := true; }
      else { p' := p + x.off; }
    } else if x.IChoice? {
      if pending.top >= MAXBACKVER { full := true; return; }
      pending.Push(p + x.off);
      p' := p + 1;
    } else if x.ICommit? || x.IBackCommit? || (x.IPartialCommit? && x.off <= 0) {
      var _ := pending.Pop();
      p' := p + if x.IPartialCommit? then 1 else x.off;
    } else if x.IPartialCommit? || x.IJmp? {
      p' := p + x.off;
    } else if x.ISpan? || (x.IFail? && p > 0 && code[p - 1].IBackCommit?) {
      p' := p + 1;
    } else {
      fail := true;
    }
  }

  /** verify, on a loop body. At its end no choice is pending. */
  method Verify(code: seq<Instr>) returns (v: Verdict)
    requires Finishes(code)
    ensures v.Consumes? ==> Accepts(code)
    ensures v.MayMatchEmpty? ==> Rejects(code)
    ensures v.TooManyChoices? ==> GivesUp(code)
  {
    ghost var total: nat :| Arrived(code, WalkExec(code, At(0, []), total));
    ghost var n: nat := 0;
    var pending := new Pending();
    var p := 0;
    hide WalkStep;
    while p != |code|
      invariant fresh(pending) && fresh(pending.back) && pending.Valid()
      invariant n <= total && WalkExec(code, At(0, []), n) == At(p, pending.List())
      decreases total - n
    {
      BeforeArrival(code, n, total);
      InCode(code, p, pending.List());
      var fail, full;
      p, fail, full := Visit(code, p, pending);
      n := n + 1;
      if full { return TooManyChoices; }
      if fail {
        if pending.top == 0 { return Consumes; }
        BeforeArrival(code, n, total);
        PopWalk(code, pending.List());
        p := pending.Pop();
        n := n + 1;
      }
    }
    BeforeArrival(code, n, total);
    AtEnd(code, pending.List());
    assert pending.top == 0;
    return MayMatchEmpty;
  }

  lemma InCode(code: seq<Instr>, p: int, back: seq<int>)
    requires WalkStep(code, At(p, back)) != Lost
    ensures 0 <= p < |code|
  {
  }

  lemma PopWalk(code: seq<Instr>, back: seq<int>)
    requires back != []
    ensures WalkStep(code, Back(back)) == At(back[0], back[1..])
  {
  }

  lemma AtEnd(code: seq<Instr>, back: seq<int>)
    ensures WalkStep(code, At(|code|, back)) == Lost
  {
  }
}
