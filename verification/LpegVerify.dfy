/** verify: the check that the body of a loop cannot match without consuming anything (lpeg.c:656-782). */
module LpegVerify {
  import opened Basics
  import opened LpegMachine
  import opened LpegSemantics
  const MAXBACKVER := 200

  /** The state of the walk: a place in the code and the choices to go back to, or the label 'fail', or the error
      'too many pending calls/choices'. */
  datatype Walk = At(pc: int, back: seq<int>) | Back(back: seq<int>) | TooDeep | Lost

  predicate IsBackAt(code: seq<Instr>, k: int) {
    0 <= k < |code| && code[k].IBack?
  }

  /** One round of the loop of verify, for code without calls and look-behind, with no limit to the choices. Characters
      are never consumed: a check fails, unless what follows it goes back again. The walk never stops at an IBack, which is
      passed over with the check in front of it: the lemmas below show that it is never lost. */
  function FreeStep(code: seq<Instr>, c: Walk): Walk {
    match c
    case Lost => Lost
    case TooDeep => Lost
    case Back(back) => if back == [] then Lost else At(back[0], back[1..])
    case At(pc, back) =>
      if pc < 0 || pc >= |code| then Lost
      else if IsFixCheckOp(code[pc]) then
        if IsBackAt(code, pc + 1) then At(pc + 2, back)
        else if code[pc].off == 0 then Back(back)
        else At(pc + code[pc].off, back)
      else
        match code[pc]
        case IChoice(off, _) => At(pc + 1, [pc + off] + back)
        case ICommit(off) => if back == [] then Lost else At(pc + off, back[1..])
        case IBackCommit(off) => if back == [] then Lost else At(pc + off, back[1..])
        case IPartialCommit(off) =>
          if back == [] then Lost else if off > 0 then At(pc + off, back) else At(pc + 1, back[1..])
        case IBack(_) => Lost
        case IJmp(off) => At(pc + off, back)
        case IFail => if pc > 0 && code[pc - 1].IBackCommit? then At(pc + 1, back) else Back(back)
        case ISpan(_) => At(pc + 1, back)
        case _ => Back(back)
  }

  /** The same with an array for the choices that is full. */
  function WalkStep(code: seq<Instr>, c: Walk): Walk {
    if c.At? && 0 <= c.pc < |code| && code[c.pc].IChoice? && |c.back| >= MAXBACKVER then TooDeep else FreeStep(code, c)
  }

  function WalkExec(code: seq<Instr>, c: Walk, n: nat): Walk
    decreases n
  {
    if n == 0 then c else WalkExec(code, WalkStep(code, c), n - 1)
  }

  ghost predicate Walks(code: seq<Instr>, c: Walk, d: Walk) {
    exists n: nat :: WalkExec(code, c, n) == d
  }

  lemma {:induction false} WalkLost(code: seq<Instr>, n: nat)
    ensures WalkExec(code, Lost, n) == Lost
    decreases n
  {
    if n > 0 { WalkLost(code, n - 1); }
  }

  lemma {:induction false} WalkMore(code: seq<Instr>, c: Walk, n: nat, m: nat)
    ensures WalkExec(code, c, n + m) == WalkExec(code, WalkExec(code, c, n), m)
    decreases n
  {
    if n > 0 { WalkMore(code, WalkStep(code, c), n - 1, m); }
  }

  // ---------- The walk without a limit ----------

  function FreeExec(code: seq<Instr>, c: Walk, n: nat): Walk
    decreases n
  {
    if n == 0 then c else FreeExec(code, FreeStep(code, c), n - 1)
  }

  lemma {:induction false} FreeLost(code: seq<Instr>, n: nat)
    ensures FreeExec(code, Lost, n) == Lost
    decreases n
  {
    if n > 0 { FreeLost(code, n - 1); }
  }

  lemma {:induction false} FreeMore(code: seq<Instr>, c: Walk, n: nat, m: nat)
    ensures FreeExec(code, c, n + m) == FreeExec(code, FreeExec(code, c, n), m)
    decreases n
  {
    if n > 0 { FreeMore(code, FreeStep(code, c), n - 1, m); }
  }

  /** How many choices are pending. */
  function Height(c: Walk): nat {
    match c
    case At(_, back) => |back|
    case Back(back) => |back|
    case _ => 0
  }

  ghost predicate Low(code: seq<Instr>, c: Walk, n: nat, h: nat) {
    forall k: nat :: k <= n ==> Height(FreeExec(code, c, k)) <= h
  }

  /** The walk comes to d, and never has more than h choices pending. */
  ghost predicate Comes(code: seq<Instr>, c: Walk, d: Walk, h: nat) {
    exists n: nat :: FreeExec(code, c, n) == d && Low(code, c, n, h)
  }

  lemma ComesTrans(code: seq<Instr>, c: Walk, d: Walk, e: Walk, h: nat)
    requires Comes(code, c, d, h) && Comes(code, d, e, h)
    ensures Comes(code, c, e, h)
  {
    var n: nat :| FreeExec(code, c, n) == d && Low(code, c, n, h);
    var m: nat :| FreeExec(code, d, m) == e && Low(code, d, m, h);
    hide FreeExec, Height;
    FreeMore(code, c, n, m);
    forall k: nat | k <= n + m ensures Height(FreeExec(code, c, k)) <= h {
      if k > n { FreeMore(code, c, n, k - n); }
    }
    assert Low(code, c, n + m, h);
  }

  lemma ComesHigher(code: seq<Instr>, c: Walk, d: Walk, h: nat, g: nat)
    requires Comes(code, c, d, h) && h <= g
    ensures Comes(code, c, d, g)
  {
    hide FreeExec, Height;
    var n: nat :| FreeExec(code, c, n) == d && Low(code, c, n, h);
    assert Low(code, c, n, g);
  }

  lemma ComesRefl(code: seq<Instr>, c: Walk, h: nat)
    requires Height(c) <= h
    ensures Comes(code, c, c, h)
  {
    assert FreeExec(code, c, 0) == c;
    assert Low(code, c, 0, h);
  }

  lemma ComesStep(code: seq<Instr>, c: Walk, d: Walk, h: nat)
    requires FreeStep(code, c) == d && Height(c) <= h && Height(d) <= h
    ensures Comes(code, c, d, h)
  {
    assert FreeExec(code, c, 0) == c && FreeExec(code, d, 0) == d;
    assert FreeExec(code, c, 1) == d;
    hide FreeStep, FreeExec;
    assert Low(code, c, 1, h) by {
      forall k: nat | k <= 1 ensures Height(FreeExec(code, c, k)) <= h {
        assert k == 0 || k == 1;
      }
    }
  }

  lemma ComesThen(code: seq<Instr>, c: Walk, d: Walk, e: Walk, h: nat)
    requires FreeStep(code, c) == d && Height(c) <= h && Height(d) <= h && Comes(code, d, e, h)
    ensures Comes(code, c, e, h)
  {
    ComesStep(code, c, d, h);
    ComesTrans(code, c, d, e, h);
  }

  /** Below the limit the walk is the same. */
  lemma {:induction false} WalkIsFree(code: seq<Instr>, c: Walk, n: nat)
    requires Low(code, c, n, MAXBACKVER)
    ensures WalkExec(code, c, n) == FreeExec(code, c, n)
    decreases n
  {
    if n > 0 {
      assert Height(FreeExec(code, c, 1)) <= MAXBACKVER;
      assert FreeExec(code, FreeStep(code, c), 0) == FreeStep(code, c);
      assert FreeExec(code, c, 1) == FreeStep(code, c);
      assert WalkStep(code, c) == FreeStep(code, c);
      forall k: nat | k <= n - 1 ensures Height(FreeExec(code, FreeStep(code, c), k)) <= MAXBACKVER {
        assert FreeExec(code, c, k + 1) == FreeExec(code, FreeStep(code, c), k);
      }
      WalkIsFree(code, FreeStep(code, c), n - 1);
    }
  }

  /** Where it is not, the walk is given up. */
  lemma {:induction false} WalkGivenUp(code: seq<Instr>, c: Walk, n: nat)
    requires !Low(code, c, n, MAXBACKVER) && Height(c) <= MAXBACKVER
    ensures Walks(code, c, TooDeep)
    decreases n
  {
    var k: nat :| k <= n && Height(FreeExec(code, c, k)) > MAXBACKVER;
    assert k > 0;
    var d := FreeStep(code, c);
    assert FreeExec(code, c, k) == FreeExec(code, d, k - 1);
    if Height(d) > MAXBACKVER {
      assert WalkStep(code, c) == TooDeep;
      assert WalkExec(code, TooDeep, 0) == TooDeep;
      assert WalkExec(code, c, 1) == TooDeep;
    } else {
      assert !Low(code, d, n - 1, MAXBACKVER);
      WalkGivenUp(code, d, n - 1);
      if WalkStep(code, c) == d {
        var m: nat :| WalkExec(code, d, m) == TooDeep;
        assert WalkExec(code, c, m + 1) == TooDeep;
      }
    }
  }

  // ---------- A piece of code inside other code ----------

  function ShiftBack(back: seq<int>, b: int): seq<int> {
    seq(|back|, i requires 0 <= i < |back| => back[i] + b)
  }

  function LiftWalk(c: Walk, b: int, back: seq<int>): Walk {
    match c
    case At(pc, bk) => At(pc + b, ShiftBack(bk, b) + back)
    case Back(bk) => Back(ShiftBack(bk, b) + back)
    case _ => c
  }

  lemma ShiftBackParts(bk: seq<int>, b: int, back: seq<int>)
    ensures bk != [] ==>
              && (ShiftBack(bk, b) + back)[0] == bk[0] + b
              && (ShiftBack(bk, b) + back)[1..] == ShiftBack(bk[1..], b) + back
    ensures |ShiftBack(bk, b) + back| == |bk| + |back|
  {
    if bk != [] {
      assert ShiftBack(bk, b)[1..] == ShiftBack(bk[1..], b);
    }
  }

  lemma ShiftBackPush(x: int, bk: seq<int>, b: int, back: seq<int>)
    ensures ShiftBack([x] + bk, b) + back == [x + b] + (ShiftBack(bk, b) + back)
  {
    assert ShiftBack([x] + bk, b) == [x + b] + ShiftBack(bk, b);
  }

  /** The walk looks one instruction ahead, and one back: the piece must not be affected by its surroundings. */
  predicate Fenced(P: seq<Instr>, b: nat, code: seq<Instr>) {
    && Embedded(P, b, code)
    && !IsBackAt(P, b + |code|)
    && (0 < b <= |P| ==> !P[b - 1].IBackCommit?)
  }

  lemma LiftWalkStep(P: seq<Instr>, b: nat, code: seq<Instr>, c: Walk, back: seq<int>)
    requires Fenced(P, b, code) && !FreeStep(code, c).Lost?
    ensures FreeStep(P, LiftWalk(c, b, back)) == LiftWalk(FreeStep(code, c), b, back)
  {
    ShiftBackParts(c.back, b, back);
    hide ShiftBack;
    if c.At? {
      var Q := P[b..b + |code|];
      assert P[b + c.pc] == Q[c.pc] == code[c.pc];
      assert c.pc + 1 < |code| ==> P[b + c.pc + 1] == Q[c.pc + 1];
      assert c.pc > 0 ==> P[b + c.pc - 1] == Q[c.pc - 1];
      if code[c.pc].IChoice? {
        ShiftBackPush(c.pc + code[c.pc].off, c.back, b, back);
      }
    }
  }

  lemma {:induction false} LiftWalkExec(P: seq<Instr>, b: nat, code: seq<Instr>, c: Walk, back: seq<int>, n: nat)
    requires Fenced(P, b, code) && !FreeExec(code, c, n).Lost?
    ensures FreeExec(P, LiftWalk(c, b, back), n) == LiftWalk(FreeExec(code, c, n), b, back)
    decreases n
  {
    hide FreeStep, LiftWalk, Fenced;
    if n > 0 {
      var d := FreeStep(code, c);
      if d.Lost? { FreeLost(code, n - 1); }
      LiftWalkStep(P, b, code, c, back);
      LiftWalkExec(P, b, code, d, back, n - 1);
    }
  }

  lemma LiftHeight(c: Walk, b: int, back: seq<int>)
    ensures Height(LiftWalk(c, b, back)) <= |back| + Height(c)
  {
  }

  /** What the walk through a piece of code comes to: its end, or the label 'fail'; and how many choices it needs. */
  ghost predicate WalkDoes(code: seq<Instr>, through: bool, h: nat) {
    Comes(code, At(0, []), if through then At(|code|, []) else Back([]), h)
  }

  lemma PieceWalks(P: seq<Instr>, b: nat, code: seq<Instr>, through: bool, back: seq<int>, h: nat)
    requires Fenced(P, b, code) && WalkDoes(code, through, h)
    ensures Comes(P, At(b, back), if through then At(b + |code|, back) else Back(back), |back| + h)
  {
    var c := At(0, []);
    var d := if through then At(|code|, []) else Back([]);
    assert ShiftBack([], b) + back == back;
    assert LiftWalk(c, b, back) == At(b, back);
    assert LiftWalk(d, b, back) == if through then At(b + |code|, back) else Back(back);
    var n: nat :| FreeExec(code, c, n) == d && Low(code, c, n, h);
    hide ShiftBack, LiftWalk, FreeExec, Height, Fenced;
    LiftWalkExec(P, b, code, c, back, n);
    forall k: nat | k <= n ensures Height(FreeExec(P, At(b, back), k)) <= |back| + h {
      NotLostBefore(code, c, k, n);
      LiftWalkExec(P, b, code, c, back, k);
      LiftHeight(FreeExec(code, c, k), b, back);
    }
    assert Low(P, At(b, back), n, |back| + h);
  }

  lemma NotLostBefore(code: seq<Instr>, c: Walk, k: nat, n: nat)
    requires k <= n && !FreeExec(code, c, n).Lost?
    ensures !FreeExec(code, c, k).Lost?
  {
    FreeMore(code, c, k, n - k);
    if FreeExec(code, c, k).Lost? { FreeLost(code, n - k); }
  }

  // ---------- Patterns that consume ----------

  /** Every match of e consumes something. */
  ghost predicate Advances(e: Peg) {
    forall s: seq<Byte>, i :: 0 <= i <= |s| && Sem(e, s, i).Ok? ==> Sem(e, s, i).j > i
  }

  /** In front of an IBack, or of a choice that starts with one: there the predicate '&' over a set has become part of a
      test. */
  predicate BlindAt(code: seq<Instr>, k: int) {
    IsBackAt(code, k + 1) || (0 <= k && k + 1 < |code| && code[k + 1].IChoice? && IsBackAt(code, k + 2))
  }

  /** The walk is at such a test. It takes the test's jump, or goes on behind it, but never both. */
  predicate AtBlindSpot(code: seq<Instr>, c: Walk) {
    c.At? && 0 <= c.pc < |code| && IsTest(code[c.pc]) && BlindAt(code, c.pc)
  }

  ghost predicate MeetsBlindSpot(code: seq<Instr>) {
    exists n: nat :: AtBlindSpot(code, WalkExec(code, At(0, []), n))
  }

  /** The walk comes to a blind spot. */
  ghost predicate Unsure(code: seq<Instr>, c: Walk) {
    exists n: nat :: AtBlindSpot(code, FreeExec(code, c, n))
  }

  lemma UnsureNow(code: seq<Instr>, c: Walk)
    requires AtBlindSpot(code, c)
    ensures Unsure(code, c)
  {
    assert AtBlindSpot(code, FreeExec(code, c, 0));
  }

  lemma UnsureLater(code: seq<Instr>, c: Walk, d: Walk, h: nat)
    requires Comes(code, c, d, h) && Unsure(code, d)
    ensures Unsure(code, c)
  {
    hide AtBlindSpot, Low, FreeExec;
    var n: nat :| FreeExec(code, c, n) == d && Low(code, c, n, h);
    var m: nat :| AtBlindSpot(code, FreeExec(code, d, m));
    FreeMore(code, c, n, m);
  }

  /** A walk that meets a blind spot in a piece of code meets it in the whole. */
  lemma PieceUnsure(P: seq<Instr>, b: nat, code: seq<Instr>, back: seq<int>)
    requires Fenced(P, b, code) && Unsure(code, At(0, []))
    ensures Unsure(P, At(b, back))
  {
    var c := At(0, []);
    var n: nat :| AtBlindSpot(code, FreeExec(code, c, n));
    var d := FreeExec(code, c, n);
    assert ShiftBack([], b) + back == back;
    assert LiftWalk(c, b, back) == At(b, back);
    hide ShiftBack;
    LiftWalkExec(P, b, code, c, back, n);
    var Q := P[b..b + |code|];
    assert P[b + d.pc] == Q[d.pc];
    assert d.pc + 1 < |code| ==> P[b + d.pc + 1] == Q[d.pc + 1];
    assert d.pc + 2 < |code| ==> P[b + d.pc + 2] == Q[d.pc + 2];
    assert AtBlindSpot(P, FreeExec(P, At(b, back), n));
  }

  /** The walk through the code ends, and tells whether the pattern can match without consuming; what it tells is true
      unless it meets a blind spot. */
  ghost predicate Checked(code: seq<Instr>, e: Peg) {
    && !IsBackAt(code, 0)
    && (code != [] ==> !code[|code| - 1].IBackCommit?)
    && exists through: bool, h: nat :: Tells(code, through, h, e)
  }

  /** The walk comes to its end or to 'fail'; it fails only where the pattern always consumes. */
  ghost predicate Tells(code: seq<Instr>, through: bool, h: nat, e: Peg) {
    WalkDoes(code, through, h) && (through || Unsure(code, At(0, [])) || Advances(e))
  }

  lemma TakeWalk(code: seq<Instr>, e: Peg) returns (through: bool, h: nat)
    requires Checked(code, e)
    ensures Tells(code, through, h, e)
  {
    through, h :| Tells(code, through, h, e);
  }
}
