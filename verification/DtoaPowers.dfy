/** Multiplying by a power of five, with a list of powers that grows when it is needed (dtoa.c:915-972). */
module DtoaPowers {
  import opened Arithmetic
  import opened DtoaWords
  import opened DtoaBigint

  /** What the i-th number of the list is: each is the square of the one before it. */
  function Fives(i: nat): (r: nat)
    ensures r == Power(5, 4 * Power(2, i)) && r > 0
    decreases i
  {
    FivesAre(i);
    if i == 0 then 625 else Fives(i - 1) * Fives(i - 1)
  }

  lemma {:induction false} FivesAre(i: nat)
    ensures Power(5, 4) == 625
    ensures i > 0 ==> Power(5, 4 * Power(2, i)) == Power(5, 4 * Power(2, i - 1)) * Power(5, 4 * Power(2, i - 1))
  {
    assert Power(5, 2) == 5 * Power(5, 1);
    PowerAdd(5, 2, 2);
    if i > 0 { PowerAdd(5, 4 * Power(2, i - 1), 4 * Power(2, i - 1)); }
  }

  /** b times the k-th power of E is the number wanted. */
  ghost predicate Owes(b: nat, E: nat, k: nat, wanted: nat) {
    b * Power(E, k) == wanted
  }

  lemma OwesLess(b: nat, E: nat, k: nat, wanted: nat)
    requires Owes(b, E, k, wanted)
    ensures k % 2 == 1 ==> Owes(b * E, E * E, k / 2, wanted)
    ensures k % 2 == 0 ==> Owes(b, E * E, k / 2, wanted)
  {
    PowerAdd(E, 2 * (k / 2), k % 2);
    PowerPower(E, 2, k / 2);
    assert Power(E, 2) == E * Power(E, 1) && Power(E, 1) == E * Power(E, 0);
    OwesSplit(b, E, Power(E * E, k / 2), Power(E, k), k);
  }

  lemma OwesSplit(b: nat, E: nat, rest: nat, all: nat, k: nat)
    requires all == rest * (if k % 2 == 1 then E else 1)
    ensures b * all == if k % 2 == 1 then (b * E) * rest else b * rest
  {
    assert b * (rest * E) == (b * E) * rest;
  }

  lemma OwesDone(b: nat, E: nat, wanted: nat)
    requires Owes(b, E, 0, wanted)
    ensures b == wanted
  {
  }

  /** p05 */
  function SmallFive(i: nat): nat {
    if i == 1 then 5 else if i == 2 then 25 else if i == 3 then 125 else 1
  }

  /** k & 3 and k >> 2 */
  lemma OwesFirst(b: nat, k: nat)
    ensures Owes(b * SmallFive(k % 4), Fives(0), k / 4, b * Power(5, k))
  {
    assert Power(5, 1) == 5 * Power(5, 0) && Power(5, 2) == 5 * Power(5, 1) && Power(5, 3) == 5 * Power(5, 2);
    assert Power(5, k % 4) == SmallFive(k % 4);
    FivesAre(0);
    PowerAdd(5, k % 4, 4 * (k / 4));
    PowerPower(5, 4, k / 4);
    MulAssoc(b, Power(5, k % 4), Power(625, k / 4));
  }

  ghost predicate Full(p: Bigint)
    reads p`wds, p.x
  {
    p.Valid() && p.wds >= 1 && p.x[p.wds - 1] != 0
  }

  ghost function FullValue(p: Bigint): nat
    reads p`wds, p.x
    requires Full(p)
  {
    p.Value()
  }

  ghost predicate IsFive(p: Bigint, i: nat)
    reads p`wds, p.x
  {
    Full(p) && p.Value() == Fives(i)
  }

  /** p5s: the fourth, eighth, sixteenth... powers of 5, as far as they have been needed. */
  class PowerList {
    var p5s: Bigint?
    ghost var list: seq<Bigint>

    ghost predicate Valid()
      reads this, list, set p | p in list :: p.x
    {
      && p5s == Head()
      && (forall i, j :: 0 <= i < j < |list| ==> list[i] != list[j])
      && forall i :: 0 <= i < |list| ==> IsFive(list[i], i) && list[i].next == Behind(i)
    }

    ghost function Head(): Bigint?
      reads this
    {
      if list == [] then null else list[0]
    }

    ghost function Behind(i: nat): Bigint?
      reads this
    {
      if i + 1 < |list| then list[i + 1] else null
    }

    /** A number that is not part of the list. */
    ghost predicate Apart(b: Bigint)
      reads this, list
    {
      b !in list && forall p :: p in list ==> p.x != b.x
    }

    constructor ()
      ensures Valid() && list == []
    {
      p5s, list := null, [];
    }

    method First() returns (p5: Bigint)
      requires Valid()
      modifies this
      ensures Valid() && list != [] && p5 == list[0]
      ensures list == if old(list) == [] then [p5] else old(list)
      ensures old(list) == [] ==> fresh(p5) && fresh(p5.x)
    {
      if p5s == null {
        var p := FromInt(625);
        TrimmedFull(p);
        p5s := p;
        list := [p];
      }
      p5 := p5s;
    }

    /** The number behind the i-th one, which is added if there is none. */
    method Next(ghost i: nat, p5: Bigint) returns (p51: Bigint)
      requires Valid() && i < |list| && p5 == list[i]
      modifies this, p5`next
      ensures Valid() && i + 1 < |list| && p51 == list[i + 1]
      ensures list == if i + 1 < |old(list)| then old(list) else old(list) + [p51]
      ensures i + 1 >= |old(list)| ==> fresh(p51) && fresh(p51.x)
    {
      hide IsFive;
      if p5.next != null {
        p51 := p5.next;
      } else {
        p51 := Squared(p5, i);
        p5.next := p51;
        list := list + [p51];
      }
    }
  }

  method Squared(p5: Bigint, ghost i: nat) returns (p51: Bigint)
    requires IsFive(p5, i)
    ensures fresh(p51) && fresh(p51.x) && IsFive(p51, i + 1) && p51.next == null
  {
    hide Val, Fives;
    p51 := Mult(p5, p5);
    NextFive(i);
    ProductFull(p51);
  }

  lemma NextFive(i: nat)
    ensures Fives(i + 1) == Fives(i) * Fives(i) && Fives(i + 1) > 0
  {
  }

  lemma NonEmpty(w: seq<Word>)
    requires Val(w) > 0
    ensures w != []
  {
  }

  lemma ProductFull(p: Bigint)
    requires p.Valid() && (p.wds > 0 ==> p.x[p.wds - 1] != 0) && p.Value() > 0
    ensures Full(p)
  {
    NonEmpty(p.Words());
  }

  lemma TrimmedFull(p: Bigint)
    requires p.Valid() && p.Trimmed() && p.wds >= 1 && p.Value() > 0
    ensures Full(p)
  {
    if p.wds == 1 {
      assert p.Words() == [p.x[0]];
      ValOne(p.x[0]);
    }
  }

  lemma FullPositive(p: Bigint)
    requires Full(p)
    ensures p.Valid() && p.Value() > 0
  {
    ValAtLeast(p.Words());
  }

  lemma SmallProduct(b: nat, i: nat)
    requires b > 0
    ensures b * SmallFive(i) > 0
  {
  }

  /** The number is multiplied by 5, 25 or 125 first. */
  method SmallFives(b: Bigint, i: nat) returns (r: Bigint)
    requires Full(b) && i < 4
    modifies b, b.x
    ensures Full(r) && r.Value() == old(b.Value()) * SmallFive(i)
    ensures r == b || (fresh(r) && fresh(r.x))
  {
    hide Val;
    FullPositive(b);
    SmallProduct(b.Value(), i);
    r := b;
    if i != 0 {
      r := MultAdd(b, SmallFive(i), 0);
      TrimmedFull(r);
    }
  }

  /** Only new numbers have been put at the end of the list. */
  twostate predicate Grown(powers: PowerList)
    reads powers
  {
    old(powers.list) <= powers.list
    && forall p :: p in powers.list && p !in old(powers.list) ==> fresh(p) && fresh(p.x)
  }

  lemma TheFive(powers: PowerList, i: nat)
    requires powers.Valid() && i < |powers.list|
    ensures IsFive(powers.list[i], i)
  {
  }

  /** The loop of pow5mult. */
  method TimesFives(powers: PowerList, b: Bigint, k0: nat, ghost wanted: nat) returns (r: Bigint)
    requires powers.Valid() && Full(b) && powers.Apart(b) && k0 > 0 && Owes(b.Value(), Fives(0), k0, wanted)
    modifies powers, powers.list
    ensures powers.Valid() && powers.Apart(r) && Grown(powers)
    ensures Full(r) && r.Value() == wanted
    ensures r == b || (fresh(r) && fresh(r.x))
  {
    hide Val, Power, Fives, Owes, IsFive, Full, PowerList.Valid;
    FullPositive(b);
    r := b;
    var k := k0;
    var p5 := powers.First();
    ghost var i := 0;
    while true
      invariant k > 0 && powers.Valid() && powers.Apart(r) && Full(r) && Grown(powers)
      invariant i < |powers.list| && p5 == powers.list[i]
      invariant r == b || (fresh(r) && fresh(r.x))
      invariant Owes(FullValue(r), Fives(i), k, wanted)
      decreases k
    {
      TheFive(powers, i);
      r := TimesIfOdd(r, p5, i, k, wanted);
      k := k / 2;
      if k == 0 { break; }
      assert p5 in powers.list && (p5 in old(powers.list) || fresh(p5));
      p5 := powers.Next(i, p5);
      i := i + 1;
    }
    FullPositive(r);
    OwesDone(r.Value(), Fives(i + 1), wanted);
  }

  /** pow5mult */
  method Pow5Mult(powers: PowerList, b: Bigint, k0: nat) returns (r: Bigint)
    requires powers.Valid() && Full(b) && powers.Apart(b)
    modifies powers, powers.list, b, b.x
    ensures powers.Valid() && powers.Apart(r) && Grown(powers)
    ensures Full(r) && r.Value() == old(b.Value()) * Power(5, k0)
    ensures r == b || (fresh(r) && fresh(r.x))
  {
    hide Val, Power, Fives, Owes, IsFive;
    ghost var wanted := b.Value() * Power(5, k0);
    OwesFirst(b.Value(), k0);
    r := SmallFives(b, k0 % 4);
    var k := k0 / 4;
    if k == 0 {
      OwesDone(r.Value(), Fives(0), wanted);
    } else {
      r := TimesFives(powers, r, k, wanted);
    }
  }

  /** The lowest bit of k says whether this power is wanted. */
  method TimesIfOdd(b: Bigint, p5: Bigint, ghost i: nat, k: nat, ghost wanted: nat) returns (b1: Bigint)
    requires Full(b) && IsFive(p5, i) && Owes(FullValue(b), Fives(i), k, wanted)
    ensures b1 == b || (fresh(b1) && fresh(b1.x))
    ensures Full(b1) && Owes(FullValue(b1), Fives(i + 1), k / 2, wanted)
  {
    hide Val, Owes, Fives;
    OwesLess(b.Value(), Fives(i), k, wanted);
    NextFive(i);
    b1 := b;
    if k % 2 == 1 {
      FullPositive(b);
      FullPositive(p5);
      MulSign(b.Value(), p5.Value());
      b1 := Mult(b, p5);
      ProductFull(b1);
    }
  }
}
