/** Natural numbers as sequences of 32-bit words, the lowest first (dtoa.c:533-538, the branch with ULLong). */
module DtoaWords {
  import opened Arithmetic

  const BASE := 0x1_0000_0000
  const WRAP := 0x1_0000_0000_0000_0000

  type Word = x: int | 0 <= x < BASE

  function Val(x: seq<Word>): (r: nat)
    decreases |x|
  {
    if x == [] then 0 else x[0] + BASE * Val(x[1..])
  }

  lemma {:induction false} ValAppend(x: seq<Word>, y: seq<Word>)
    ensures Val(x + y) == Val(x) + Power(BASE, |x|) * Val(y)
    decreases |x|
  {
    if x == [] {
      assert x + y == y;
    } else {
      assert (x + y)[1..] == x[1..] + y;
      ValAppend(x[1..], y);
      MulAssoc(BASE, Power(BASE, |x| - 1), Val(y));
    }
  }

  lemma ValOne(w: Word)
    ensures Val([w]) == w
  {
    assert [w][1..] == [];
  }

  /** One more word at the top. */
  lemma ValTop(x: seq<Word>, i: nat)
    requires i < |x|
    ensures Val(x[..i + 1]) == Val(x[..i]) + Power(BASE, i) * x[i]
  {
    assert x[..i + 1] == x[..i] + [x[i]];
    ValOne(x[i]);
    ValAppend(x[..i], [x[i]]);
  }

  lemma {:induction false} ValBound(x: seq<Word>)
    ensures Val(x) < Power(BASE, |x|)
    decreases |x|
  {
    if x != [] { ValBound(x[1..]); }
  }

  lemma {:induction false} ValZeros(x: seq<Word>)
    requires forall i :: 0 <= i < |x| ==> x[i] == 0
    ensures Val(x) == 0
    decreases |x|
  {
    if x != [] { ValZeros(x[1..]); }
  }

  /** A number with a top word other than 0 needs all its words. */
  lemma ValAtLeast(x: seq<Word>)
    requires x != [] && x[|x| - 1] != 0
    ensures Val(x) >= Power(BASE, |x| - 1)
  {
    var n := |x| - 1;
    ValTop(x, n);
    assert x[..n + 1] == x;
    MulLess(1, x[n], Power(BASE, n));
  }

  /** Without leading zeros the longer number is greater. */
  lemma LongerIsGreater(x: seq<Word>, y: seq<Word>)
    requires |x| < |y| && y[|y| - 1] != 0
    ensures Val(x) < Val(y)
  {
    ValBound(x);
    ValAtLeast(y);
    PowerGrows(BASE, |x|, |y| - 1);
  }

  /** The highest word in which they differ decides. */
  lemma TopDecides(x: seq<Word>, y: seq<Word>, i: nat)
    requires |x| == |y| && i < |x| && x[i] < y[i] && x[i + 1..] == y[i + 1..]
    ensures Val(x) < Val(y)
  {
    ValAppend(x[..i + 1], x[i + 1..]);
    ValAppend(y[..i + 1], y[i + 1..]);
    assert x == x[..i + 1] + x[i + 1..] && y == y[..i + 1] + y[i + 1..];
    ValTop(x, i);
    ValTop(y, i);
    ValBound(x[..i]);
    MulLess(x[i] + 1, y[i], Power(BASE, i));
    assert Power(BASE, i) * (x[i] + 1) == Power(BASE, i) * x[i] + Power(BASE, i);
  }

  /** Leading zeros add nothing. */
  lemma ValTrim(x: seq<Word>, n: nat)
    requires n <= |x| && forall i :: n <= i < |x| ==> x[i] == 0
    ensures Val(x[..n]) == Val(x)
  {
    assert x == x[..n] + x[n..];
    ValAppend(x[..n], x[n..]);
    ValZeros(x[n..]);
  }
}
