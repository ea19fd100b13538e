/** Products and powers. */
module Arithmetic {
  function Power(b: nat, n: nat): (r: nat)
    ensures b > 0 ==> r > 0
    decreases n
  {
    if n == 0 then 1 else
      var p := Power(b, n - 1);
      MulSign(b, p);
      b * p
  }

  lemma MulSign(a: nat, b: nat)
    ensures a * b >= 0 && (a > 0 && b > 0 ==> a * b > 0)
  {
  }

  lemma {:induction false} PowerAdd(b: nat, m: nat, n: nat)
    ensures Power(b, m + n) == Power(b, m) * Power(b, n)
    decreases m
  {
    if m > 0 {
      PowerAdd(b, m - 1, n);
      assert Power(b, m + n) == b * (Power(b, m - 1) * Power(b, n));
      MulAssoc(b, Power(b, m - 1), Power(b, n));
    }
  }

  lemma {:induction false} PowerPower(b: nat, m: nat, n: nat)
    ensures Power(Power(b, m), n) == Power(b, m * n)
    decreases n
  {
    if n > 0 {
      PowerPower(b, m, n - 1);
      assert m * n == m + m * (n - 1);
      PowerAdd(b, m, m * (n - 1));
    }
  }

  lemma MulAssoc(a: int, b: int, c: int)
    ensures a * (b * c) == (a * b) * c
  {
  }

  lemma MulLess(a: nat, b: nat, c: nat)
    requires a <= b
    ensures a * c <= b * c && c * a <= c * b
  {
  }

  lemma MulStrict(a: nat, b: nat, c: nat)
    requires a < b && c > 0
    ensures a * c < b * c
  {
  }

  lemma {:induction false} PowerGrows(b: nat, m: nat, n: nat)
    requires b > 0 && m <= n
    ensures Power(b, m) <= Power(b, n)
    decreases n
  {
    if m < n {
      PowerGrows(b, m, n - 1);
      MulLess(1, b, Power(b, n - 1));
    }
  }
}
