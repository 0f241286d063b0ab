/** Integer powers, factorials and rounding over exact reals, and how products and quotients compare. */
module RealMath {

  function Pow(x: real, n: nat): real {
    if n == 0 then 1.0 else x * Pow(x, n - 1)
  }

  /** n! as a real; 1 for n <= 1. */
  function Fact(n: nat): (f: real)
    ensures f >= 1.0
  {
    if n <= 1 then 1.0 else
      var smaller := Fact(n - 1);
      var f := (n as real) * smaller;
      MulLowerBound(n as real, smaller);
      f
  }

  /** The least integer not below x. */
  function Ceil(x: real): (n: int)
    ensures (n - 1) as real < x <= n as real
  {
    -((-x).Floor)
  }

  function Fraction(x: real): real { x - x.Floor as real }

  function Max(x: real, y: real): real { if x >= y then x else y }

  function Min(x: real, y: real): real { if x <= y then x else y }

  /** Integer products grow in each factor. */
  lemma ProductMono(a: int, b: int, c: int, d: int)
    requires a <= b && 0 <= c <= d && (c == d || 0 <= b)
    ensures a * c <= b * d
  {
    assert (b - a) * c >= 0;
    assert b * d - b * c == b * (d - c);
  }

  lemma MulLowerBound(x: real, y: real)
    requires x >= 1.0 && y >= 1.0
    ensures x * y >= 1.0
  {
  }

  lemma MulMono(a: real, b: real, x: real)
    requires a <= b && x >= 0.0
    ensures a * x <= b * x && x * a <= x * b
  {
  }

  lemma MulMono2(a: real, b: real, x: real, y: real)
    requires 0.0 <= a <= b && 0.0 <= x <= y
    ensures 0.0 <= a * x <= b * y
  {
  }

  /** Cross-multiplied comparison of two quotients with positive denominators. */
  lemma QuotientLe(a: real, b: real, x: real, y: real)
    requires x > 0.0 && y > 0.0
    ensures a / x <= b / y <==> a * y <= b * x
  {
  }

  lemma DivMono(a: real, b: real, x: real)
    requires a <= b && x > 0.0
    ensures a / x <= b / x
  {
  }

  /** A non-negative numerator over a larger denominator gives a smaller quotient. */
  lemma DivAnti(a: real, x: real, y: real)
    requires a >= 0.0 && 0.0 < x <= y
    ensures 0.0 <= a / y <= a / x
  {
  }

  lemma {:induction false} PowNonNeg(x: real, n: nat)
    requires x >= 0.0
    ensures Pow(x, n) >= 0.0
    ensures x > 0.0 ==> Pow(x, n) > 0.0
  {
    if n > 0 {
      PowNonNeg(x, n - 1);
    }
  }

  lemma {:induction false} PowMono(x: real, y: real, n: nat)
    requires 0.0 <= x <= y
    ensures 0.0 <= Pow(x, n) <= Pow(y, n)
  {
    if n > 0 {
      PowMono(x, y, n - 1);
      MulMono2(x, y, Pow(x, n - 1), Pow(y, n - 1));
    }
  }

  lemma Regroup(a: real, b: real, c: real)
    ensures (a * b) * c == a * (b * c)
  {
  }

  lemma {:induction false} PowAdd(x: real, m: nat, n: nat)
    ensures Pow(x, m + n) == Pow(x, m) * Pow(x, n)
  {
    if m > 0 {
      PowAdd(x, m - 1, n);
      Regroup(x, Pow(x, m - 1), Pow(x, n));
      PowStep(x, m + n);
      PowStep(x, m);
      hide Pow;
    }
  }

  lemma PowStep(x: real, n: nat)
    requires n >= 1
    ensures Pow(x, n) == x * Pow(x, n - 1)
  {
  }

  lemma PowSplit(x: real, k: nat, c: nat)
    requires k <= c
    ensures Pow(x, c) == Pow(x, k) * Pow(x, c - k)
  {
    hide Pow;
    PowAdd(x, k, c - k);
    assert k + (c - k) == c;
  }
}
