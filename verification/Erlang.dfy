/**
 The waiting factor of internal/optimizer/queue.go: the power/factorial loops that
 compute it, the textbook M/M/c delay probability it is a multiple of, the Erlang-B
 recurrence it can be obtained from, and its growth in the offered load.
 */
module Erlang {
  import opened RealMath

  /** rho^k / k! */
  function Term(rho: real, k: nat): real {
    Pow(rho, k) / Fact(k)
  }

  /** The sum of Term(rho, k) over k < n. */
  function SumTerms(rho: real, n: nat): real {
    if n == 0 then 0.0 else SumTerms(rho, n - 1) + Term(rho, n - 1)
  }

  lemma TermNonNeg(rho: real, k: nat)
    requires rho >= 0.0
    ensures Term(rho, k) >= 0.0
    ensures rho > 0.0 ==> Term(rho, k) > 0.0
  {
    PowNonNeg(rho, k);
    DivMono(0.0, Pow(rho, k), Fact(k));
  }

  lemma {:induction false} SumTermsPositive(rho: real, n: nat)
    requires rho >= 0.0
    ensures SumTerms(rho, n) >= 0.0
    ensures n >= 1 ==> SumTerms(rho, n) >= 1.0
  {
    if n >= 1 {
      SumTermsPositive(rho, n - 1);
      TermNonNeg(rho, n - 1);
      if n == 1 {
        assert Term(rho, 0) == 1.0;
      }
    }
  }

  /** The server share still free at offered load rho. */
  function Slack(rho: real, c: nat): (s: real)
    requires c >= 1 && 0.0 <= rho < c as real
    ensures 0.0 < s <= 1.0
  {
    QuotientLe(rho, 1.0, c as real, 1.0);
    QuotientLe(0.0, rho, 1.0, c as real);
    assert rho / (c as real) != 1.0 by {
      assert (rho / (c as real)) * (c as real) == rho;
    }
    1.0 - rho / (c as real)
  }

  /** The denominator shared by the code and the textbook formula. */
  function Normaliser(rho: real, c: nat): (d: real)
    requires c >= 1 && 0.0 <= rho < c as real
    ensures d >= 1.0
  {
    SumTermsPositive(rho, c);
    TermNonNeg(rho, c);
    DivMono(0.0, Term(rho, c), Slack(rho, c));
    SumTerms(rho, c) + Term(rho, c) / Slack(rho, c)
  }

  /** The M/M/c delay probability of the queueing literature (Erlang's C formula). */
  function DelayProbability(rho: real, c: nat): real
    requires c >= 1 && 0.0 <= rho < c as real
  {
    (Term(rho, c) / Slack(rho, c)) / Normaliser(rho, c)
  }

  /** What erlangC returns: 1 when saturated, otherwise (1 - rho/c) times the textbook value. */
  function WaitFactor(rho: real, c: nat): real
    requires rho >= 0.0
  {
    if rho >= c as real then 1.0 else Slack(rho, c) * DelayProbability(rho, c)
  }

  method Factorial(n: int) returns (result: real)
    ensures result == Fact(if n < 0 then 0 else n)
  {
    if n <= 1 {
      return 1.0;
    }
    result := 1.0;
    var i := 2;
    while i <= n
      invariant 2 <= i <= n + 1
      invariant result == Fact(i - 1)
    {
      result := result * (i as real);
      i := i + 1;
    }
  }

  /** math.Pow with the non-negative integer exponents erlangC passes. */
  method IntegerPow(x: real, n: nat) returns (p: real)
    ensures p == Pow(x, n)
  {
    p := 1.0;
    var i := 0;
    while i < n
      invariant 0 <= i <= n
      invariant p == Pow(x, i)
    {
      p := x * p;
      i := i + 1;
    }
  }

  method ErlangC(rho: real, c: nat) returns (p: real)
    requires rho >= 0.0
    ensures p == WaitFactor(rho, c)
  {
    if rho >= c as real {
      return 1.0;
    }
    var power := IntegerPow(rho, c);
    var factorial := Factorial(c);
    var numerator := power / factorial;
    var sum := 0.0;
    var k := 0;
    while k < c
      invariant 0 <= k <= c
      invariant sum == SumTerms(rho, k)
    {
      power := IntegerPow(rho, k);
      factorial := Factorial(k);
      sum := sum + power / factorial;
      k := k + 1;
    }
    ghost var slack := Slack(rho, c);
    var denominator := sum + numerator / (1.0 - rho / c as real);
    assert denominator == Normaliser(rho, c);
    p := numerator / denominator;
    FactorOut(numerator, slack, denominator);
  }

  lemma FactorOut(n: real, s: real, d: real)
    requires s > 0.0 && d > 0.0
    ensures s * ((n / s) / d) == n / d
  {
  }

  /** The code's own quotient: numerator over normaliser. */
  lemma WaitFactorQuotient(rho: real, c: nat)
    requires c >= 1 && 0.0 <= rho < c as real
    ensures WaitFactor(rho, c) == Term(rho, c) / Normaliser(rho, c)
  {
  }

  // ---------- Erlang-B ----------

  /** The Erlang-B blocking probability by its recurrence on the server count. */
  function ErlangB(rho: real, n: nat): (b: real)
    requires rho >= 0.0
    ensures 0.0 <= b <= 1.0
  {
    if n == 0 then 1.0 else
      var b := ErlangB(rho, n - 1);
      assert rho * b >= 0.0;
      DivMono(0.0, rho * b, n as real + rho * b);
      DivMono(rho * b, n as real + rho * b, n as real + rho * b);
      (rho * b) / (n as real + rho * b)
  }

  lemma TermStep(rho: real, n: nat)
    requires n >= 1
    ensures Term(rho, n) * n as real == rho * Term(rho, n - 1)
  {
  }

  lemma Cancel(x: real, y: real, f: real)
    requires f != 0.0 && x * f == y * f
    ensures x == y
  {
  }

  /** The recurrence really is the share of the last term among the terms up to n. */
  lemma {:induction false} ErlangBIsTermShare(rho: real, n: nat)
    requires rho >= 0.0
    ensures ErlangB(rho, n) * (SumTerms(rho, n) + Term(rho, n)) == Term(rho, n)
  {
    if n > 0 {
      ErlangBIsTermShare(rho, n - 1);
      ErlangBShareStep(rho, n);
    }
  }

  lemma ErlangBUnfold(rho: real, n: nat)
    requires rho >= 0.0 && n >= 1
    ensures n as real + rho * ErlangB(rho, n - 1) > 0.0
    ensures ErlangB(rho, n) == (rho * ErlangB(rho, n - 1)) / (n as real + rho * ErlangB(rho, n - 1))
  {
    MulMono2(0.0, rho, 0.0, ErlangB(rho, n - 1));
  }

  lemma SumTermsUnfold(rho: real, n: nat)
    requires n >= 1
    ensures SumTerms(rho, n) == SumTerms(rho, n - 1) + Term(rho, n - 1)
  {
  }

  lemma ErlangBShareStep(rho: real, n: nat)
    requires rho >= 0.0 && n >= 1
    requires ErlangB(rho, n - 1) * (SumTerms(rho, n - 1) + Term(rho, n - 1)) == Term(rho, n - 1)
    ensures ErlangB(rho, n) * (SumTerms(rho, n) + Term(rho, n)) == Term(rho, n)
  {
    hide *;
    ErlangBUnfold(rho, n);
    SumTermsUnfold(rho, n);
    TermStep(rho, n);
    var b, s0, t := ErlangB(rho, n - 1), SumTerms(rho, n - 1), Term(rho, n - 1);
    var q, s, u := ErlangB(rho, n), SumTerms(rho, n), Term(rho, n);
    assert q * (s + u) == u by {
      ShareStep(rho, n as real, b, s0, s, t, u, q);
    }
  }

  lemma ShareStep(rho: real, n: real, b: real, s0: real, s: real, t: real, u: real, q: real)
    requires rho >= 0.0 && n >= 1.0 && b >= 0.0 && s == s0 + t
    requires b * (s0 + t) == t && u * n == rho * t
    requires n + rho * b > 0.0 && q == (rho * b) / (n + rho * b)
    ensures q * (s + u) == u
  {
  }

  /** erlangC through Erlang-B: (1-r)B / (1-r+rB) with r = rho/c, hence between 0 and 1-r. */
  lemma WaitFactorViaErlangB(rho: real, c: nat)
    requires c >= 1 && 0.0 <= rho < c as real
    ensures var r := rho / c as real;
            var b := ErlangB(rho, c);
            && 1.0 - r + r * b > 0.0
            && WaitFactor(rho, c) == ((1.0 - r) * b) / (1.0 - r + r * b)
            && 0.0 <= WaitFactor(rho, c) <= 1.0 - r
  {
    hide *;
    var r, b, x, s, n := rho / c as real, ErlangB(rho, c), Slack(rho, c), SumTerms(rho, c), Term(rho, c);
    var d, w := Normaliser(rho, c), WaitFactor(rho, c);
    assert b * (s + n) == n by { ErlangBIsTermShare(rho, c); }
    assert s >= 1.0 by { SumTermsPositive(rho, c); }
    assert n >= 0.0 by { TermNonNeg(rho, c); }
    assert w == n / d by { WaitFactorQuotient(rho, c); }
    assert r >= 0.0 by { DivMono(0.0, rho, c as real); }
    assert x == 1.0 - r by { SlackIs(rho, c); }
    assert d == s + n / x by { NormaliserIs(rho, c); }
    SharePacked(x, r, b, s, n, d, w);
  }

  lemma SlackIs(rho: real, c: nat)
    requires c >= 1 && 0.0 <= rho < c as real
    ensures Slack(rho, c) == 1.0 - rho / c as real
  {
  }

  lemma SharePacked(x: real, r: real, b: real, s: real, n: real, d: real, w: real)
    requires 0.0 < x && x == 1.0 - r && r >= 0.0 && 0.0 <= b <= 1.0 && s >= 1.0 && n >= 0.0
    requires b * (s + n) == n && d == s + n / x && d > 0.0 && w == n / d
    ensures 1.0 - r + r * b > 0.0
    ensures w == ((1.0 - r) * b) / (1.0 - r + r * b) && 0.0 <= w <= 1.0 - r
  {
    ShareOfNormaliser(x, r, b, s, n);
    BoundedShare(x, r, b);
  }

  lemma ShareOfNormaliser(x: real, r: real, b: real, s: real, n: real)
    requires 0.0 < x && r == 1.0 - x && r >= 0.0 && 0.0 <= b <= 1.0 && s >= 1.0 && n >= 0.0
    requires b * (s + n) == n
    ensures x + r * b > 0.0 && s + n / x > 0.0
    ensures n / (s + n / x) == (x * b) / (x + r * b)
  {
  }

  lemma BoundedShare(x: real, r: real, b: real)
    requires 0.0 < x && 0.0 <= r && x + r == 1.0 && 0.0 <= b <= 1.0 && x + r * b > 0.0
    ensures 0.0 <= (x * b) / (x + r * b) <= x
  {
    ShareBelow(x, r, b);
    BoundedQuotient(x, b, x + r * b);
  }

  lemma ShareBelow(x: real, r: real, b: real)
    requires 0.0 <= x && x + r == 1.0 && 0.0 <= b <= 1.0
    ensures b <= x + r * b
  {
    MulMono(b, 1.0, x);
    assert x * b + r * b == (x + r) * b;
  }

  lemma BoundedQuotient(x: real, b: real, d: real)
    requires 0.0 < x && 0.0 <= b <= d && d > 0.0
    ensures 0.0 <= (x * b) / d <= x
  {
    MulMono2(0.0, x, 0.0, b);
    MulMono(b, d, x);
    QuotientLe(x * b, x, d, 1.0);
    DivMono(0.0, x * b, d);
  }

  // ---------- growth in the offered load ----------

  /** a^c b^k wb <= b^c a^k wa for k <= c, a <= b and wb <= wa. */
  lemma PowersCross(a: real, b: real, k: nat, c: nat, wa: real, wb: real)
    requires 0.0 <= a <= b && k <= c && 0.0 <= wb <= wa
    ensures (Pow(a, c) * Pow(b, k)) * wb <= (Pow(b, c) * Pow(a, k)) * wa
  {
    hide Pow;
    var ac, bc, pa, pb, qa, qb := Pow(a, c), Pow(b, c), Pow(a, k), Pow(b, k), Pow(a, c - k), Pow(b, c - k);
    assert ac == pa * qa by { PowSplit(a, k, c); }
    assert bc == pb * qb by { PowSplit(b, k, c); }
    assert 0.0 <= qa <= qb by { PowMono(a, b, c - k); }
    assert pa >= 0.0 by { PowNonNeg(a, k); }
    assert pb >= 0.0 by { PowNonNeg(b, k); }
    FactorsCross(ac, bc, pa, pb, qa, qb, wa, wb);
  }

  lemma FactorsCross(ac: real, bc: real, pa: real, pb: real, qa: real, qb: real, wa: real, wb: real)
    requires ac == pa * qa && bc == pb * qb
    requires pa >= 0.0 && pb >= 0.0 && 0.0 <= qa <= qb && 0.0 <= wb <= wa
    ensures (ac * pb) * wb <= (bc * pa) * wa
  {
    var m := pa * pb;
    assert m >= 0.0;
    MulMono2(qa, qb, m, m);
    MulMono2(qa * m, qb * m, wb, wa);
    SameProduct(ac, pa * qa, pb);
    SameProduct(bc, pb * qb, pa);
    SameProduct(ac * pb, qa * m, wb);
    SameProduct(bc * pa, qb * m, wa);
  }

  /** Equal factors give equal products; the solver does not substitute into products by itself. */
  lemma SameProduct(x: real, y: real, z: real)
    requires x == y
    ensures x * z == y * z && z * x == z * y
  {
  }

  lemma TermsCross(a: real, b: real, k: nat, c: nat, wa: real, wb: real)
    requires 0.0 <= a <= b && k <= c && 0.0 <= wb <= wa
    ensures (Term(a, c) * Term(b, k)) * wb <= (Term(b, c) * Term(a, k)) * wa
  {
    PowersCross(a, b, k, c, wa, wb);
    CrossOverFactorials(Pow(a, c), Pow(b, k), Pow(b, c), Pow(a, k), Fact(c), Fact(k), wa, wb);
  }

  lemma CrossOverFactorials(pac: real, pbk: real, pbc: real, pak: real, fc: real, fk: real, wa: real, wb: real)
    requires fc >= 1.0 && fk >= 1.0
    requires (pac * pbk) * wb <= (pbc * pak) * wa
    ensures ((pac / fc) * (pbk / fk)) * wb <= ((pbc / fc) * (pak / fk)) * wa
  {
  }

  lemma {:induction false} SumsCross(a: real, b: real, n: nat, c: nat, wa: real, wb: real)
    requires 0.0 <= a <= b && n <= c && 0.0 <= wb <= wa
    ensures (Term(a, c) * SumTerms(b, n)) * wb <= (Term(b, c) * SumTerms(a, n)) * wa
  {
    if n > 0 {
      SumsCross(a, b, n - 1, c, wa, wb);
      TermsCross(a, b, n - 1, c, wa, wb);
      Distribute(Term(a, c), SumTerms(b, n - 1), Term(b, n - 1), wb);
      Distribute(Term(b, c), SumTerms(a, n - 1), Term(a, n - 1), wa);
    }
  }

  lemma Distribute(t: real, x: real, y: real, z: real)
    ensures (t * (x + y)) * z == (t * x) * z + (t * y) * z
  {
  }

  /** (1-b)/(1-b/c) <= (1-a)/(1-a/c): the saturation term shrinks too. */
  lemma SlackCross(a: real, b: real, c: nat, wa: real, wb: real)
    requires c >= 1 && 0.0 <= a <= b < 1.0 && wa == 1.0 - a && wb == 1.0 - b
    ensures wb / Slack(b, c) <= wa / Slack(a, c)
  {
    var ra, rb := a / c as real, b / c as real;
    DivMono(a, b, c as real);
    SlackAlgebra(a, b, ra, rb, c as real);
    QuotientLe(wb, wa, Slack(b, c), Slack(a, c));
  }

  lemma SlackAlgebra(a: real, b: real, ra: real, rb: real, c: real)
    requires c >= 1.0 && ra * c == a && rb * c == b && ra <= rb
    ensures (1.0 - b) * (1.0 - ra) <= (1.0 - a) * (1.0 - rb)
  {
  }

  lemma NormalisersCross(a: real, b: real, c: nat, wa: real, wb: real)
    requires c >= 1 && 0.0 <= a <= b < 1.0 && wa == 1.0 - a && wb == 1.0 - b
    ensures (Term(a, c) * Normaliser(b, c)) * wb <= (Term(b, c) * Normaliser(a, c)) * wa
  {
    hide *;
    var na, nb, sa, sb, x, y := Term(a, c), Term(b, c), SumTerms(a, c), SumTerms(b, c), Slack(a, c), Slack(b, c);
    var da, db := Normaliser(a, c), Normaliser(b, c);
    assert na >= 0.0 && nb >= 0.0 by {
      TermNonNeg(a, c);
      TermNonNeg(b, c);
    }
    assert da == sa + na / x && db == sb + nb / y by {
      NormaliserIs(a, c);
      NormaliserIs(b, c);
    }
    assert (na * sb) * wb <= (nb * sa) * wa by { SumsCross(a, b, c, c, wa, wb); }
    assert wb / y <= wa / x by { SlackCross(a, b, c, wa, wb); }
    NormaliserAlgebra(na, nb, sa, sb, x, y, da, db, wa, wb);
  }

  lemma NormaliserIs(rho: real, c: nat)
    requires c >= 1 && 0.0 <= rho < c as real
    ensures Normaliser(rho, c) == SumTerms(rho, c) + Term(rho, c) / Slack(rho, c)
  {
  }

  lemma NormaliserAlgebra(na: real, nb: real, sa: real, sb: real, x: real, y: real,
                          da: real, db: real, wa: real, wb: real)
    requires na >= 0.0 && nb >= 0.0 && x > 0.0 && y > 0.0
    requires da == sa + na / x && db == sb + nb / y
    requires (na * sb) * wb <= (nb * sa) * wa
    requires wb / y <= wa / x
    ensures (na * db) * wb <= (nb * da) * wa
  {
  }

  /**
   erlangC(rho,c) / (1-rho) never decreases on [0,1), whatever the server count.
   Neither erlangC itself nor its dependence on the server count is monotone.
   */
  lemma WaitFactorGrowth(a: real, b: real, c: nat)
    requires c >= 1 && 0.0 <= a <= b < 1.0
    ensures 0.0 <= WaitFactor(a, c) && 0.0 <= WaitFactor(b, c)
    ensures WaitFactor(a, c) / (1.0 - a) <= WaitFactor(b, c) / (1.0 - b)
  {
    hide *;
    WaitFactorQuotient(a, c);
    WaitFactorQuotient(b, c);
    TermNonNeg(a, c);
    TermNonNeg(b, c);
    DivMono(0.0, Term(a, c), Normaliser(a, c));
    DivMono(0.0, Term(b, c), Normaliser(b, c));
    var wa, wb :| wa == 1.0 - a && wb == 1.0 - b;
    NormalisersCross(a, b, c, wa, wb);
    GrowthAlgebra(Term(a, c), Term(b, c), Normaliser(a, c), Normaliser(b, c), wa, wb);
  }

  lemma GrowthAlgebra(na: real, nb: real, da: real, db: real, wa: real, wb: real)
    requires da > 0.0 && db > 0.0 && wa > 0.0 && wb > 0.0
    requires (na * db) * wb <= (nb * da) * wa
    ensures (na / da) / wa <= (nb / db) / wb
  {
    QuotientOfQuotient(na, da, wa);
    QuotientOfQuotient(nb, db, wb);
    Regroup(na, db, wb);
    Regroup(nb, da, wa);
    QuotientLe(na, nb, da * wa, db * wb);
  }

  lemma QuotientOfQuotient(n: real, d: real, w: real)
    requires d > 0.0 && w > 0.0
    ensures d * w > 0.0 && (n / d) / w == n / (d * w)
  {
  }
}
