/** Products and quotients of natural numbers, one small fact at a time. */
module Arithmetic {
  lemma Distribute(d: int, a: int, b: int)
    ensures d * (a + b) == d * a + d * b
  {
  }

  lemma ScaledOrder(d: nat, a: int, b: int)
    ensures a < b ==> d * a + d <= d * b
    ensures a <= b ==> d * a <= d * b
  {
    if a <= b {
      Distribute(d, a, b - a);
      if a < b {
        Distribute(d, 1, b - a - 1);
      }
    }
  }

  lemma QuotientIs(a: nat, d: nat, q: int)
    requires d > 0 && d * q <= a < d * q + d
    ensures a / d == q
  {
    ScaledOrder(d, a / d, q);
    ScaledOrder(d, q, a / d);
  }

  /** Adding `q` whole divisors and a part of one moves the quotient by `q` or `q + 1`. */
  lemma QuotientShift(a: nat, d: nat, q: nat, part: nat)
    requires d > 0 && part < d
    ensures d * q >= 0
    ensures var m := (a + d * q + part) / d; m == a / d + q || (part > 0 && m == a / d + q + 1)
  {
    var m, rest := a / d, a % d;
    ScaledOrder(d, 0, q);
    Distribute(d, m, q);
    var b := a + d * q + part;
    assert b == d * (m + q) + (rest + part);
    if rest + part < d {
      QuotientIs(b, d, m + q);
    } else {
      Distribute(d, m + q, 1);
      QuotientIs(b, d, m + q + 1);
    }
  }

  lemma QuotientBelow(a: nat, d: nat, n: nat)
    requires d > 0 && a < d * n
    ensures 0 <= a / d < n
  {
    ScaledOrder(d, n, a / d);
    ScaledOrder(d, a / d, -1);
  }
}
