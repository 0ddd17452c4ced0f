/** The little multiplication the capacity arguments need. */
module Multiples {

  lemma MultiplesGap(a: int, b: int, limit: nat)
    requires a > b
    ensures a * limit >= b * limit + limit
  {
    assert a * limit == (a - b - 1) * limit + b * limit + limit;
    assert (a - b - 1) * limit >= 0;
  }

  lemma QuotientAtLeast(total: nat, n: nat, d: nat)
    requires d >= 1 && total >= n * d
    ensures total / d >= n
  {
    var q := total / d;
    assert total == q * d + total % d;
    if q < n {
      MultiplesGap(n, q, d);
    }
  }
}
