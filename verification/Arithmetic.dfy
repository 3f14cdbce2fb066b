/** Products, quotients and remainders. */
module Arithmetic {
  lemma MulMonotone(n: nat, a: nat, b: nat)
    requires a <= b
    ensures n * a <= n * b
  {
  }

  lemma QuotientInRange(x: nat, n: nat, k: nat)
    requires n > 0
    ensures x / n < k <==> x < n * k
  {
    var q, r := x / n, x % n;
    assert x == n * q + r && r < n;
    assert n * (q + 1) == n * q + n;
    if q < k {
      MulMonotone(n, q + 1, k);
    } else {
      MulMonotone(n, k, q);
    }
  }

  /** A quotient and a remainder are determined by the number they make up. */
  lemma SplitIsUnique(q: nat, r: nat, p: nat, s: nat, n: nat)
    requires r < n && s < n && n * q + r == n * p + s
    ensures q == p && r == s
  {
    assert n * (q + 1) == n * q + n && n * (p + 1) == n * p + n;
    if q < p {
      MulMonotone(n, q + 1, p);
    } else if p < q {
      MulMonotone(n, p + 1, q);
    }
  }
}
