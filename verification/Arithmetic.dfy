/** Division with remainder, where the solver needs a hand. */
module Arithmetic {

  lemma ProductStep(n: nat, a: int, b: int)
    requires a < b
    ensures a * n + n <= b * n
  {
    assert (b - a - 1) * n >= 0;
  }

  lemma ProductMonotone(n: nat, a: int, b: int)
    requires a <= b
    ensures n * a <= n * b
  {
    assert n * (b - a) >= 0;
  }

  lemma QuotientUnique(n: nat, q: int, r: int, q': int, r': int)
    requires 0 <= r < n && 0 <= r' < n && q * n + r == q' * n + r'
    ensures q == q' && r == r'
  {
    if q < q' {
      ProductStep(n, q, q');
    } else if q' < q {
      ProductStep(n, q', q);
    }
  }

  /** Quotient and remainder of `q * n + r`. */
  lemma DivMod(q: int, n: nat, r: int)
    requires 0 <= r < n
    ensures (q * n + r) / n == q && (q * n + r) % n == r
  {
    var x := q * n + r;
    QuotientUnique(n, q, r, x / n, x % n);
  }
}
