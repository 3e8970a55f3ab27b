/** The few facts about products and quotients that the other modules need. */
module Arithmetic {

  /** Two-digit numbers in base B are ordered like their digits. */
  lemma DigitsOrder(c: int, p: int, d: int, q: int, B: int)
    requires 0 <= p < B && 0 <= q < B
    ensures c < d ==> c * B + p < d * B + q
  {
    if c < d {
      assert (c + 1) * B <= d * B;
    }
  }

  lemma DivModUnique(n: int, q: int, r: int, B: int)
    requires B > 0 && 0 <= r < B && n == q * B + r
    ensures n / B == q && n % B == r
  {
    DigitsOrder(n / B, n % B, q, r, B);
    DigitsOrder(q, r, n / B, n % B, B);
  }

  lemma OneMore(k: nat, m: nat)
    ensures (k + 1) * m == k * m + m
  {
  }

  lemma QuotientBound(k: nat, d: nat, n: nat)
    requires d > 0 && k * d <= n
    ensures k <= n / d
  {
    if k > n / d {
      MulMonotone(n / d + 1, k, d);
    }
  }

  lemma MulMonotone(a: nat, b: nat, m: nat)
    requires a <= b
    ensures a * m <= b * m
  {
  }
}
