/** Facts about products and quotients that the solver does not find unaided. */
module Arithmetic {
  function Pow2(k: nat): (p: nat)
    ensures p > 0
  {
    if k == 0 then 1 else 2 * Pow2(k - 1)
  }

  lemma MultipleBound(n: int, d: int)
    requires d >= 1
    ensures n >= 1 ==> n * d >= d
    ensures n <= -1 ==> n * d <= -d
  {
  }

  lemma QuotientAtLeast(n: int, d: int, q: int)
    requires d >= 1
    ensures n / d >= q <==> n >= q * d
  {
    var e := n / d - q;
    assert n == (n / d) * d + n % d;
    assert e * d == (n / d) * d - q * d;
    MultipleBound(e, d);
    assert e == 0 ==> e * d == 0;
  }

  lemma QuotientIs(n: int, d: int, q: int)
    requires d >= 1
    ensures n / d == q <==> q * d <= n < (q + 1) * d
  {
    QuotientAtLeast(n, d, q);
    QuotientAtLeast(n, d, q + 1);
  }
}
