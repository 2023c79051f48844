/** The few facts about division by a variable that the other modules need. */
module Arithmetic {

  /** The quotient moves on exactly at the multiples. */
  lemma NextQuotient(n: nat, d: nat)
    requires d > 0
    ensures (n + 1) / d == n / d + if (n + 1) % d == 0 then 1 else 0
  {
    var q, r := n / d, n % d;
    assert n == q * d + r;
    if r + 1 == d {
      QuotientIs(n + 1, d, q + 1, 0);
    } else {
      QuotientIs(n + 1, d, q, r + 1);
    }
  }

  lemma QuotientIs(n: nat, d: nat, q: nat, r: nat)
    requires r < d && n == q * d + r
    ensures n / d == q && n % d == r
  {
    var k := n / d - q;
    assert d * k == r - n % d;
    MulGap(d, k);
  }

  /** Between -d and d there is no multiple of d but zero. */
  lemma MulGap(d: int, k: int)
    requires d > 0
    ensures k >= 1 ==> d * k >= d
    ensures k <= -1 ==> d * k <= -d
  {
  }

  lemma DropOne(n: nat, d: nat)
    requires 0 < d <= n
    ensures (n - d) / d == n / d - 1 && (n - d) % d == n % d
  {
    assert n == n / d * d + n % d;
    assert n - d == (n / d - 1) * d + n % d;
    QuotientPositive(n, d);
    QuotientIs(n - d, d, n / d - 1, n % d);
  }

  lemma QuotientPositive(n: nat, d: nat)
    requires 0 < d <= n
    ensures n / d >= 1
  {
    MulGap(d, n / d);
  }
}
