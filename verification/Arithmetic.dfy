/** The few facts about products and quotients that the solver needs spelled out. */
module Arithmetic {

  lemma {:induction false} MulAtLeast(a: int, d: int)
    requires a >= 1 && d >= 0
    ensures a * d >= d
  {
  }

  lemma {:induction false} MulSub(a: int, b: int, d: int)
    ensures (a - b) * d == a * d - b * d
  {
  }

  lemma {:induction false} QuotientUnique(d: int, n: int, q: int, r: int)
    requires 0 <= r < d && n == q * d + r
    ensures n / d == q && n % d == r
  {
    var k := n / d;
    var s := n % d;
    assert n == k * d + s;
    MulSub(q, k, d);
    if k < q {
      MulAtLeast(q - k, d);
    } else if k > q {
      MulSub(k, q, d);
      MulAtLeast(k - q, d);
    }
  }
}
