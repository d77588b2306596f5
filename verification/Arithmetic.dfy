/** Division with remainder, and products, where the solver needs a hand. */
module Arithmetic {
  function Min(a: nat, b: nat): nat { if a < b then a else b }

  lemma ModIs(a: int, m: int, q: int, r: int)
    requires 0 <= r < m && a == q * m + r
    ensures a % m == r && a / m == q
  {
    var d := q - a / m;
    assert d * m == a % m - r;
    assert d >= 1 ==> d * m >= m;
    assert d <= -1 ==> d * m <= -m;
  }

  lemma MulAtLeast(a: nat, b: nat)
    requires b > 0
    ensures a * b >= a
  {
    assert a * (b - 1) >= 0;
  }

  /** q is size divided by d, rounded up. */
  lemma CeilingBounds(size: nat, d: nat, q: int)
    requires 0 < d < size && q * d <= size + d - 1 < q * d + d
    ensures 1 < q <= size && (q - 1) * d < size <= q * d
  {
    Distribute(q, d);
    if q <= 1 { NotPositive(q - 1, d); }
    MulAtLeast(q - 1, d);
  }

  lemma Distribute(q: int, d: int)
    ensures (q - 1) * d == q * d - d
  {
  }

  lemma NotPositive(a: int, d: nat)
    requires a <= 0
    ensures a * d <= 0
  {
  }

  lemma Difference(a: int, b: int, k: int)
    ensures (a - b) * k + b * k == a * k
  {
  }

  lemma MulGrows(k: nat, a: nat, b: nat)
    requires a <= b
    ensures k * a <= k * b
  {
    assert k * (b - a) >= 0;
  }

  lemma DivAtMost(a: nat, d: nat, k: nat)
    requires d > 0 && a < d * k + d
    ensures a / d <= k
  {
    var q := a / d;
    assert a == q * d + a % d;
    if q > k {
      MulAtLeast(d, q - k);
      Difference(q, k, d);
    }
  }
}
