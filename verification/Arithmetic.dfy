/** Quotients and remainders are unique. */
module Arithmetic {

  lemma NoMultipleBetween(d: int, m: int)
    requires m > 0 && -m < d * m < m
    ensures d == 0
  {
  }

  lemma DivideExactly(a: int, m: int, q: int, r: int)
    requires m > 0 && a == q * m + r && 0 <= r < m
    ensures a / m == q && a % m == r
  {
    var d := a / m - q;
    assert d * m == r - a % m by {
      assert a == a / m * m + a % m;
    }
    NoMultipleBetween(d, m);
  }
}
