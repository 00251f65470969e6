/** Division with remainder. */
module Arithmetic {
  lemma Multiple(m: int, d: int)
    requires m > 0
    ensures d >= 1 ==> m * d >= m
    ensures d <= -1 ==> m * d <= -m
  {}

  lemma ModIs(x: int, m: int, q: int, r: int)
    requires m > 0 && x == m * q + r && 0 <= r < m
    ensures x / m == q && x % m == r
  {
    var d := x / m - q;
    Multiple(m, d);
    assert m * d == m * (x / m) - m * q;
    assert m * (x / m) + x % m == x;
    assert -m < m * d < m;
    assert d == 0;
  }
}
