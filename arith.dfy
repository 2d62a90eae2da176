/** Facts about integer division the grid and palette layouts rest on. */
module Arith {
  /** Division with remainder has one answer. */
  lemma DivModUnique(k: int, c: int, q: int, m: int)
    requires c > 0 && 0 <= m < c && k == q * c + m
    ensures k / c == q && k % c == m
  {
    var q', m' := k / c, k % c;
    assert k == q' * c + m';
    assert (q - q') * c == m' - m;
    if q > q' {
      MulAtLeast(q - q', c);
    } else if q < q' {
      MulAtLeast(q' - q, c);
    }
  }

  lemma MulAtLeast(d: int, c: int)
    requires d >= 1 && c > 0
    ensures d * c >= c
  {
    assert (d - 1) * c >= 0;
  }
}
