/** The minimum and facts about Euclidean division that the index arithmetic of the model relies on. */
module Arith {

  /** The smaller of two naturals. */
  function Min(a: nat, b: nat): nat { if a < b then a else b }

  lemma MulGap(a: int, b: int, m: int)
    requires a > b && m > 0
    ensures a * m - b * m >= m
  {
    var d := a - b - 1;
    assert a * m - b * m == d * m + m;
    assert d * m >= 0;
  }

  /** Division and remainder are determined by any decomposition `x == q * m + r`, `0 <= r < m`. */
  lemma DivModUnique(x: int, m: int, q: int, r: int)
    requires m > 0 && 0 <= r < m && x == q * m + r
    ensures x / m == q && x % m == r
  {
    var q' := x / m;
    if q > q' {
      MulGap(q, q', m);
    } else if q < q' {
      MulGap(q', q, m);
    }
  }
}
