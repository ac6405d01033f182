// Small facts about integer division used by several modules.
module Arith {
  /** Flooring division by a positive divisor is monotone in the dividend. */
  lemma DivMonotone(a: int, b: int, d: int)
    requires a <= b && d > 0
    ensures a / d <= b / d
  {
    var qa := a / d;
    var qb := b / d;
    assert d * qa <= a && b < d * qb + d;
    if qa > qb {
      MulMonotone(d, qb + 1, qa);
    }
  }

  /** Multiplying by a non-negative factor keeps the order. */
  lemma MulMonotone(d: int, x: int, y: int)
    requires d >= 0 && x <= y
    ensures d * x <= d * y
  {
    assert d * y - d * x == d * (y - x);
  }

  /** q is a / d when a lies in [d * q, d * q + d). */
  lemma DivUnique(a: int, d: int, q: int)
    requires d > 0 && d * q <= a < d * q + d
    ensures a / d == q
  {
    var q' := a / d;
    assert d * q' <= a < d * q' + d;
    if q' < q {
      MulMonotone(d, q' + 1, q);
    } else if q' > q {
      MulMonotone(d, q + 1, q');
    }
  }
}
