/** Small facts about integer and real arithmetic shared by the modules. */
module Arith {

  function Max(a: int, b: int): int
  {
    if a >= b then a else b
  }

  function Min(a: int, b: int): int
  {
    if a <= b then a else b
  }

  lemma MulMono(x: int, y: int, xx: int, yy: int)
    requires 0 <= x <= xx && 0 <= y <= yy
    ensures x * y <= xx * yy
  {
    assert x * y <= xx * y;
    assert xx * y <= xx * yy;
  }

  /** Quotient and remainder are the unique q, r with x == q * m + r and 0 <= r < m. */
  lemma DivModUnique(x: int, q: int, r: int, m: int)
    requires m > 0 && 0 <= r < m && x == q * m + r
    ensures x / m == q && x % m == r
  {
    var q', r' := x / m, x % m;
    assert x == q' * m + r';
    assert (q - q') * m == r' - r;
    if q - q' >= 1 {
      MulMono(1, m, q - q', m);
      assert false;
    } else if q' - q >= 1 {
      MulMono(1, m, q' - q, m);
      assert false;
    }
  }

  /** Shifting by t and then by s, each modulo n, is shifting by s + t modulo n. */
  lemma ModCompose(i: int, s: int, t: int, n: int)
    requires n > 0
    ensures ((i - t) % n - s) % n == (i - s - t) % n
  {
    var j, m := (i - t) % n, (i - s - t) % n;
    var qj, qm := (i - t) / n, (i - s - t) / n;
    assert i - t == qj * n + j;
    assert i - s - t == qm * n + m;
    assert j - s == (qm - qj) * n + m;
    DivModUnique(j - s, qm - qj, m, n);
  }

  /** A convex combination of two values in [lo, hi] stays in [lo, hi]. */
  lemma ConvexBetween(a: real, b: real, alpha: real, lo: real, hi: real)
    requires 0.0 <= alpha <= 1.0 && lo <= a <= hi && lo <= b <= hi
    ensures lo <= a * (1.0 - alpha) + b * alpha <= hi
  {
    var beta := 1.0 - alpha;
    assert (hi - a) * beta >= 0.0;
    assert (hi - b) * alpha >= 0.0;
    assert (a - lo) * beta >= 0.0;
    assert (b - lo) * alpha >= 0.0;
  }

  /**
   * Adding a product of two factors of the same sign makes a non-negative
   * value positive (stated for two factors, so that the solver also accepts
   * it for a square).
   */
  lemma AddProduct(a: real, x: real, y: real)
    requires a >= 0.0 && ((x > 0.0 && y > 0.0) || (x < 0.0 && y < 0.0))
    ensures a + x * y > 0.0
  {
  }
}
