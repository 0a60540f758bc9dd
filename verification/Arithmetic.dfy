/** Facts about products and quotients that the solver does not find by itself. */
module Arithmetic {

  lemma MulMonotone(a: int, b: int, n: int)
    requires a <= b && n >= 0
    ensures a * n <= b * n
  {
  }

  lemma MulCancel(a: int, b: int, n: int)
    requires n > 0 && a * n < b * n
    ensures a < b
  {
    if b <= a {
      MulMonotone(b, a, n);
    }
  }

  lemma DivBounds(a: int, n: int)
    requires n > 0
    ensures a / n * n <= a < (a / n + 1) * n
  {
    assert a == a / n * n + a % n;
    assert (a / n + 1) * n == a / n * n + n;
  }

  /** The quotient is the one number that brackets a. */
  lemma DivIs(a: int, n: int, q: int)
    requires n > 0 && q * n <= a < (q + 1) * n
    ensures a / n == q
  {
    DivBounds(a, n);
    MulCancel(q, a / n + 1, n);
    MulCancel(a / n, q + 1, n);
  }

  lemma DivAtLeast(a: int, n: int, q: int)
    requires n > 0 && q * n <= a
    ensures q <= a / n
  {
    DivBounds(a, n);
    MulCancel(q, a / n + 1, n);
  }

  lemma DivAtMost(a: int, n: int, q: int)
    requires n > 0 && a < (q + 1) * n
    ensures a / n <= q
  {
    DivBounds(a, n);
    MulCancel(a / n, q + 1, n);
  }

  lemma DivMonotone(a: int, b: int, n: int)
    requires n > 0 && a <= b
    ensures a / n <= b / n
  {
    DivBounds(a, n);
    DivAtLeast(b, n, a / n);
  }

  lemma DivOfMultiple(q: int, n: int, x: int)
    requires n > 0
    ensures (q * n + x) / n == q + x / n
  {
    DivBounds(x, n);
    assert (q + x / n) * n == q * n + x / n * n;
    assert (q + x / n + 1) * n == q * n + (x / n + 1) * n;
    DivIs(q * n + x, n, q + x / n);
  }
}
