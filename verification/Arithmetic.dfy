/** Division facts with a variable divisor. */
module Arithmetic {

  lemma ScaledApart(d: int, n: int)
    requires n > 0
    ensures d >= 1 ==> n * d >= n
    ensures d <= -1 ==> n * d <= -n
  {
    if d >= 1 {
      assert n * (d - 1) >= 0;
    } else if d <= -1 {
      assert n * (-d - 1) >= 0;
    }
  }

  /** The quotient is the only multiple count that fits. */
  lemma DivIs(x: int, n: int, k: int)
    requires n > 0 && n * k <= x < n * k + n
    ensures x / n == k && x % n == x - n * k
  {
    var q := x / n;
    assert x == n * q + x % n;
    assert n * q - n * k == n * (q - k);
    ScaledApart(q - k, n);
  }

  lemma MulMono(a: int, b: int, n: int)
    requires a <= b && n >= 0
    ensures n * a <= n * b
  {
    assert n * (b - a) >= 0;
  }

  lemma DivBounds(x: int, n: int)
    requires n > 0
    ensures n * (x / n) <= x < n * (x / n) + n
  {
  }

  lemma MulSucc(a: int, b: int)
    ensures (a + 1) * b == a * b + b
  {
  }
}
