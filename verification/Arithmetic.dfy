/** Arithmetic that several parts of the model share. */
module Arithmetic {

  function Max(x: int, y: int): (r: int)
    ensures x <= r && y <= r && (r == x || r == y)
  {
    if x < y then y else x
  }

  lemma NonNegative(x: int, y: int)
    requires 0 <= x && 0 <= y
    ensures 0 <= x * y
  {
  }

  lemma AtLeastOne(k: int, n: int)
    requires 1 <= k && 0 <= n
    ensures n <= k * n
  {
    assert k * n == (k - 1) * n + n;
    NonNegative(k - 1, n);
  }

  /** Division by a positive number has one answer. */
  lemma DivisionIs(x: int, n: int, q: int, r: int)
    requires 0 < n && 0 <= r < n && x == q * n + r
    ensures x / n == q && x % n == r
  {
    var q', r' := x / n, x % n;
    assert x == q' * n + r';
    assert (q' - q) * n == q' * n - q * n;
    if q < q' { AtLeastOne(q' - q, n); assert false; }
    if q > q' { AtLeastOne(q - q', n); assert false; }
  }
}
