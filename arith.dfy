/**
 * Two facts about integer multiplication and division that the length and
 * index calculations of the feature queue and the training gates rely on.
 */
module IntArith {

  /** Multiplying by a non-negative factor keeps the order. */
  lemma MultiplyOrder(a: int, b: int, c: int)
    requires a <= b && c >= 0
    ensures a * c <= b * c
  {
  }

  /** `k == b * q + r` with `0 <= r < b` determines `k / b` and `k % b`. */
  lemma DivisionUnique(k: int, b: int, q: int, r: int)
    requires b > 0 && 0 <= r < b && k == b * q + r
    ensures k / b == q && k % b == r
  {
    var d := k / b;
    assert k == b * d + k % b;
    assert b * (q - d) == k % b - r;
    if q - d >= 1 {
      MultiplyOrder(1, q - d, b);
    } else if q - d <= -1 {
      MultiplyOrder(1, d - q, b);
    }
  }
}
