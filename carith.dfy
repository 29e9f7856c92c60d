/** C++ integer division and remainder.

    C++ truncates the quotient toward zero, so the remainder takes the sign of
    the dividend (section 7.6.5 [expr.mul] of ISO/IEC 14882). Dafny's own `/`
    and `%` are Euclidean, so the controller's arithmetic is written with these
    two functions wherever the dividend may be negative.
 */
module CArith {

  /** `a / b` as C++ computes it, for a positive divisor. */
  function Quot(a: int, b: int): (q: int)
    requires b > 0
    ensures a >= 0 ==> 0 <= q * b <= a < q * b + b
    ensures a < 0 ==> q * b - b < a <= q * b <= 0
  {
    if a >= 0 then
      NonnegativeDivision(a, b);
      a / b
    else
      NonnegativeDivision(-a, b);
      -((-a) / b)
  }

  /** `a % b` as C++ computes it, for a positive divisor. */
  function Rem(a: int, b: int): (r: int)
    requires b > 0
    ensures Quot(a, b) * b + r == a
    ensures a >= 0 ==> 0 <= r < b
    ensures a < 0 ==> -b < r <= 0
  {
    if a >= 0 then
      NonnegativeDivision(a, b);
      a % b
    else
      NonnegativeDivision(-a, b);
      -((-a) % b)
  }

  /** Euclidean division of a non-negative dividend by a positive divisor. */
  lemma NonnegativeDivision(a: int, b: int)
    requires a >= 0 && b > 0
    ensures a / b >= 0 && (a / b) * b + a % b == a && 0 <= a % b < b
    ensures 0 <= (a / b) * b <= a < (a / b) * b + b
    ensures -((a / b) * b) == (-(a / b)) * b
  {
    var q := a / b;
    assert q * b + a % b == a;
  }

  /** Euclidean division is unique: if `a == k * m + r` with `0 <= r < m`,
      then `k` and `r` are the quotient and the remainder. */
  lemma DivisionUnique(a: int, m: int, k: int, r: int)
    requires m >= 1 && 0 <= r < m
    requires a == k * m + r
    ensures a / m == k && a % m == r
  {
    var q := a / m;
    var d := k - q;
    assert a == q * m + a % m;
    assert d * m == a % m - r;
    if d >= 1 {
      MultipleAtLeast(d, m);
    } else if d <= -1 {
      MultipleAtLeast(-d, m);
    }
  }

  lemma MultipleAtLeast(d: int, m: int)
    requires d >= 1 && m >= 1
    ensures d * m >= m && (-d) * m <= -m
  {
    assert d * m == (d - 1) * m + m;
  }
}
