/** Go's integer division and remainder operators on `int`.
    Go truncates the quotient toward zero and gives the remainder the sign of
    the dividend; Dafny's own `/` and `%` are Euclidean, so they are restated
    here for the divisions the duration formatter performs. */
module GoInt {

  /** Go's `a / b` for a positive divisor: the quotient truncated toward zero. */
  function Quot(a: int, b: int): int
    requires b > 0
  {
    if a >= 0 then a / b else -((-a) / b)
  }

  /** Go's `a % b` for a positive divisor: the remainder takes the sign of `a`. */
  function Rem(a: int, b: int): int
    requires b > 0
  {
    if a >= 0 then a % b else -((-a) % b)
  }

  /** The defining properties of Go's integer division (The Go Programming
      Language Specification, "Arithmetic operators"): `a == q * b + r`,
      `|r| < |b|`, `r` has the sign of `a`, and the quotient never exceeds the
      dividend in magnitude. On non-negative operands Go and Dafny agree. */
  lemma TruncatedDivision(a: int, b: int)
    requires b > 0
    ensures Quot(a, b) * b + Rem(a, b) == a
    ensures -b < Rem(a, b) < b
    ensures a >= 0 ==> 0 <= Rem(a, b) && 0 <= Quot(a, b) <= a
    ensures a <= 0 ==> Rem(a, b) <= 0 && a <= Quot(a, b) <= 0
    ensures a >= 0 ==> Quot(a, b) == a / b && Rem(a, b) == a % b
  {
    if a >= 0 {
      NonNegativeDivision(a, b);
    } else {
      NonNegativeDivision(-a, b);
      var q, r := (-a) / b, (-a) % b;
      assert Quot(a, b) == -q && Rem(a, b) == -r;
      assert (-q) * b == -(q * b);
    }
  }

  /** Euclidean division of a non-negative dividend, which is where Go's
      truncating division is taken from. */
  lemma NonNegativeDivision(n: int, b: int)
    requires n >= 0 && b > 0
    ensures (n / b) * b + n % b == n
    ensures 0 <= n % b < b && 0 <= n / b <= n
  {
    QuotientBound(n / b, b);
  }

  /** A non-negative quotient is no larger than itself times a positive divisor. */
  lemma QuotientBound(q: int, b: int)
    requires q >= 0 && b >= 1
    ensures q <= q * b
  {
    assert q * b == q * (b - 1) + q;
    assert q * (b - 1) >= 0;
  }
}
