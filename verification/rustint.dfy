/**
  Rust's signed integer division and remainder, which truncate toward zero,
  written out over Dafny's Euclidean `/` and `%`.
 */
module RustInt {

  /** `a / b` on a Rust signed integer, for a positive divisor. */
  function TruncDiv(a: int, b: int): (q: int)
    requires b > 0
    ensures 0 <= a ==> 0 <= a - q * b < b
    ensures a < 0 ==> -b < a - q * b <= 0
  {
    if a >= 0 then a / b else -((-a) / b)
  }

  /** `a % b` on a Rust signed integer, for a positive divisor: the remainder takes the sign of `a`. */
  function TruncRem(a: int, b: int): (r: int)
    requires b > 0
    ensures a == b * TruncDiv(a, b) + r
    ensures 0 <= a ==> 0 <= r < b
    ensures a < 0 ==> -b < r <= 0
  {
    a - b * TruncDiv(a, b)
  }

  /** Truncation toward zero of a real number, as Rust's `as i32` cast of a float does. */
  function TruncReal(x: real): (n: int)
    ensures 0.0 <= x ==> n as real <= x < n as real + 1.0
    ensures x < 0.0 ==> n as real - 1.0 < x <= n as real
  {
    if x >= 0.0 then x.Floor else -((-x).Floor)
  }

  /** Truncating integer division agrees with truncating the exact real quotient. */
  lemma TruncDivIsRealTrunc(a: int, b: int)
    requires b > 0
    ensures TruncDiv(a, b) == TruncReal(a as real / b as real)
  {
    if a >= 0 {
      FloorOfQuotient(a, b);
    } else {
      FloorOfQuotient(-a, b);
      assert -(a as real / b as real) == (-a) as real / b as real;
    }
  }

  /** For a natural numerator, the floor of the real quotient is Dafny's integer quotient. */
  lemma FloorOfQuotient(n: nat, b: int)
    requires b > 0
    ensures (n as real / b as real).Floor == n / b
  {
    var q := n / b;
    var x := n as real / b as real;
    assert x * b as real == n as real;
    assert q as real * b as real <= n as real < (q + 1) as real * b as real;
    assert q as real <= x < (q + 1) as real;
  }
}
