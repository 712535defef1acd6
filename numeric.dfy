/**
 * Numeric helpers shared by the model: truncation of a real toward zero
 * (f32::trunc), the sign of an integer (i32::signum), f32::clamp, and the
 * truncating remainder of Rust's `%` on i32.
 */
module Numeric {

  function Abs(n: int): (r: nat)
    ensures r == n || r == -n
  {
    if n < 0 then -n else n
  }

  /** `i32::signum`. */
  function Sign(n: int): (s: int)
    ensures 0 < n ==> s == 1
    ensures n < 0 ==> s == -1
    ensures n == 0 ==> s == 0
  {
    if n > 0 then 1 else if n < 0 then -1 else 0
  }

  /** `f32::trunc`: the integer part of `r`, rounded toward zero. */
  function Trunc(r: real): (t: int)
    ensures 0.0 <= r ==> 0 <= t && t as real <= r < t as real + 1.0
    ensures r < 0.0 ==> t <= 0 && t as real - 1.0 < r <= t as real
  {
    if r >= 0.0 then r.Floor else -((-r).Floor)
  }

  /**
   * `f32::clamp(v, lo, hi)`. Rust panics when `lo > hi`, so callers must
   * supply an ordered range.
   */
  function Clamp(v: real, lo: real, hi: real): (r: real)
    requires lo <= hi
    ensures lo <= r <= hi
    ensures lo <= v <= hi ==> r == v
    ensures v < lo ==> r == lo
    ensures hi < v ==> r == hi
  {
    if v < lo then lo else if hi < v then hi else v
  }

  /**
   * Rust's `a % b` on integers: the remainder of the division that
   * truncates toward zero, so the result takes the sign of `a`.
   */
  function RemTrunc(a: int, b: int): (r: int)
    requires b != 0
    ensures Abs(r) < Abs(b)
    ensures 0 <= a ==> 0 <= r
    ensures a <= 0 ==> r <= 0
    ensures (a - r) % Abs(b) == 0
  {
    if a >= 0 then
      MultipleOfModulus(a, Abs(b));
      a % Abs(b)
    else
      MultipleOfModulus(-a, Abs(b));
      -((-a) % Abs(b))
  }

  /** Taking away the remainder leaves a multiple of the modulus. */
  lemma MultipleOfModulus(n: nat, m: nat)
    requires 0 < m
    ensures (n - n % m) % m == 0 && (n % m - n) % m == 0
  {
    var q := n / m;
    assert n - n % m == m * q;
    assert n % m - n == m * -q;
    ModOfMultiple(m, q);
    ModOfMultiple(m, -q);
  }

  /** A multiple of `m` leaves no remainder: the remainder of `m * k` is unique. */
  lemma ModOfMultiple(m: nat, k: int)
    requires 0 < m
    ensures (m * k) % m == 0
  {
    var x := m * k;
    var d, r := x / m, x % m;
    assert x == m * d + r && 0 <= r < m;
    var e := k - d;
    assert m * e == r by {
      assert m * e == m * k - m * d;
    }
  }
}
