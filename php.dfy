/** The few pieces of PHP numeric semantics the adapter relies on, over exact reals. */
module Php {

  /** The greatest integer not above x. */
  function FloorOf(x: real): (n: int)
    ensures n as real <= x < n as real + 1.0
  {
    assert x.Floor as real <= x < x.Floor as real + 1.0;
    var n :| n as real <= x < n as real + 1.0; n
  }

  /** PHP's one-argument `round()`: the nearest integer, halves rounded away from zero. */
  function Round(x: real): (r: int)
    ensures x - 0.5 <= r as real <= x + 0.5
    ensures r as real == x + 0.5 ==> x >= 0.0
    ensures r as real == x - 0.5 ==> x < 0.0
  {
    if x >= 0.0 then FloorOf(x + 0.5) else -FloorOf(0.5 - x)
  }

  /** PHP's `(int)` cast of a number: truncation toward zero. */
  function Trunc(x: real): (r: int)
    ensures x >= 0.0 ==> 0 <= r && r as real <= x < r as real + 1.0
    ensures x < 0.0 ==> r <= 0 && r as real - 1.0 < x <= r as real
  {
    if x >= 0.0 then FloorOf(x) else -FloorOf(-x)
  }

  /** PHP's `min()` of two numbers (the first one on a tie). */
  function Min(a: real, b: real): (m: real)
    ensures m <= a && m <= b
    ensures m == a || m == b
  {
    if b < a then b else a
  }

  /** x has no fractional part. */
  predicate IsIntegral(x: real) {
    Trunc(x) as real == x
  }
}
