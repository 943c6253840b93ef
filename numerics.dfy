/**
 * PHP's numeric helpers over exact reals: `round` (half away from zero),
 * `round($x, 2)`, `intval` on a number (truncation toward zero), `max`, `min`, `abs`.
 */
module Numerics {

  function Max(a: real, b: real): (r: real)
    ensures r >= a && r >= b && (r == a || r == b)
  {
    if a >= b then a else b
  }

  function Min(a: real, b: real): (r: real)
    ensures r <= a && r <= b && (r == a || r == b)
  {
    if a <= b then a else b
  }

  function Abs(x: real): (r: real)
    ensures r >= 0.0 && (r == x || r == -x)
  {
    if x >= 0.0 then x else -x
  }

  /** PHP `round($x)`: the nearest integer, halves rounded away from zero. */
  function RoundInt(x: real): (r: int)
    ensures x - 0.5 <= r as real <= x + 0.5
    ensures x >= 0.0 ==> r >= 0
    ensures x < 0.0 ==> r <= 0
  {
    if x >= 0.0 then (x + 0.5).Floor else -((0.5 - x).Floor)
  }

  /** PHP `round($x, 2)`: the nearest multiple of 0.01, halves away from zero. */
  function Round2(x: real): (r: real)
    ensures x - 0.005 <= r <= x + 0.005
    ensures x >= 0.0 ==> r >= 0.0
  {
    (RoundInt(x * 100.0) as real) / 100.0
  }

  /** PHP `intval` of a number: the integer part, truncated toward zero. */
  function IntVal(x: real): (r: int)
    ensures x >= 0.0 ==> 0 <= r && r as real <= x < r as real + 1.0
    ensures x < 0.0 ==> r <= 0 && r as real - 1.0 < x <= r as real
  {
    if x >= 0.0 then x.Floor else -((-x).Floor)
  }
}
