/**
 * The three ways the application turns an exact decimal into an integer:
 * `quantize(..., rounding=ROUND_HALF_UP)`, `quantize(...)` under the default
 * decimal context (ROUND_HALF_EVEN), and `int(...)` (truncation toward zero).
 * Only a Decimal's numeric value is kept, an exact rational modelled as `real`;
 * its exponent and the sign of a zero are not.
 */
module DecimalRounding {

  function Abs(x: real): (r: real)
    ensures r >= 0.0 && (r == x || r == -x)
  {
    if x < 0.0 then -x else x
  }

  /** Nearest integer; a value exactly halfway between two integers goes away from zero. */
  function RoundHalfUp(x: real): (r: int)
    ensures Abs(r as real - x) <= 0.5
    ensures Abs(r as real - x) == 0.5 ==> Abs(r as real) > Abs(x)
    ensures x >= 0.0 ==> r >= 0
  {
    if x >= 0.0 then (x + 0.5).Floor else -((0.5 - x).Floor)
  }

  /** Nearest integer; a value exactly halfway between two integers goes to the even one. */
  function RoundHalfEven(x: real): (r: int)
    ensures Abs(r as real - x) <= 0.5
    ensures Abs(r as real - x) == 0.5 ==> r % 2 == 0
    ensures x >= 0.0 ==> r >= 0
  {
    var f := x.Floor;
    var d := x - f as real;
    if d < 0.5 then f
    else if d > 0.5 then f + 1
    else if f % 2 == 0 then f
    else f + 1
  }

  /** Python's `int()` of a Decimal: drops the fractional part, toward zero. */
  function TruncateTowardZero(x: real): (r: int)
    ensures Abs(r as real) <= Abs(x) < Abs(r as real) + 1.0
    ensures x >= 0.0 ==> r >= 0
    ensures x <= 0.0 ==> r <= 0
  {
    if x >= 0.0 then x.Floor else -((-x).Floor)
  }

  /** Any integer strictly within half of x is what both nearest-roundings give. */
  lemma NearestIsUnique(x: real, n: int)
    requires Abs(n as real - x) < 0.5
    ensures RoundHalfUp(x) == n && RoundHalfEven(x) == n
  {
  }
}
