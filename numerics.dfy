/** Python's numeric conversions used by the script, on exact reals. */
module Numerics {

  /** Python `int(v)` on a float: truncation toward zero. */
  function TruncToInt(v: real): (n: int)
    ensures 0.0 <= v ==> n as real <= v < n as real + 1.0
    ensures v < 0.0 ==> n as real - 1.0 < v <= n as real
  {
    if 0.0 <= v then v.Floor else -((-v).Floor)
  }

  /** Python `round(v)` on a float: nearest integer, ties to the even neighbour. */
  function RoundHalfEven(v: real): (n: int)
    ensures v - 0.5 <= n as real <= v + 0.5
    ensures (n as real - v == 0.5 || v - n as real == 0.5) ==> n % 2 == 0
  {
    var f := v.Floor;
    var frac := v - f as real;
    if frac < 0.5 then f
    else if frac > 0.5 then f + 1
    else if f % 2 == 0 then f
    else f + 1
  }
}
