/** Python's `round` to an integer, on exact reals. */
module Rounding {
  /** Nearest integer, ties to the even neighbour. */
  function RoundHalfEven(x: real): (r: int)
    ensures -0.5 <= r as real - x <= 0.5
  {
    var f := x.Floor;
    var d := x - f as real;
    if d < 0.5 || (d == 0.5 && f % 2 == 0) then f else f + 1
  }

  lemma {:induction false} RoundOfInt(n: int)
    ensures RoundHalfEven(n as real) == n
  {
  }
}
