/** Integer helpers: the rounding modes of the source's integer operations. */
module Arith {

  /** Division rounding toward negative infinity (the rounding assumed for
      `div_by_delta_to_i64`). Dafny's own `/` is Euclidean, which agrees with
      flooring only for a positive divisor. */
  function FloorDiv(a: int, b: int): (q: int)
    requires b != 0
    ensures b > 0 ==> b * q <= a < b * q + b
    ensures b < 0 ==> b * q >= a > b * q + b
  {
    if b > 0 then a / b else (-a) / (-b)
  }

  function Max(a: int, b: int): int { if a >= b then a else b }

  function Min(a: int, b: int): int { if a <= b then a else b }
}
