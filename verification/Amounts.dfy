/** Money amounts compared up to a few units in the last place. */
module Amounts {

  /** Number.EPSILON, 2 to the power -52. */
  const EPSILON: real := 1.0 / 4503599627370496.0

  const ULP_TOLERANCE: real := 4.0

  predicate IsAmount(value: real) {
    value >= 0.0
  }

  function Abs(value: real): real {
    if value < 0.0 then -value else value
  }

  function Max(left: real, right: real): real {
    if left < right then right else left
  }

  function Tolerance(left: real, right: real): real {
    EPSILON * ULP_TOLERANCE * Max(1.0, Max(Abs(left), Abs(right)))
  }

  predicate AmountsEqual(left: real, right: real) {
    IsAmount(left) && IsAmount(right) && Abs(left - right) <= Tolerance(left, right)
  }

  /** `value` is at most `limit`, or exceeds it by no more than rounding. */
  predicate AtMost(value: real, limit: real) {
    value <= limit || AmountsEqual(value, limit)
  }
}
