/** Rounding of a real to the nearest integer. */
module Rounding {
  /** Rounds half away from zero. */
  function Round(x: real): int {
    if x >= 0.0 then (x + 0.5).Floor else -((-x + 0.5).Floor)
  }
}
