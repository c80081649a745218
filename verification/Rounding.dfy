/** Rounding of real numbers. */
module Rounding {

  /** `math.ceil`. */
  function Ceil(x: real): (c: int)
    ensures (c - 1) as real < x <= c as real
  {
    -((-x).Floor)
  }
}
