/** Finite floating-point values: exact reals, with the sign of zero that the total order can see. */
module Floats {
  datatype Float = Float(value: real, negativeZero: bool)

  type Finite = f: Float | f.negativeZero ==> f.value == 0.0 witness Float(0.0, false)

  datatype Ordering = Less | Equal | Greater

  /** The totalOrder comparison (section 5.10 of IEEE 754-2008) on finite values. */
  function TotalCompare(a: Finite, b: Finite): Ordering {
    if a.value < b.value then Less
    else if a.value > b.value then Greater
    else if a.negativeZero && !b.negativeZero then Less
    else if !a.negativeZero && b.negativeZero then Greater
    else Equal
  }

  function Clamp(x: real, lo: real, hi: real): real {
    if x < lo then lo else if x > hi then hi else x
  }
}
