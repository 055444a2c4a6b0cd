/** Comparison tolerances. */
module NumericTraits {
  const WEAK_EPSILON: real := 0.000000001

  /** Gap between 1 and the next double. */
  const MACHINE_EPSILON: real := 1.0 / 4503599627370496.0
}
