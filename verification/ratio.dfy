/** Non-negative rational numbers kept as a numerator and a denominator, so that no floating point is needed. */
module Ratios {
  datatype Ratio = Ratio(num: nat, den: nat)

  /** `num / den > 0.8`, for a positive denominator. */
  predicate AboveFourFifths(r: Ratio) {
    5 * r.num > 4 * r.den
  }
}
