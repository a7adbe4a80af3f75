/**
 * Travel-time arithmetic: `estimateTravelTime`, which answers `Infinity` for a non-positive
 * speed, and `calculateTravelTime`, which throws instead. Minutes live on the extended real
 * line, because JavaScript's `Infinity` takes part in the planners' comparisons.
 */
module TravelTime {
  import opened Wrappers

  /** A number of minutes, or JavaScript's `Infinity`. */
  datatype Minutes = Finite(value: real) | Infinity

  /** `a < b` on the extended reals: nothing is below itself, and `Infinity` is below nothing. */
  predicate Below(a: Minutes, b: Minutes) {
    match a
    case Infinity => false
    case Finite(x) => b.Infinity? || x < b.value
  }

  /** `a + k`, where `Infinity + k` stays `Infinity`. */
  function Plus(a: Minutes, k: real): (r: Minutes)
    ensures r.Infinity? <==> a.Infinity?
    ensures a.Finite? ==> r.value - k == a.value
  {
    if a.Infinity? then Infinity else Finite(a.value + k)
  }

  /** `Math.min(a, cap)`: always a finite number, `cap` when `a` is `Infinity`. */
  function AtMost(a: Minutes, cap: real): (r: real)
    ensures r <= cap
    ensures a.Finite? && a.value <= cap ==> r == a.value
    ensures a.Infinity? || cap <= a.value ==> r == cap
  {
    if a.Finite? && a.value < cap then a.value else cap
  }

  /** `estimateTravelTime(distanceKm, speedKmh)`: minutes needed, `Infinity` when the speed is not positive. */
  function EstimateTravelTime(distanceKm: real, speedKmh: real): (eta: Minutes)
    ensures eta.Infinity? <==> speedKmh <= 0.0
    ensures eta.Finite? ==> eta.value * speedKmh == 60.0 * distanceKm
  {
    if speedKmh <= 0.0 then Infinity else Finite((distanceKm / speedKmh) * 60.0)
  }

  /** `calculateTravelTime(distanceKm, speedKmh)`: hours needed; throws when the speed is not positive. */
  function CalculateTravelTime(distanceKm: real, speedKmh: real): (hours: Result<real>)
    ensures hours.Err? <==> speedKmh <= 0.0
    ensures hours.Ok? ==> hours.value * speedKmh == distanceKm
  {
    if speedKmh <= 0.0 then Err("Speed must be greater than 0") else Ok(distanceKm / speedKmh)
  }

  /** Sixty kilometres at sixty kilometres per hour take sixty minutes. */
  lemma SixtyKilometresAtSixty()
    ensures EstimateTravelTime(60.0, 60.0) == Finite(60.0)
  {
  }

  /** A longer trip at the same positive speed never takes less time, and no trip takes negative time. */
  lemma EstimateMonotone(d1: real, d2: real, speedKmh: real)
    requires 0.0 <= d1 <= d2 && speedKmh > 0.0
    ensures 0.0 <= EstimateTravelTime(d1, speedKmh).value <= EstimateTravelTime(d2, speedKmh).value
  {
  }

  /**
   * The two travel-time functions agree where both are defined; where the speed is not
   * positive one answers `Infinity` and the other throws.
   */
  lemma EstimateAgreesWithCalculate(distanceKm: real, speedKmh: real)
    ensures CalculateTravelTime(distanceKm, speedKmh).Ok?
        <==> EstimateTravelTime(distanceKm, speedKmh).Finite?
    ensures CalculateTravelTime(distanceKm, speedKmh).Ok? ==>
      CalculateTravelTime(distanceKm, speedKmh).value * 60.0 == EstimateTravelTime(distanceKm, speedKmh).value
  {
  }
}
