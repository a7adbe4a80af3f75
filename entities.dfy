/**
 * The records the planners and registries exchange, and JavaScript's falsy-fallback
 * operators on their optional fields.
 */
module Entities {
  import opened Wrappers
  import opened TravelTime

  datatype Coordinates = Coordinates(latitude: real, longitude: real)

  /**
   * Great-circle distance in kilometres. The haversine formula is not part of this model:
   * every operation takes the distance function as a parameter.
   */
  type DistanceFn = (Coordinates, Coordinates) -> real

  ghost predicate NonNegative(dist: DistanceFn) {
    forall a, b :: dist(a, b) >= 0.0
  }

  ghost predicate ZeroOnSamePoint(dist: DistanceFn) {
    forall a :: dist(a, a) == 0.0
  }

  /**
   * A zone as the zone registry stores it and the strategies read it (`ProcessedEvacuationZone`):
   * the coordinate format with a numeric urgency, and the legacy mirrors (`location`, `people`,
   * `urgency`).
   */
  datatype Zone = Zone(
    id: string,
    zoneId: Option<string>,
    locationCoordinates: Option<Coordinates>,
    numberOfPeople: Option<int>,
    urgencyLevel: Option<int>,
    location: Option<string>,
    people: Option<int>,
    urgency: Option<string>,
    evacuated: int)

  /** A vehicle as the vehicle registry stores it and the strategies read it (`ProcessedVehicle`). */
  datatype Vehicle = Vehicle(
    id: string,
    vehicleId: Option<string>,
    locationCoordinates: Option<Coordinates>,
    capacity: int,
    speed: Option<real>,
    vehicleType: string,
    location: Option<string>)

  /** A strategy's output record: `{ zoneId, vehicleId, etaMinutes, evacuated }`. */
  datatype Assignment = Assignment(zoneId: string, vehicleId: string, etaMinutes: Minutes, evacuated: int)

  /** `n || fallback` for an optional number: `undefined` and `0` are falsy. */
  function NumberOr(n: Option<int>, fallback: int): (r: int)
    ensures r == fallback || (n.Some? && r == n.value != 0)
    ensures n.Some? && n.value != 0 ==> r == n.value
  {
    if n.Some? && n.value != 0 then n.value else fallback
  }

  /** `speed || fallback`: an absent or zero speed falls back. */
  function SpeedOr(s: Option<real>, fallback: real): (r: real)
    ensures r == fallback || (s.Some? && r == s.value != 0.0)
    ensures s.Some? && s.value != 0.0 ==> r == s.value
  {
    if s.Some? && s.value != 0.0 then s.value else fallback
  }

  /** A string field is truthy when present and non-empty. */
  predicate Truthy(s: Option<string>) {
    s.Some? && s.value != ""
  }

  /** `s || fallback` for an optional string. */
  function StringOr(s: Option<string>, fallback: string): (r: string)
    ensures Truthy(s) ==> r == s.value
    ensures !Truthy(s) ==> r == fallback
  {
    if Truthy(s) then s.value else fallback
  }

  function Min(a: int, b: int): (r: int)
    ensures r <= a && r <= b && (r == a || r == b)
  {
    if a <= b then a else b
  }

  /** `Math.min` on finite reals, as the weighted score applies it to distances. */
  function MinReal(a: real, b: real): (r: real)
    ensures r <= a && r <= b && (r == a || r == b)
  {
    if a <= b then a else b
  }

  function Max(a: int, b: int): (r: int)
    ensures r >= a && r >= b && (r == a || r == b)
  {
    if a >= b then a else b
  }

  function LowerChar(c: char): char {
    if 'A' <= c <= 'Z' then (c as int + 32) as char else c
  }

  /** `toLowerCase()` on the ASCII letters; other characters are kept. */
  function ToLower(s: string): (r: string)
    ensures |r| == |s|
    ensures forall i :: 0 <= i < |s| ==> r[i] == LowerChar(s[i])
  {
    if s == [] then [] else [LowerChar(s[0])] + ToLower(s[1..])
  }

  /** Lower-casing twice is lower-casing once. */
  lemma ToLowerIdempotent(s: string)
    ensures ToLower(ToLower(s)) == ToLower(s)
  {
  }
}
