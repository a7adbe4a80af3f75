/**
 * Readings of a registry zone that the planning utilities and the zone registry share:
 * its head count, its location text and its urgency category.
 */
module ZoneHelpers {
  import opened Wrappers
  import opened Entities

  /** `zone.numberOfPeople || zone.people || 0`. */
  function TotalPeople(z: Zone): int {
    NumberOr(z.numberOfPeople, NumberOr(z.people, 0))
  }

  /**
   * The template `${latitude},${longitude}`. JavaScript's number-to-string conversion is
   * not part of this model; `show` stands for it.
   */
  function CoordinatesText(c: Coordinates, show: real -> string): string {
    show(c.latitude) + "," + show(c.longitude)
  }

  /** `getZoneLocation(zone)`: the legacy location, else the coordinates as text, else a placeholder. */
  function ZoneLocation(z: Zone, show: real -> string): (location: string)
    ensures Truthy(z.location) ==> location == z.location.value
    ensures !Truthy(z.location) && z.locationCoordinates.None? ==> location == "Unknown location"
  {
    if Truthy(z.location) then z.location.value
    else if z.locationCoordinates.Some? then CoordinatesText(z.locationCoordinates.value, show)
    else "Unknown location"
  }

  /** The category of a numeric level: 4 and above is high, 3 is medium, anything else low. */
  function CategoryOfLevel(level: int): string {
    if level >= 4 then "high" else if level == 3 then "medium" else "low"
  }

  /**
   * `getUrgencyCategory(zone)`: from the numeric level when there is one, else the lower-cased
   * legacy word, else "medium". The category is never empty.
   */
  function UrgencyCategory(z: Zone): (category: string)
    ensures z.urgencyLevel.Some? ==> category == CategoryOfLevel(z.urgencyLevel.value)
    ensures z.urgencyLevel.None? && Truthy(z.urgency) ==> category == ToLower(z.urgency.value)
    ensures category != ""
  {
    if z.urgencyLevel.Some? then CategoryOfLevel(z.urgencyLevel.value)
    else if Truthy(z.urgency) then ToLower(z.urgency.value)
    else "medium"
  }

  /**
   * The priority of a legacy urgency word, `{ high: 1, medium: 2, low: 3 }[word] || 3`:
   * 1 for "high" only, and 3 for any word the map does not hold.
   */
  function WordPriority(word: string): (p: int)
    ensures 1 <= p <= 3
    ensures p == 1 <==> word == "high"
    ensures p == 2 <==> word == "medium"
  {
    if word == "high" then 1 else if word == "medium" then 2 else if word == "low" then 3 else 3
  }
}
