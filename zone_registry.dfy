/**
 * The zone registry (`EvacuationService` of the evacuation module): zones are validated and
 * registered in either the coordinate format or the legacy format, with the other format's
 * fields derived; a plan pairs the zones that still hold people, by ascending priority, with
 * the vehicles, largest first, each vehicle used once; evacuation progress is recorded per
 * zone and clamped at the zone's head count.
 *
 * The random id generator is not part of this model (the id it would produce is a
 * parameter), nor is JavaScript's number-to-string conversion (`show`).
 */
module ZoneRegistry {
  import opened Wrappers
  import opened Entities
  import opened Sequences
  import opened ZoneHelpers
  import opened CapacityFill
  import VehicleRegistry
  import Strategies
  import EvacuationPlanning

  // ---------------------------------------------------------------------------------------
  // Intake

  /** The zone as a client submits it: every field optional. */
  datatype ZoneInput = ZoneInput(
    zoneId: Option<string>,
    locationCoordinates: Option<Coordinates>,
    numberOfPeople: Option<int>,
    urgencyLevel: Option<int>,
    location: Option<string>,
    people: Option<int>,
    urgency: Option<string>)

  const InvalidFormat: string :=
    "Invalid input format. Please provide either:\n"
    + "- New format: locationCoordinates, numberOfPeople, urgencyLevel\n"
    + "- Legacy format: location, people, urgency"
  const LevelOutOfRange: string := "Urgency level must be between 1 and 5"
  const NoPeople: string := "Number of people must be greater than 0"
  const NoCoordinates: string := "Valid latitude and longitude coordinates are required"
  const UnknownUrgency: string := "Urgency must be low, medium, or high"

  predicate HasNewFormat(input: ZoneInput) {
    input.locationCoordinates.Some? && input.numberOfPeople.Some? && input.urgencyLevel.Some?
  }

  predicate HasLegacyFormat(input: ZoneInput) {
    Truthy(input.location) && input.people.Some? && Truthy(input.urgency)
  }

  predicate KnownWord(word: string) {
    word == "low" || word == "medium" || word == "high"
  }

  /** `validateEvacuationZoneInput(zone)`: the first complaint, or nothing. */
  function ValidationError(input: ZoneInput): Option<string> {
    var isNew := HasNewFormat(input);
    var isLegacy := HasLegacyFormat(input);
    if !isNew && !isLegacy then Some(InvalidFormat)
    else if isNew then
      var level := input.urgencyLevel.value;
      var c := input.locationCoordinates.value;
      if level < 1 || level > 5 then Some(LevelOutOfRange)
      else if input.numberOfPeople.value <= 0 then Some(NoPeople)
      else if c.latitude == 0.0 || c.longitude == 0.0 then Some(NoCoordinates)
      else None
    else if input.people.value <= 0 then Some(NoPeople)
    else if !KnownWord(ToLower(input.urgency.value)) then Some(UnknownUrgency)
    else None
  }

  /**
   * The inputs the registry accepts: a complete coordinate format with a level from 1 to 5,
   * a positive head count and non-zero coordinates; or, failing a complete coordinate
   * format, a complete legacy format with a positive head count and a known urgency word.
   */
  ghost predicate Acceptable(input: ZoneInput) {
    || (&& HasNewFormat(input)
        && 1 <= input.urgencyLevel.value <= 5
        && input.numberOfPeople.value > 0
        && input.locationCoordinates.value.latitude != 0.0
        && input.locationCoordinates.value.longitude != 0.0)
    || (&& !HasNewFormat(input) && HasLegacyFormat(input)
        && input.people.value > 0
        && KnownWord(ToLower(input.urgency.value)))
  }

  /** Validation passes exactly on the acceptable inputs. */
  lemma ValidationSpec(input: ZoneInput)
    ensures ValidationError(input).None? <==> Acceptable(input)
  {
  }

  /** `urgencyMap[level] || 'medium'`: the legacy word derived from a level. */
  function LevelWord(level: int): string {
    if level == 1 || level == 2 then "low"
    else if level == 3 then "medium"
    else if level == 4 || level == 5 then "high"
    else "medium"
  }

  /** The zone `addEvacuationZone` builds: the format given, plus the other format's mirrors. */
  function Processed(input: ZoneInput, freshId: string, show: real -> string): Zone {
    var id := StringOr(input.zoneId, freshId);
    var isNew := HasNewFormat(input);
    Zone(
      id,
      if isNew then Some(StringOr(input.zoneId, id)) else None,
      if isNew then input.locationCoordinates else None,
      if isNew then input.numberOfPeople else None,
      if isNew then input.urgencyLevel else None,
      if Truthy(input.location) then input.location
      else if input.locationCoordinates.Some? then Some(CoordinatesText(input.locationCoordinates.value, show))
      else None,
      if input.people.Some? then input.people else input.numberOfPeople,
      if Truthy(input.urgency) then input.urgency
      else if input.urgencyLevel.Some? then Some(LevelWord(input.urgencyLevel.value))
      else None,
      0)
  }

  /** The registry after `addEvacuationZone`, with the zone it returns, or the validation error. */
  function Register(zones: seq<Zone>, input: ZoneInput, freshId: string, show: real -> string): (r: Result<(seq<Zone>, Zone)>)
    ensures r.Err? <==> !Acceptable(input)
    ensures r.Ok? ==> r.value.0 == zones + [r.value.1] && r.value.1.evacuated == 0
  {
    ValidationSpec(input);
    match ValidationError(input)
    case Some(e) => Err(e)
    case None =>
      var z := Processed(input, freshId, show);
      Ok((zones + [z], z))
  }

  /**
   * An accepted zone holds people to evacuate and a known urgency category; in the coordinate
   * format its id doubles as its `zoneId`, and the derived legacy word names the same category
   * as its level.
   */
  lemma AcceptedZone(input: ZoneInput, freshId: string, show: real -> string)
    requires Acceptable(input)
    ensures var z := Processed(input, freshId, show);
      && z.evacuated == 0
      && TotalPeople(z) > 0
      && KnownWord(UrgencyCategory(z))
      && (HasNewFormat(input) ==>
            && z.zoneId == Some(z.id)
            && z.numberOfPeople == input.numberOfPeople
            && z.urgencyLevel == input.urgencyLevel
            && (!Truthy(input.urgency) ==> z.urgency == Some(UrgencyCategory(z))))
  {
  }

  /** Ids supplied by the client are kept; otherwise the generated id is used. */
  lemma ProcessedId(input: ZoneInput, freshId: string, show: real -> string)
    ensures Truthy(input.zoneId) ==> Processed(input, freshId, show).id == input.zoneId.value
    ensures !Truthy(input.zoneId) ==> Processed(input, freshId, show).id == freshId
  {
  }

  // ---------------------------------------------------------------------------------------
  // The registry's own readings of a zone

  /** `getRemainingPeople(zone)`: total minus evacuated, not clamped at zero. */
  function Remaining(z: Zone): int {
    TotalPeople(z) - z.evacuated
  }

  /** `getUrgencyPriority(zone)`: `6 - level`, else the legacy word's priority, else 3. */
  function Priority(z: Zone): (p: int)
    ensures z.urgencyLevel.Some? ==> p + z.urgencyLevel.value == 6
    ensures z.urgencyLevel.None? ==> 1 <= p <= 3
  {
    if z.urgencyLevel.Some? then 6 - z.urgencyLevel.value
    else if Truthy(z.urgency) then WordPriority(ToLower(z.urgency.value))
    else 3
  }

  predicate IsHighZone(z: Zone) {
    UrgencyCategory(z) == "high"
  }

  /** The zones the plan visits: those with people left, by ascending priority, ties in registry order. */
  function SortedZones(zones: seq<Zone>): seq<Zone> {
    VisitOrder(zones, Remaining, Priority)
  }

  /** What the fill is asked to move for each visited zone. */
  function Needs(zs: seq<Zone>): seq<int> {
    NeedsOf(zs, Remaining)
  }

  // ---------------------------------------------------------------------------------------
  // The plan

  /** One entry of the plan, with its `zoneDetails` flattened into it. */
  datatype PlanEntry = PlanEntry(
    vehicleId: Option<string>,
    assignedZone: string,
    priority: int,
    capacity: int,
    peopleToEvacuate: int,
    zoneId: string,
    coordinates: Option<Coordinates>,
    urgencyLevel: Option<int>)

  datatype PlanSummary = PlanSummary(totalVehicles: int, totalPeopleToEvacuate: int, highPriorityZones: int)

  datatype RegistryPlan = RegistryPlan(plan: seq<PlanEntry>, summary: PlanSummary)

  function EntryPeople(e: PlanEntry): int {
    e.peopleToEvacuate
  }

  /** The entry pushed for `vehicle` serving `zone`. */
  function Entry(zone: Zone, vehicle: Vehicle, people: int, show: real -> string): PlanEntry {
    PlanEntry(
      EvacuationPlanning.KeyOf(vehicle), ZoneLocation(zone, show), Priority(zone), vehicle.capacity, people,
      Strategies.ZoneKey(zone), zone.locationCoordinates, zone.urgencyLevel)
  }

  /** `Entry` with the number formatting fixed, as the loops use it. */
  function EntryFor(show: real -> string): (Zone, Vehicle, int) -> PlanEntry {
    (zone, vehicle, people) => Entry(zone, vehicle, people, show)
  }

  /** The fill of the visited zones with the sorted vehicles. */
  function Takes(zones: seq<Zone>, vehicles: seq<Vehicle>): seq<Take> {
    PlanTakes(SortedZones(zones), Remaining, vehicles)
  }

  /** `generateEvacuationPlan(vehicles)` once the vehicles are known. */
  function PlanOf(zones: seq<Zone>, vehicles: seq<Vehicle>, show: real -> string): RegistryPlan {
    if |vehicles| == 0 then RegistryPlan([], PlanSummary(0, 0, |Filter(zones, IsHighZone)|))
    else
      var zs := SortedZones(zones);
      var plan := Entries(zs, SortByCapacity(vehicles), Takes(zones, vehicles), EntryFor(show));
      RegistryPlan(plan, PlanSummary(|plan|, SumOf(plan, EntryPeople), |Filter(zs, IsHighZone)|))
  }

  /** Without vehicles the plan is empty and counts the registry's high-urgency zones. */
  lemma PlanWithoutVehicles(zones: seq<Zone>, show: real -> string)
    ensures PlanOf(zones, [], show).plan == []
    ensures PlanOf(zones, [], show).summary.totalVehicles == PlanOf(zones, [], show).summary.totalPeopleToEvacuate == 0
    ensures PlanOf(zones, [], show).summary.highPriorityZones == |Filter(zones, IsHighZone)| <= |zones|
  {
    FilterKeeps(zones, IsHighZone);
  }

  /**
   * Entry `i` uses the `i`-th vehicle by descending capacity, so no vehicle is used twice and
   * there are no more entries than vehicles.
   */
  lemma PlanVehicles(zones: seq<Zone>, vehicles: seq<Vehicle>, show: real -> string)
    ensures var p := PlanOf(zones, vehicles, show).plan;
      && |p| <= |vehicles|
      && forall i :: 0 <= i < |p| ==>
           && p[i].vehicleId == EvacuationPlanning.KeyOf(SortByCapacity(vehicles)[i])
           && p[i].capacity == SortByCapacity(vehicles)[i].capacity
  {
    if |vehicles| > 0 {
      PlanTakesInBounds(SortedZones(zones), Remaining, vehicles);
      EntriesAt(SortedZones(zones), SortByCapacity(vehicles), Takes(zones, vehicles), EntryFor(show));
    }
  }

  /** Every entry serves a registry zone with people left and reports its priority and key. */
  lemma PlanZonesServed(zones: seq<Zone>, vehicles: seq<Vehicle>, show: real -> string)
    ensures var p := PlanOf(zones, vehicles, show).plan;
      forall i :: 0 <= i < |p| ==>
        exists z :: z in zones && Remaining(z) > 0 && p[i].priority == Priority(z) && p[i].zoneId == Strategies.ZoneKey(z)
  {
    if |vehicles| > 0 {
      var zs := SortedZones(zones);
      var ts := Takes(zones, vehicles);
      PlanTakesInBounds(SortedZones(zones), Remaining, vehicles);
      EntriesAt(SortedZones(zones), SortByCapacity(vehicles), Takes(zones, vehicles), EntryFor(show));
      VisitOrderSpec(zones, Remaining, Priority);
      var p := PlanOf(zones, vehicles, show).plan;
      forall i | 0 <= i < |p|
        ensures exists z :: z in zones && Remaining(z) > 0 && p[i].priority == Priority(z) && p[i].zoneId == Strategies.ZoneKey(z)
      {
        assert ts[i] in ts;
        assert zs[ts[i].zoneIndex] in zs;
      }
    }
  }

  /** Entry `i` of the plan reports the priority of the zone its fill record serves. */
  lemma PlanPriorityAt(zones: seq<Zone>, vehicles: seq<Vehicle>, show: real -> string, i: nat)
    requires |vehicles| > 0 && i < |PlanOf(zones, vehicles, show).plan|
    ensures i < |Takes(zones, vehicles)| && Takes(zones, vehicles)[i].zoneIndex < |SortedZones(zones)|
    ensures PlanOf(zones, vehicles, show).plan[i].priority == Priority(SortedZones(zones)[Takes(zones, vehicles)[i].zoneIndex])
  {
    PlanTakesInBounds(SortedZones(zones), Remaining, vehicles);
    EntriesAt(SortedZones(zones), SortByCapacity(vehicles), Takes(zones, vehicles), EntryFor(show));
  }

  /** The priorities never decrease along the plan: the most urgent zones are served first. */
  lemma PlanOrdered(zones: seq<Zone>, vehicles: seq<Vehicle>, show: real -> string)
    ensures var p := PlanOf(zones, vehicles, show).plan;
      forall i, j :: 0 <= i < j < |p| ==> p[i].priority <= p[j].priority
  {
    if |vehicles| > 0 {
      var zs := SortedZones(zones);
      var ts := Takes(zones, vehicles);
      var p := PlanOf(zones, vehicles, show).plan;
      forall i, j | 0 <= i < j < |p| ensures p[i].priority <= p[j].priority {
        PlanPriorityAt(zones, vehicles, show, i);
        PlanPriorityAt(zones, vehicles, show, j);
        var a, b := ts[i].zoneIndex, ts[j].zoneIndex;
        assert a <= b by {
          FillOrdered(Needs(zs), 0, Capacities(SortByCapacity(vehicles)), 0);
        }
        if a < b {
          VisitOrderSpec(zones, Remaining, Priority);
        }
      }
    }
  }

  /**
   * Each entry moves the people of its fill record; a zone's records move no more than its
   * remaining people, and exactly that many when some vehicle is left unused.
   */
  lemma PlanPerZone(zones: seq<Zone>, vehicles: seq<Vehicle>, show: real -> string, m: nat)
    requires |vehicles| > 0 && m < |SortedZones(zones)|
    ensures var ts := Takes(zones, vehicles);
      && SumOf(Filter(ts, AtZone(m)), Moved) <= Remaining(SortedZones(zones)[m])
      && (|ts| < |vehicles| ==> SumOf(Filter(ts, AtZone(m)), Moved) == Remaining(SortedZones(zones)[m]))
      && |PlanOf(zones, vehicles, show).plan| == |ts|
      && forall i :: 0 <= i < |ts| ==> PlanOf(zones, vehicles, show).plan[i].peopleToEvacuate == ts[i].people
  {
    var zs := SortedZones(zones);
    VisitOrderSpec(zones, Remaining, Priority);
    assert zs[m] in zs;
    NeedsOfAt(zs, Remaining, m);
    PlanTakesInBounds(SortedZones(zones), Remaining, vehicles);
    EntriesAt(SortedZones(zones), SortByCapacity(vehicles), Takes(zones, vehicles), EntryFor(show));
    FillPerZone(Needs(zs), 0, Capacities(SortByCapacity(vehicles)), 0, m);
    if |Takes(zones, vehicles)| < |vehicles| {
      FillPerZoneServed(Needs(zs), 0, Capacities(SortByCapacity(vehicles)), 0, m);
    }
  }

  /**
   * The summary counts one vehicle per entry and the entries' people, which never exceed the
   * visited zones' remaining people and equal them when some vehicle is left unused.
   */
  lemma PlanTotals(zones: seq<Zone>, vehicles: seq<Vehicle>, show: real -> string)
    requires |vehicles| > 0
    ensures var r := PlanOf(zones, vehicles, show);
      && r.summary.totalVehicles == |r.plan| <= |vehicles|
      && r.summary.totalPeopleToEvacuate <= SumOf(Needs(SortedZones(zones)), Id)
      && (|r.plan| < |vehicles| ==> r.summary.totalPeopleToEvacuate == SumOf(Needs(SortedZones(zones)), Id))
      && r.summary.highPriorityZones <= |SortedZones(zones)|
  {
    var zs := SortedZones(zones);
    var ts := Takes(zones, vehicles);
    PlanTakesInBounds(SortedZones(zones), Remaining, vehicles);
    EntriesAt(SortedZones(zones), SortByCapacity(vehicles), Takes(zones, vehicles), EntryFor(show));
    VisitOrderSpec(zones, Remaining, Priority);
    var needs := Needs(zs);
    forall m | 0 <= m < |needs| ensures needs[m] >= 0 {
      NeedsOfAt(zs, Remaining, m);
      assert zs[m] in zs;
    }
    FillTotal(needs, 0, Capacities(SortByCapacity(vehicles)), 0);
    assert needs[0..] == needs;
    var p := PlanOf(zones, vehicles, show).plan;
    SumOfPointwise(p, EntryPeople, ts, Moved);
    FilterKeeps(zs, IsHighZone);
  }

  // ---------------------------------------------------------------------------------------
  // Status

  datatype ZoneStatus = ZoneStatus(
    location: string, zoneId: string, coordinates: Option<Coordinates>,
    totalPeople: int, evacuated: int, remaining: int,
    urgency: Option<string>, urgencyLevel: Option<int>, status: string)

  function StatusOf(z: Zone, show: real -> string): ZoneStatus {
    var total := TotalPeople(z);
    ZoneStatus(
      ZoneLocation(z, show), Strategies.ZoneKey(z), z.locationCoordinates,
      total, z.evacuated, total - z.evacuated,
      z.urgency, z.urgencyLevel, if z.evacuated >= total then "completed" else "in-progress")
  }

  /** `getEvacuationStatus().zones`: one status per registered zone, in registry order. */
  function Statuses(zones: seq<Zone>, show: real -> string): (r: seq<ZoneStatus>)
    ensures |r| == |zones|
    ensures forall i :: 0 <= i < |zones| ==> r[i] == StatusOf(zones[i], show)
  {
    if zones == [] then [] else [StatusOf(zones[0], show)] + Statuses(zones[1..], show)
  }

  /** No zone records more evacuated people than it holds. */
  ghost predicate Recorded(zones: seq<Zone>) {
    forall z :: z in zones ==> z.evacuated <= TotalPeople(z)
  }

  /**
   * In a registry that never over-records, the status view reports no negative remainder,
   * and a zone is completed exactly when nobody remains.
   */
  lemma StatusesOfRecorded(zones: seq<Zone>, show: real -> string)
    requires Recorded(zones)
    ensures forall s :: s in Statuses(zones, show) ==>
      && s.remaining == s.totalPeople - s.evacuated >= 0
      && (s.status == "completed" <==> s.remaining == 0)
  {
    var r := Statuses(zones, show);
    forall s | s in r ensures s.remaining == s.totalPeople - s.evacuated >= 0 && (s.status == "completed" <==> s.remaining == 0) {
      var i :| 0 <= i < |r| && r[i] == s;
      assert zones[i] in zones;
    }
  }

  // ---------------------------------------------------------------------------------------
  // Progress updates

  predicate Matches(z: Zone, key: string, show: real -> string) {
    ZoneLocation(z, show) == key || z.zoneId == Some(key) || z.id == key
  }

  /** The position `find` stops at: the first zone matching by location, `zoneId` or id. */
  function FirstMatch(zones: seq<Zone>, key: string, show: real -> string): (r: Option<nat>)
    ensures r.Some? ==> r.value < |zones| && Matches(zones[r.value], key, show)
    ensures r.Some? ==> forall j :: 0 <= j < r.value ==> !Matches(zones[j], key, show)
    ensures r.None? ==> forall j :: 0 <= j < |zones| ==> !Matches(zones[j], key, show)
  {
    FirstMatchFrom(zones, key, show, 0)
  }

  /** `find` from position `from` on. */
  function FirstMatchFrom(zones: seq<Zone>, key: string, show: real -> string, from: nat): (r: Option<nat>)
    requires from <= |zones|
    ensures r.Some? ==> from <= r.value < |zones| && Matches(zones[r.value], key, show)
    ensures r.Some? ==> forall j :: from <= j < r.value ==> !Matches(zones[j], key, show)
    ensures r.None? ==> forall j :: from <= j < |zones| ==> !Matches(zones[j], key, show)
    decreases |zones| - from
  {
    if from == |zones| then None
    else if Matches(zones[from], key, show) then Some(from)
    else FirstMatchFrom(zones, key, show, from + 1)
  }

  datatype UpdateReport = UpdateReport(
    message: string, location: string, zoneId: string, coordinates: Option<Coordinates>,
    totalPeople: int, evacuated: int, remaining: int, vehicleUsed: string)

  function NotFound(key: string): string {
    "Zone " + key + " not found"
  }

  /** The zone after `count` more people left it: `min(evacuated + count, total)`. */
  function Evacuate(z: Zone, count: int): Zone {
    z.(evacuated := Min(z.evacuated + count, TotalPeople(z)))
  }

  function ReportOf(z: Zone, vehicleId: string, show: real -> string): UpdateReport {
    var total := TotalPeople(z);
    UpdateReport(
      "Updated evacuation status for " + ZoneLocation(z, show), ZoneLocation(z, show), Strategies.ZoneKey(z),
      z.locationCoordinates, total, z.evacuated, total - z.evacuated, vehicleId)
  }

  /** `updateEvacuationStatus(key, count, vehicleId)`: the registry after it and its report, or the error. */
  function Update(zones: seq<Zone>, key: string, count: int, vehicleId: string, show: real -> string)
    : Result<(seq<Zone>, UpdateReport)>
  {
    match FirstMatch(zones, key, show)
    case None => Err(NotFound(key))
    case Some(i) =>
      var z := Evacuate(zones[i], count);
      Ok((zones[i := z], ReportOf(z, vehicleId, show)))
  }

  /**
   * An update fails exactly when no zone matches; otherwise it changes the first matching
   * zone's evacuated count only, never beyond the zone's head count, and nothing else.
   */
  lemma UpdateSpec(zones: seq<Zone>, key: string, count: int, vehicleId: string, show: real -> string)
    ensures Update(zones, key, count, vehicleId, show).Err? <==> forall z :: z in zones ==> !Matches(z, key, show)
    ensures Update(zones, key, count, vehicleId, show).Err? ==> Update(zones, key, count, vehicleId, show).message == NotFound(key)
    ensures Update(zones, key, count, vehicleId, show).Ok? ==>
      var after := Update(zones, key, count, vehicleId, show).value.0;
      var i := FirstMatch(zones, key, show).value;
      && |after| == |zones|
      && (forall j :: 0 <= j < |zones| && j != i ==> after[j] == zones[j])
      && after[i] == zones[i].(evacuated := after[i].evacuated)
      && after[i].evacuated <= TotalPeople(zones[i])
      && (zones[i].evacuated + count <= TotalPeople(zones[i]) ==> after[i].evacuated == zones[i].evacuated + count)
      && Update(zones, key, count, vehicleId, show).value.1.remaining >= 0
  {
    if FirstMatch(zones, key, show).Some? {
      var i := FirstMatch(zones, key, show).value;
      assert zones[i] in zones;
    } else {
      forall z | z in zones ensures !Matches(z, key, show) {
        var j :| 0 <= j < |zones| && zones[j] == z;
      }
    }
  }

  /** Updates keep a registry that never over-records so. */
  lemma UpdateKeepsRecorded(zones: seq<Zone>, key: string, count: int, vehicleId: string, show: real -> string)
    requires Recorded(zones)
    ensures Update(zones, key, count, vehicleId, show).Ok? ==> Recorded(Update(zones, key, count, vehicleId, show).value.0)
  {
    if FirstMatch(zones, key, show).Some? {
      var i := FirstMatch(zones, key, show).value;
      var after := Update(zones, key, count, vehicleId, show).value.0;
      forall z | z in after ensures z.evacuated <= TotalPeople(z) {
        var j :| 0 <= j < |after| && after[j] == z;
        if j != i {
          assert zones[j] in zones;
        }
      }
    }
  }

  /** Registration keeps a registry that never over-records so. */
  lemma RegisterKeepsRecorded(zones: seq<Zone>, input: ZoneInput, freshId: string, show: real -> string)
    requires Recorded(zones)
    ensures Register(zones, input, freshId, show).Ok? ==> Recorded(Register(zones, input, freshId, show).value.0)
  {
    if Acceptable(input) {
      AcceptedZone(input, freshId, show);
    }
  }

  // ---------------------------------------------------------------------------------------
  // The plan as `generateEvacuationPlan` builds it

  /**
   * The inner `while` of `generateEvacuationPlan`: vehicles from `vehicleIndex` on, each moving
   * `min(peopleToEvacuate, capacity)` of the zone's remaining people, until nobody is left or
   * the vehicles run out.
   */
  method ServeZone(zone: Zone, sortedVehicles: seq<Vehicle>, vehicleIndex: nat, plan: seq<PlanEntry>, show: real -> string)
    returns (plan': seq<PlanEntry>, vehicleIndex': nat)
    requires vehicleIndex <= |sortedVehicles|
    ensures plan' == plan + ZoneEntries(zone, sortedVehicles, Remaining(zone), vehicleIndex, EntryFor(show))
    ensures vehicleIndex' == vehicleIndex + |ZoneEntries(zone, sortedVehicles, Remaining(zone), vehicleIndex, EntryFor(show))|
  {
    var remainingPeople := Remaining(zone);
    var peopleToEvacuate := remainingPeople;
    plan', vehicleIndex' := plan, vehicleIndex;
    ghost var whole := plan + ZoneEntries(zone, sortedVehicles, remainingPeople, vehicleIndex, EntryFor(show));
    ghost var stop := vehicleIndex + |ZoneEntries(zone, sortedVehicles, remainingPeople, vehicleIndex, EntryFor(show))|;
    while peopleToEvacuate > 0 && vehicleIndex' < |sortedVehicles|
      invariant vehicleIndex <= vehicleIndex' <= |sortedVehicles|
      invariant plan' + ZoneEntries(zone, sortedVehicles, peopleToEvacuate, vehicleIndex', EntryFor(show)) == whole
      invariant vehicleIndex' + |ZoneEntries(zone, sortedVehicles, peopleToEvacuate, vehicleIndex', EntryFor(show))| == stop
      decreases |sortedVehicles| - vehicleIndex'
    {
      var vehicle := sortedVehicles[vehicleIndex'];
      var canEvacuate := Min(peopleToEvacuate, vehicle.capacity);
      var entry := Entry(zone, vehicle, canEvacuate, show);
      ghost var built, left, idx := plan', peopleToEvacuate, vehicleIndex';
      plan' := plan' + [entry];
      peopleToEvacuate := peopleToEvacuate - canEvacuate;
      vehicleIndex' := vehicleIndex' + 1;
      ZoneLoopStep(zone, sortedVehicles, left, peopleToEvacuate, idx, vehicleIndex', built, plan', whole, stop, EntryFor(show));
    }
    ZoneLoopEnd(zone, sortedVehicles, peopleToEvacuate, vehicleIndex', plan', whole, stop, EntryFor(show));
  }

  /** The body of `generateEvacuationPlan` once the vehicles are known and there are some. */
  method BuildPlan(zones: seq<Zone>, availableVehicles: seq<Vehicle>, show: real -> string) returns (r: RegistryPlan)
    requires |availableVehicles| > 0
    ensures r == PlanOf(zones, availableVehicles, show)
  {
    var sortedZones := SortedZones(zones);
    var sortedVehicles := SortByCapacity(availableVehicles);
    var plan: seq<PlanEntry> := [];
    var vehicleIndex: nat := 0;
    ghost var needs := Needs(sortedZones);
    ghost var whole := Entries(sortedZones, sortedVehicles, Fill(needs, 0, Capacities(sortedVehicles), 0), EntryFor(show));
    FillLoopStart(whole);
    for k := 0 to |sortedZones|
      invariant vehicleIndex <= |sortedVehicles|
      invariant plan + Entries(sortedZones, sortedVehicles, Fill(needs, k, Capacities(sortedVehicles), vehicleIndex), EntryFor(show)) == whole
    {
      NeedsOfAt(sortedZones, Remaining, k);
      ghost var built, idx := plan, vehicleIndex;
      plan, vehicleIndex := ServeZone(sortedZones[k], sortedVehicles, vehicleIndex, plan, show);
      FillLoopStep(sortedZones, needs, sortedVehicles, k, Remaining(sortedZones[k]), idx, vehicleIndex, built, plan, whole, EntryFor(show));
    }
    FillLoopEnd(sortedZones, needs, sortedVehicles, vehicleIndex, plan, whole, EntryFor(show));
    var summary := PlanSummary(|plan|, SumOf(plan, EntryPeople), |Filter(sortedZones, IsHighZone)|);
    r := RegistryPlan(plan, summary);
  }

  // ---------------------------------------------------------------------------------------
  // The service

  datatype ClearReport = ClearReport(message: string, success: bool)

  class EvacuationService {
    var evacuationZones: seq<Zone>
    const vehicleService: VehicleRegistry.VehicleService

    constructor(vehicleService: VehicleRegistry.VehicleService)
      ensures evacuationZones == [] && this.vehicleService == vehicleService
    {
      evacuationZones := [];
      this.vehicleService := vehicleService;
    }

    function GetEvacuationZones(): seq<Zone>
      reads this
    {
      evacuationZones
    }

    /** `addEvacuationZone(zone)`: validate, then append the processed zone. */
    method AddEvacuationZone(input: ZoneInput, freshId: string, show: real -> string) returns (r: Result<Zone>)
      modifies this
      ensures var reg := Register(old(evacuationZones), input, freshId, show);
        && (reg.Err? ==> r == Err(reg.message) && evacuationZones == old(evacuationZones))
        && (reg.Ok? ==> r == Ok(reg.value.1) && evacuationZones == reg.value.0)
    {
      var error := ValidationError(input);
      if error.Some? {
        return Err(error.value);
      }
      var newZone := Processed(input, freshId, show);
      evacuationZones := evacuationZones + [newZone];
      r := Ok(newZone);
    }

    /** `generateEvacuationPlan(vehicles?)`: the zone loop with the shared, forward-only vehicle index. */
    method GenerateEvacuationPlan(vehicles: Option<seq<Vehicle>>, show: real -> string) returns (r: RegistryPlan)
      ensures r == PlanOf(evacuationZones, vehicles.GetOr(vehicleService.vehicles), show)
    {
      var availableVehicles := if vehicles.Some? then vehicles.value else vehicleService.GetAllVehicles();
      if |availableVehicles| == 0 {
        return RegistryPlan([], PlanSummary(0, 0, |Filter(evacuationZones, IsHighZone)|));
      }
      r := BuildPlan(evacuationZones, availableVehicles, show);
    }

    /** `getEvacuationStatus()`. */
    function GetEvacuationStatus(show: real -> string): seq<ZoneStatus>
      reads this
    {
      Statuses(evacuationZones, show)
    }

    /** `updateEvacuationStatus(key, count, vehicleId)`: the zone object is updated in place. */
    method UpdateEvacuationStatus(zoneLocation: string, evacuatedCount: int, vehicleId: string, show: real -> string)
      returns (r: Result<UpdateReport>)
      modifies this
      ensures var u := Update(old(evacuationZones), zoneLocation, evacuatedCount, vehicleId, show);
        && (u.Err? ==> r == Err(u.message) && evacuationZones == old(evacuationZones))
        && (u.Ok? ==> r == Ok(u.value.1) && evacuationZones == u.value.0)
    {
      var index := FirstMatch(evacuationZones, zoneLocation, show);
      if index.None? {
        return Err(NotFound(zoneLocation));
      }
      var zone := evacuationZones[index.value];
      var totalPeople := TotalPeople(zone);
      zone := zone.(evacuated := Min(zone.evacuated + evacuatedCount, totalPeople));
      evacuationZones := evacuationZones[index.value := zone];
      r := Ok(ReportOf(zone, vehicleId, show));
    }

    /** `clearEvacuationPlans()`: the registry is emptied. */
    method ClearEvacuationPlans() returns (r: ClearReport)
      modifies this
      ensures evacuationZones == []
      ensures r == ClearReport("All evacuation plans have been cleared and data has been reset", true)
    {
      evacuationZones := [];
      r := ClearReport("All evacuation plans have been cleared and data has been reset", true);
    }
  }
}
