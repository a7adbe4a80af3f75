/**
 * The older zone registry at the top of the source tree (`src/evacuation.service.ts`): zones
 * in the legacy format only, registered without validation; the same single-pass plan as the
 * newer registry, keyed on the urgency word alone; progress recorded by location.
 *
 * The random id generator is not part of this model (the id it would produce is a
 * parameter). The vehicle registry this service imports (`src/vehicle.service.ts`) is not
 * modelled; the vehicle module's `VehicleService`, which keeps the same list, stands for it.
 */
module LegacyRegistry {
  import opened Wrappers
  import opened Entities
  import opened Sequences
  import opened ZoneHelpers
  import opened CapacityFill
  import VehicleRegistry

  /** The fields a legacy client submits. */
  datatype ZoneInput = ZoneInput(location: string, people: int, urgency: string)

  /** A registered zone: the submitted fields, the evacuated count and the generated id. */
  datatype LegacyZone = LegacyZone(location: string, people: int, urgency: string, evacuated: int, id: string)

  /** `{ ...zone, evacuated: 0, id }`. */
  function Registered(input: ZoneInput, freshId: string): (z: LegacyZone)
    ensures z.location == input.location && z.people == input.people && z.urgency == input.urgency
    ensures z.evacuated == 0 && z.id == freshId
  {
    LegacyZone(input.location, input.people, input.urgency, 0, freshId)
  }

  // ---------------------------------------------------------------------------------------
  // Readings of a zone

  /** `zone.people - zone.evacuated`. */
  function Remaining(z: LegacyZone): int {
    z.people - z.evacuated
  }

  /** `urgencyPriority[zone.urgency.toLowerCase()] || 3`. */
  function Priority(z: LegacyZone): (p: int)
    ensures 1 <= p <= 3
    ensures p == 1 <==> IsHighZone(z)
  {
    WordPriority(ToLower(z.urgency))
  }

  predicate IsHighZone(z: LegacyZone) {
    ToLower(z.urgency) == "high"
  }

  /** The zones the plan visits: those with people left, by ascending priority, ties in registry order. */
  function SortedZones(zones: seq<LegacyZone>): seq<LegacyZone> {
    VisitOrder(zones, Remaining, Priority)
  }

  /** What the fill is asked to move for each visited zone. */
  function Needs(zs: seq<LegacyZone>): seq<int> {
    NeedsOf(zs, Remaining)
  }

  // ---------------------------------------------------------------------------------------
  // The plan

  datatype PlanEntry = PlanEntry(vehicleId: string, assignedZone: string, priority: int, capacity: int, peopleToEvacuate: int)

  datatype PlanSummary = PlanSummary(totalVehicles: int, totalPeopleToEvacuate: int, highPriorityZones: int)

  datatype RegistryPlan = RegistryPlan(plan: seq<PlanEntry>, summary: PlanSummary)

  function EntryPeople(e: PlanEntry): int {
    e.peopleToEvacuate
  }

  /** The entry pushed for `vehicle` serving `zone`. */
  function Entry(zone: LegacyZone, vehicle: Vehicle, people: int): PlanEntry {
    PlanEntry(vehicle.id, zone.location, Priority(zone), vehicle.capacity, people)
  }

  /** The fill of the visited zones with the sorted vehicles. */
  function Takes(zones: seq<LegacyZone>, vehicles: seq<Vehicle>): seq<Take> {
    PlanTakes(SortedZones(zones), Remaining, vehicles)
  }

  /** `generateEvacuationPlan(vehicles)` once the vehicles are known. */
  function PlanOf(zones: seq<LegacyZone>, vehicles: seq<Vehicle>): RegistryPlan {
    if |vehicles| == 0 then RegistryPlan([], PlanSummary(0, 0, |Filter(zones, IsHighZone)|))
    else
      var zs := SortedZones(zones);
      var plan := Entries(zs, SortByCapacity(vehicles), Takes(zones, vehicles), Entry);
      RegistryPlan(plan, PlanSummary(|plan|, SumOf(plan, EntryPeople), |Filter(zs, IsHighZone)|))
  }

  /**
   * Without vehicles the plan is empty and counts every high-urgency zone of the registry;
   * with vehicles only the visited zones are counted, so zones already cleared drop out.
   */
  lemma PlanHighCount(zones: seq<LegacyZone>, vehicles: seq<Vehicle>)
    ensures |vehicles| == 0 ==>
      && PlanOf(zones, vehicles).plan == []
      && PlanOf(zones, vehicles).summary == PlanSummary(0, 0, |Filter(zones, IsHighZone)|)
    ensures |vehicles| > 0 ==>
      PlanOf(zones, vehicles).summary.highPriorityZones == |Filter(SortedZones(zones), IsHighZone)|
    ensures PlanOf(zones, vehicles).summary.highPriorityZones <= |zones|
  {
    FilterKeeps(zones, IsHighZone);
    FilterKeeps(zones, Pending(Remaining));
    var zs := SortedZones(zones);
    VisitOrderSpec(zones, Remaining, Priority);
    FilterKeeps(zs, IsHighZone);
  }

  /**
   * Entry `i` uses the `i`-th vehicle by descending capacity, so no vehicle is used twice and
   * there are no more entries than vehicles.
   */
  lemma PlanVehicles(zones: seq<LegacyZone>, vehicles: seq<Vehicle>)
    ensures var p := PlanOf(zones, vehicles).plan;
      && |p| <= |vehicles|
      && forall i :: 0 <= i < |p| ==>
           p[i].vehicleId == SortByCapacity(vehicles)[i].id && p[i].capacity == SortByCapacity(vehicles)[i].capacity
  {
    if |vehicles| > 0 {
      PlanTakesInBounds(SortedZones(zones), Remaining, vehicles);
      EntriesAt(SortedZones(zones), SortByCapacity(vehicles), Takes(zones, vehicles), Entry);
    }
  }

  /** Every entry serves a registry zone with people left, by its location and priority. */
  lemma PlanZonesServed(zones: seq<LegacyZone>, vehicles: seq<Vehicle>)
    ensures var p := PlanOf(zones, vehicles).plan;
      forall i :: 0 <= i < |p| ==>
        exists z :: z in zones && Remaining(z) > 0 && p[i].priority == Priority(z) && p[i].assignedZone == z.location
  {
    if |vehicles| > 0 {
      var zs := SortedZones(zones);
      var ts := Takes(zones, vehicles);
      PlanTakesInBounds(SortedZones(zones), Remaining, vehicles);
      EntriesAt(SortedZones(zones), SortByCapacity(vehicles), Takes(zones, vehicles), Entry);
      VisitOrderSpec(zones, Remaining, Priority);
      var p := PlanOf(zones, vehicles).plan;
      forall i | 0 <= i < |p|
        ensures exists z :: z in zones && Remaining(z) > 0 && p[i].priority == Priority(z) && p[i].assignedZone == z.location
      {
        assert ts[i] in ts;
        assert zs[ts[i].zoneIndex] in zs;
      }
    }
  }

  /** The priorities never decrease along the plan: "high" zones are served first. */
  lemma PlanOrdered(zones: seq<LegacyZone>, vehicles: seq<Vehicle>)
    ensures var p := PlanOf(zones, vehicles).plan;
      forall i, j :: 0 <= i < j < |p| ==> p[i].priority <= p[j].priority
  {
    if |vehicles| > 0 {
      var zs := SortedZones(zones);
      var vs := SortByCapacity(vehicles);
      var ts := Takes(zones, vehicles);
      PlanTakesInBounds(SortedZones(zones), Remaining, vehicles);
      EntriesAt(SortedZones(zones), SortByCapacity(vehicles), Takes(zones, vehicles), Entry);
      var p := PlanOf(zones, vehicles).plan;
      assert p == Entries(zs, vs, ts, Entry);
      forall i, j | 0 <= i < j < |p| ensures p[i].priority <= p[j].priority {
        assert ts[i] in ts && ts[j] in ts;
        var a, b := ts[i].zoneIndex, ts[j].zoneIndex;
        assert p[i].priority == Priority(zs[a]) && p[j].priority == Priority(zs[b]);
        assert a <= b by {
          FillOrdered(Needs(zs), 0, Capacities(vs), 0);
        }
        if a < b {
          assert Priority(zs[a]) <= Priority(zs[b]) by {
            VisitOrderSpec(zones, Remaining, Priority);
          }
        }
      }
    }
  }

  /**
   * Each entry moves the people of its fill record; a zone's records move no more than its
   * remaining people, and exactly that many when some vehicle is left unused.
   */
  lemma PlanPerZone(zones: seq<LegacyZone>, vehicles: seq<Vehicle>, m: nat)
    requires |vehicles| > 0 && m < |SortedZones(zones)|
    ensures var ts := Takes(zones, vehicles);
      && SumOf(Filter(ts, AtZone(m)), Moved) <= Remaining(SortedZones(zones)[m])
      && (|ts| < |vehicles| ==> SumOf(Filter(ts, AtZone(m)), Moved) == Remaining(SortedZones(zones)[m]))
      && |PlanOf(zones, vehicles).plan| == |ts|
      && forall i :: 0 <= i < |ts| ==> PlanOf(zones, vehicles).plan[i].peopleToEvacuate == ts[i].people
  {
    var zs := SortedZones(zones);
    VisitOrderSpec(zones, Remaining, Priority);
    assert zs[m] in zs;
    NeedsOfAt(zs, Remaining, m);
    PlanTakesInBounds(SortedZones(zones), Remaining, vehicles);
    EntriesAt(SortedZones(zones), SortByCapacity(vehicles), Takes(zones, vehicles), Entry);
    FillPerZone(Needs(zs), 0, Capacities(SortByCapacity(vehicles)), 0, m);
    if |Takes(zones, vehicles)| < |vehicles| {
      FillPerZoneServed(Needs(zs), 0, Capacities(SortByCapacity(vehicles)), 0, m);
    }
  }

  /**
   * The summary counts one vehicle per entry and the entries' people, which never exceed the
   * visited zones' remaining people and equal them when some vehicle is left unused.
   */
  lemma PlanTotals(zones: seq<LegacyZone>, vehicles: seq<Vehicle>)
    requires |vehicles| > 0
    ensures var r := PlanOf(zones, vehicles);
      && r.summary.totalVehicles == |r.plan| <= |vehicles|
      && r.summary.totalPeopleToEvacuate <= SumOf(Needs(SortedZones(zones)), Id)
      && (|r.plan| < |vehicles| ==> r.summary.totalPeopleToEvacuate == SumOf(Needs(SortedZones(zones)), Id))
  {
    var zs := SortedZones(zones);
    var ts := Takes(zones, vehicles);
    PlanTakesInBounds(SortedZones(zones), Remaining, vehicles);
    EntriesAt(SortedZones(zones), SortByCapacity(vehicles), Takes(zones, vehicles), Entry);
    VisitOrderSpec(zones, Remaining, Priority);
    var needs := Needs(zs);
    forall m | 0 <= m < |needs| ensures needs[m] >= 0 {
      NeedsOfAt(zs, Remaining, m);
      assert zs[m] in zs;
    }
    FillTotal(needs, 0, Capacities(SortByCapacity(vehicles)), 0);
    assert needs[0..] == needs;
    var p := PlanOf(zones, vehicles).plan;
    SumOfPointwise(p, EntryPeople, ts, Moved);
  }

  // ---------------------------------------------------------------------------------------
  // Status

  datatype ZoneStatus = ZoneStatus(
    location: string, totalPeople: int, evacuated: int, remaining: int, urgency: string, status: string)

  function StatusOf(z: LegacyZone): ZoneStatus {
    ZoneStatus(
      z.location, z.people, z.evacuated, z.people - z.evacuated, z.urgency,
      if z.evacuated >= z.people then "completed" else "in-progress")
  }

  /** `getEvacuationStatus().zones`: one status per registered zone, in registry order. */
  function Statuses(zones: seq<LegacyZone>): (r: seq<ZoneStatus>)
    ensures |r| == |zones|
    ensures forall i :: 0 <= i < |zones| ==> r[i] == StatusOf(zones[i])
  {
    if zones == [] then [] else [StatusOf(zones[0])] + Statuses(zones[1..])
  }

  /** Every zone holds a non-negative count of evacuated people, no more than its head count. */
  ghost predicate Recorded(zones: seq<LegacyZone>) {
    forall z :: z in zones ==> 0 <= z.evacuated <= z.people
  }

  /**
   * In a registry that records sensibly, the status view reports no negative remainder, and
   * a zone is completed exactly when nobody remains.
   */
  lemma StatusesOfRecorded(zones: seq<LegacyZone>)
    requires Recorded(zones)
    ensures forall s :: s in Statuses(zones) ==>
      && 0 <= s.remaining == s.totalPeople - s.evacuated
      && (s.status == "completed" <==> s.remaining == 0)
  {
    var r := Statuses(zones);
    forall s | s in r ensures 0 <= s.remaining == s.totalPeople - s.evacuated && (s.status == "completed" <==> s.remaining == 0) {
      var i :| 0 <= i < |r| && r[i] == s;
      assert zones[i] in zones;
    }
  }

  // ---------------------------------------------------------------------------------------
  // Progress updates

  /** The position `find` stops at: the first zone with the location. */
  function FirstAt(zones: seq<LegacyZone>, location: string): (r: Option<nat>)
    ensures r.Some? ==> r.value < |zones| && zones[r.value].location == location
    ensures r.Some? ==> forall j :: 0 <= j < r.value ==> zones[j].location != location
    ensures r.None? ==> forall j :: 0 <= j < |zones| ==> zones[j].location != location
  {
    if zones == [] then None
    else if zones[0].location == location then Some(0)
    else
      match FirstAt(zones[1..], location)
      case None => None
      case Some(j) => Some(j + 1)
  }

  datatype UpdateReport = UpdateReport(
    message: string, location: string, totalPeople: int, evacuated: int, remaining: int, vehicleUsed: string)

  function NotFound(location: string): string {
    "Zone " + location + " not found"
  }

  /** `updateEvacuationStatus(location, count, vehicleId)`: the registry after it and its report, or the error. */
  function Update(zones: seq<LegacyZone>, location: string, count: int, vehicleId: string)
    : Result<(seq<LegacyZone>, UpdateReport)>
  {
    match FirstAt(zones, location)
    case None => Err(NotFound(location))
    case Some(i) =>
      var z := zones[i].(evacuated := Min(zones[i].evacuated + count, zones[i].people));
      Ok((zones[i := z], UpdateReport(
        "Updated evacuation status for " + location, z.location, z.people, z.evacuated, z.people - z.evacuated, vehicleId)))
  }

  /**
   * An update fails exactly when no zone has the location; otherwise it changes the first such
   * zone's evacuated count only, never beyond the zone's head count, and nothing else.
   */
  lemma UpdateSpec(zones: seq<LegacyZone>, location: string, count: int, vehicleId: string)
    ensures Update(zones, location, count, vehicleId).Err? <==> forall z :: z in zones ==> z.location != location
    ensures Update(zones, location, count, vehicleId).Err? ==> Update(zones, location, count, vehicleId).message == NotFound(location)
    ensures Update(zones, location, count, vehicleId).Ok? ==>
      var after := Update(zones, location, count, vehicleId).value.0;
      var i := FirstAt(zones, location).value;
      && |after| == |zones|
      && (forall j :: 0 <= j < |zones| && j != i ==> after[j] == zones[j])
      && after[i] == zones[i].(evacuated := after[i].evacuated)
      && after[i].evacuated <= zones[i].people
      && (zones[i].evacuated + count <= zones[i].people ==> after[i].evacuated == zones[i].evacuated + count)
      && Update(zones, location, count, vehicleId).value.1.remaining >= 0
  {
    if FirstAt(zones, location).Some? {
      var i := FirstAt(zones, location).value;
      assert zones[i] in zones;
    } else {
      forall z | z in zones ensures z.location != location {
        var j :| 0 <= j < |zones| && zones[j] == z;
      }
    }
  }

  /** Non-negative updates keep the registry recording sensibly, and so does adding a zone with a non-negative head count. */
  lemma UpdateKeepsRecorded(zones: seq<LegacyZone>, location: string, count: int, vehicleId: string)
    requires Recorded(zones) && count >= 0
    ensures Update(zones, location, count, vehicleId).Ok? ==> Recorded(Update(zones, location, count, vehicleId).value.0)
  {
    if FirstAt(zones, location).Some? {
      var i := FirstAt(zones, location).value;
      var after := Update(zones, location, count, vehicleId).value.0;
      forall z | z in after ensures 0 <= z.evacuated <= z.people {
        var j :| 0 <= j < |after| && after[j] == z;
        assert zones[j] in zones;
      }
    }
  }

  lemma AddKeepsRecorded(zones: seq<LegacyZone>, input: ZoneInput, freshId: string)
    requires Recorded(zones) && input.people >= 0
    ensures Recorded(zones + [Registered(input, freshId)])
  {
  }

  // ---------------------------------------------------------------------------------------
  // The plan as `generateEvacuationPlan` builds it

  /**
   * The inner `while` of `generateEvacuationPlan`: vehicles from `vehicleIndex` on, each moving
   * `min(peopleToEvacuate, capacity)` of the zone's remaining people, until nobody is left or
   * the vehicles run out.
   */
  method ServeZone(zone: LegacyZone, sortedVehicles: seq<Vehicle>, vehicleIndex: nat, plan: seq<PlanEntry>)
    returns (plan': seq<PlanEntry>, vehicleIndex': nat)
    requires vehicleIndex <= |sortedVehicles|
    ensures plan' == plan + ZoneEntries(zone, sortedVehicles, Remaining(zone), vehicleIndex, Entry)
    ensures vehicleIndex' == vehicleIndex + |ZoneEntries(zone, sortedVehicles, Remaining(zone), vehicleIndex, Entry)|
  {
    var remainingPeople := zone.people - zone.evacuated;
    var peopleToEvacuate := remainingPeople;
    plan', vehicleIndex' := plan, vehicleIndex;
    ghost var whole := plan + ZoneEntries(zone, sortedVehicles, remainingPeople, vehicleIndex, Entry);
    ghost var stop := vehicleIndex + |ZoneEntries(zone, sortedVehicles, remainingPeople, vehicleIndex, Entry)|;
    while peopleToEvacuate > 0 && vehicleIndex' < |sortedVehicles|
      invariant vehicleIndex <= vehicleIndex' <= |sortedVehicles|
      invariant plan' + ZoneEntries(zone, sortedVehicles, peopleToEvacuate, vehicleIndex', Entry) == whole
      invariant vehicleIndex' + |ZoneEntries(zone, sortedVehicles, peopleToEvacuate, vehicleIndex', Entry)| == stop
      decreases |sortedVehicles| - vehicleIndex'
    {
      var vehicle := sortedVehicles[vehicleIndex'];
      var canEvacuate := Min(peopleToEvacuate, vehicle.capacity);
      var entry := Entry(zone, vehicle, canEvacuate);
      ghost var built, left, idx := plan', peopleToEvacuate, vehicleIndex';
      plan' := plan' + [entry];
      peopleToEvacuate := peopleToEvacuate - canEvacuate;
      vehicleIndex' := vehicleIndex' + 1;
      ZoneLoopStep(zone, sortedVehicles, left, peopleToEvacuate, idx, vehicleIndex', built, plan', whole, stop, Entry);
    }
    ZoneLoopEnd(zone, sortedVehicles, peopleToEvacuate, vehicleIndex', plan', whole, stop, Entry);
  }

  /** The body of `generateEvacuationPlan` once the vehicles are known and there are some. */
  method BuildPlan(zones: seq<LegacyZone>, availableVehicles: seq<Vehicle>) returns (r: RegistryPlan)
    requires |availableVehicles| > 0
    ensures r == PlanOf(zones, availableVehicles)
  {
    var sortedZones := SortedZones(zones);
    var sortedVehicles := SortByCapacity(availableVehicles);
    var plan: seq<PlanEntry> := [];
    var vehicleIndex: nat := 0;
    ghost var needs := Needs(sortedZones);
    ghost var whole := Entries(sortedZones, sortedVehicles, Fill(needs, 0, Capacities(sortedVehicles), 0), Entry);
    FillLoopStart(whole);
    for k := 0 to |sortedZones|
      invariant vehicleIndex <= |sortedVehicles|
      invariant plan + Entries(sortedZones, sortedVehicles, Fill(needs, k, Capacities(sortedVehicles), vehicleIndex), Entry) == whole
    {
      NeedsOfAt(sortedZones, Remaining, k);
      ghost var built, idx := plan, vehicleIndex;
      plan, vehicleIndex := ServeZone(sortedZones[k], sortedVehicles, vehicleIndex, plan);
      FillLoopStep(sortedZones, needs, sortedVehicles, k, Remaining(sortedZones[k]), idx, vehicleIndex, built, plan, whole, Entry);
    }
    FillLoopEnd(sortedZones, needs, sortedVehicles, vehicleIndex, plan, whole, Entry);
    var summary := PlanSummary(|plan|, SumOf(plan, EntryPeople), |Filter(sortedZones, IsHighZone)|);
    r := RegistryPlan(plan, summary);
  }

  // ---------------------------------------------------------------------------------------
  // The service

  class EvacuationService {
    var evacuationZones: seq<LegacyZone>
    const vehicleService: VehicleRegistry.VehicleService

    constructor(vehicleService: VehicleRegistry.VehicleService)
      ensures evacuationZones == [] && this.vehicleService == vehicleService
    {
      evacuationZones := [];
      this.vehicleService := vehicleService;
    }

    function GetEvacuationZones(): seq<LegacyZone>
      reads this
    {
      evacuationZones
    }

    /** `addEvacuationZone(zone)`: no validation; the zone is appended with a fresh id. */
    method AddEvacuationZone(input: ZoneInput, freshId: string) returns (newZone: LegacyZone)
      modifies this
      ensures newZone == Registered(input, freshId)
      ensures evacuationZones == old(evacuationZones) + [newZone]
    {
      newZone := LegacyZone(input.location, input.people, input.urgency, 0, freshId);
      evacuationZones := evacuationZones + [newZone];
    }

    /** `generateEvacuationPlan(vehicles?)`: the zone loop with the shared, forward-only vehicle index. */
    method GenerateEvacuationPlan(vehicles: Option<seq<Vehicle>>) returns (r: RegistryPlan)
      ensures r == PlanOf(evacuationZones, vehicles.GetOr(vehicleService.vehicles))
    {
      var availableVehicles := if vehicles.Some? then vehicles.value else vehicleService.GetAllVehicles();
      if |availableVehicles| == 0 {
        return RegistryPlan([], PlanSummary(0, 0, |Filter(evacuationZones, IsHighZone)|));
      }
      r := BuildPlan(evacuationZones, availableVehicles);
    }

    /** `getEvacuationStatus()`. */
    function GetEvacuationStatus(): seq<ZoneStatus>
      reads this
    {
      Statuses(evacuationZones)
    }

    /** `updateEvacuationStatus(location, count, vehicleId)`: the zone object is updated in place. */
    method UpdateEvacuationStatus(zoneLocation: string, evacuatedCount: int, vehicleId: string)
      returns (r: Result<UpdateReport>)
      modifies this
      ensures var u := Update(old(evacuationZones), zoneLocation, evacuatedCount, vehicleId);
        && (u.Err? ==> r == Err(u.message) && evacuationZones == old(evacuationZones))
        && (u.Ok? ==> r == Ok(u.value.1) && evacuationZones == u.value.0)
    {
      var index := FirstAt(evacuationZones, zoneLocation);
      if index.None? {
        return Err(NotFound(zoneLocation));
      }
      var zone := evacuationZones[index.value];
      zone := zone.(evacuated := Min(zone.evacuated + evacuatedCount, zone.people));
      evacuationZones := evacuationZones[index.value := zone];
      r := Ok(UpdateReport(
        "Updated evacuation status for " + zoneLocation, zone.location, zone.people, zone.evacuated,
        zone.people - zone.evacuated, vehicleId));
    }
  }
}
