/**
 * The greedy strategy (`chooseBestVehicleGreedy`, `generateGreedyPlan`).
 *
 * Zones are served most urgent first. For the zone at hand the planner keeps asking for the
 * vehicle with the lowest score `eta + max(0, capacity - remaining)` among the vehicles with
 * coordinates and spare capacity, loads `min(capacity, remaining)` people onto it, and stops
 * when the zone is empty or no vehicle qualifies. Vehicles are the working copies, whose
 * capacity goes down as they are loaded.
 *
 * `GreedyTrips` is the plan as a function of the inputs; the methods follow the source's loops
 * and are proved to compute it. The properties are lemmas about `GreedyTrips`.
 */
module GreedyPlanner {
  import opened Wrappers
  import opened TravelTime
  import opened Entities
  import opened Sequences
  import opened Selection
  import opened Strategies

  /** Can vehicle `v` take people from zone `z` at all: both located, spare capacity, people left. */
  predicate Eligible(z: Zone, v: Vehicle) {
    z.locationCoordinates.Some? && v.locationCoordinates.Some? && v.capacity > 0 && Unserved(z) > 0
  }

  /** The greedy score of `v` for `z`; `Infinity` for a vehicle the scan skips. */
  function GreedyScore(z: Zone, v: Vehicle, dist: DistanceFn): (score: Minutes)
    ensures Eligible(z, v) && SpeedOr(v.speed, DefaultSpeedKmh) > 0.0 ==> score.Finite?
    ensures score.Finite? ==> Eligible(z, v) && SpeedOr(v.speed, DefaultSpeedKmh) > 0.0
    ensures score.Finite? ==> score.value == TravelMinutes(z, v, dist).value + Max(0, v.capacity - Unserved(z)) as real
  {
    if !Eligible(z, v) then Infinity
    else Plus(TravelMinutes(z, v, dist), Max(0, v.capacity - Unserved(z)) as real)
  }

  function GreedyScores(z: Zone, vs: seq<Vehicle>, dist: DistanceFn): (scores: seq<Minutes>)
    ensures |scores| == |vs|
    ensures forall j :: 0 <= j < |vs| ==> scores[j] == GreedyScore(z, vs[j], dist)
  {
    seq(|vs|, j requires 0 <= j < |vs| => GreedyScore(z, vs[j], dist))
  }

  /** The vehicle `chooseBestVehicleGreedy` returns, as its position in `vs`. */
  function BestVehicleGreedy(z: Zone, vs: seq<Vehicle>, dist: DistanceFn): (best: Option<nat>)
    ensures best.Some? ==> best.value < |vs| && Eligible(z, vs[best.value])
    ensures best.Some? ==> SpeedOr(vs[best.value].speed, DefaultSpeedKmh) > 0.0
  {
    FirstMin(GreedyScores(z, vs, dist))
  }

  /**
   * The chosen vehicle is eligible, has a finite ETA, scores no worse than any other vehicle
   * and strictly better than every vehicle before it; nothing is chosen exactly when no
   * vehicle is eligible with a finite ETA.
   */
  lemma BestVehicleGreedySpec(z: Zone, vs: seq<Vehicle>, dist: DistanceFn)
    ensures BestVehicleGreedy(z, vs, dist).Some? ==>
      IsFirstMin(GreedyScores(z, vs, dist), BestVehicleGreedy(z, vs, dist).value)
    ensures BestVehicleGreedy(z, vs, dist).None? <==>
      forall j :: 0 <= j < |vs| ==> !(Eligible(z, vs[j]) && SpeedOr(vs[j].speed, DefaultSpeedKmh) > 0.0)
  {
    FirstMinSpec(GreedyScores(z, vs, dist));
  }

  /** `chooseBestVehicleGreedy(zone, vehicles)`: the scan, returning the position of the vehicle. */
  method ChooseBestVehicleGreedy(zone: Zone, vehicles: seq<Vehicle>, dist: DistanceFn) returns (best: Option<nat>)
    ensures best == BestVehicleGreedy(zone, vehicles, dist)
  {
    ghost var scores := GreedyScores(zone, vehicles, dist);
    best := None;
    var bestScore := Infinity;
    var i := 0;
    while i < |vehicles|
      invariant 0 <= i <= |vehicles|
      invariant (best, bestScore) == ScanMin(scores[..i])
    {
      assert scores[..i + 1][..i] == scores[..i];
      var v := vehicles[i];
      if zone.locationCoordinates.Some? && v.locationCoordinates.Some? {
        var d := dist(zone.locationCoordinates.value, v.locationCoordinates.value);
        var remainingPeople := NumberOr(zone.numberOfPeople, 0) - zone.evacuated;
        if v.capacity > 0 && remainingPeople > 0 {
          var eta := EstimateTravelTime(d, SpeedOr(v.speed, DefaultSpeedKmh));
          var wastedCapacity := Max(0, v.capacity - remainingPeople);
          var score := Plus(eta, wastedCapacity as real);
          if Below(score, bestScore) {
            bestScore := score;
            best := Some(i);
          }
        }
      }
      i := i + 1;
    }
    assert scores[..|vehicles|] == scores;
  }

  /**
   * The `while (peopleToEvacuate > 0)` loop for the zone at position `k`: the vehicles after
   * it and the trips it makes.
   */
  function ServeZone(k: nat, z: Zone, vs: seq<Vehicle>, dist: DistanceFn): (seq<Vehicle>, seq<Trip>)
    decreases Max(0, Unserved(z))
  {
    if Unserved(z) <= 0 then (vs, [])
    else
      match BestVehicleGreedy(z, vs, dist) {
        case None => (vs, [])
        case Some(b) =>
          var load := Load(k, z, vs, b, dist);
          var rest := ServeZone(k, load.1, load.2, dist);
          (rest.0, [load.0] + rest.1)
      }
  }

  /**
   * One turn of the `while` loop: vehicle `b` takes `min(capacity, remaining)` people from the
   * zone at position `k`. The trip, the zone afterwards and the vehicles afterwards.
   */
  function Load(k: nat, z: Zone, vs: seq<Vehicle>, b: nat, dist: DistanceFn): (load: (Trip, Zone, seq<Vehicle>))
    requires b < |vs| && z.locationCoordinates.Some? && vs[b].locationCoordinates.Some?
    ensures load.0 == Trip(k, b, TravelMinutes(z, vs[b], dist), Min(vs[b].capacity, Unserved(z)))
    ensures load.1 == z.(evacuated := z.evacuated + load.0.count)
    ensures load.2 == vs[b := vs[b].(capacity := vs[b].capacity - load.0.count)]
  {
    var assignedCount := Min(vs[b].capacity, Unserved(z));
    (Trip(k, b, TravelMinutes(z, vs[b], dist), assignedCount),
     z.(evacuated := z.evacuated + assignedCount),
     vs[b := vs[b].(capacity := vs[b].capacity - assignedCount)])
  }

  /** The `for (const zone of zonesWorkingCopy)` loop from position `k` on. */
  function ServeAll(zs: seq<Zone>, k: nat, vs: seq<Vehicle>, dist: DistanceFn): (seq<Vehicle>, seq<Trip>)
    requires k <= |zs|
    decreases |zs| - k
  {
    if k == |zs| then (vs, [])
    else
      var here := ServeZone(k, zs[k], vs, dist);
      var rest := ServeAll(zs, k + 1, here.0, dist);
      (rest.0, here.1 + rest.1)
  }

  /** The trips of `generateGreedyPlan(zones, vehicles)`, zones given by their position in the sorted copy. */
  function GreedyTrips(zones: seq<Zone>, vehicles: seq<Vehicle>, dist: DistanceFn): seq<Trip> {
    ServeAll(SortByUrgency(zones), 0, vehicles, dist).1
  }

  /** The vehicle working copies once `generateGreedyPlan(zones, vehicles)` is done. */
  function GreedyFleet(zones: seq<Zone>, vehicles: seq<Vehicle>, dist: DistanceFn): seq<Vehicle> {
    ServeAll(SortByUrgency(zones), 0, vehicles, dist).0
  }

  /** `generateGreedyPlan(zones, vehicles)`. */
  method GenerateGreedyPlan(zones: seq<Zone>, vehicles: seq<Vehicle>, dist: DistanceFn) returns (plan: seq<Assignment>)
    ensures Renders(plan, SortByUrgency(zones), vehicles, GreedyTrips(zones, vehicles, dist))
  {
    plan := [];
    // The working copies are values; the sort is the stable sort of the zones.
    var zonesWorkingCopy := SortByUrgency(zones);
    var vehiclesWorkingCopy := vehicles;
    ghost var trips: seq<Trip> := [];
    var k := 0;
    while k < |zonesWorkingCopy|
      invariant 0 <= k <= |zonesWorkingCopy|
      invariant SameFleet(vehiclesWorkingCopy, vehicles)
      invariant trips + ServeAll(zonesWorkingCopy, k, vehiclesWorkingCopy, dist).1 == GreedyTrips(zones, vehicles, dist)
      invariant Renders(plan, zonesWorkingCopy, vehicles, trips)
    {
      ServeAllStep(zonesWorkingCopy, k, vehiclesWorkingCopy, dist);
      ghost var fleetBefore := vehiclesWorkingCopy;
      var records;
      ghost var zoneTrips;
      vehiclesWorkingCopy, records, zoneTrips := EvacuateZone(k, zonesWorkingCopy[k], vehiclesWorkingCopy, dist);
      RendersConcat(plan, zonesWorkingCopy, vehicles, trips, records, zoneTrips, k, fleetBefore);
      AppendAssoc(trips, zoneTrips, ServeAll(zonesWorkingCopy, k + 1, vehiclesWorkingCopy, dist).1);
      plan := plan + records;
      trips := trips + zoneTrips;
      k := k + 1;
    }
  }

  /**
   * The `while (peopleToEvacuate > 0)` loop of `generateGreedyPlan` for the zone at position
   * `k` of the sorted copy: the vehicles afterwards and the records pushed onto the plan.
   */
  method EvacuateZone(k: nat, zone: Zone, vehicles: seq<Vehicle>, dist: DistanceFn)
    returns (vehiclesWorkingCopy: seq<Vehicle>, records: seq<Assignment>, ghost trips: seq<Trip>)
    ensures (vehiclesWorkingCopy, trips) == ServeZone(k, zone, vehicles, dist)
    ensures SameFleet(vehiclesWorkingCopy, vehicles)
    ensures ZoneRecords(records, trips, k, zone, vehicles)
  {
    vehiclesWorkingCopy := vehicles;
    records := [];
    trips := [];
    ghost var goal := ServeZone(k, zone, vehicles, dist);
    var current := zone;
    var remainingPeople := NumberOr(current.numberOfPeople, 0) - current.evacuated;
    var peopleToEvacuate := remainingPeople;
    while peopleToEvacuate > 0
      invariant peopleToEvacuate == Unserved(current)
      invariant current == zone.(evacuated := current.evacuated)
      invariant SameFleet(vehiclesWorkingCopy, vehicles)
      invariant ServeZone(k, current, vehiclesWorkingCopy, dist).0 == goal.0
      invariant trips + ServeZone(k, current, vehiclesWorkingCopy, dist).1 == goal.1
      invariant ZoneRecords(records, trips, k, zone, vehicles)
      decreases peopleToEvacuate
    {
      var best := ChooseBestVehicleGreedy(current, vehiclesWorkingCopy, dist);
      if best.None? || current.locationCoordinates.None? || vehiclesWorkingCopy[best.value].locationCoordinates.None? {
        ServeZoneStop(k, current, vehiclesWorkingCopy, dist);
        break;
      }
      var b := best.value;
      var record, zoneAfter, fleetAfter, trip := LoadVehicle(k, current, peopleToEvacuate, vehiclesWorkingCopy, b, dist);
      SameFleetSet(vehiclesWorkingCopy, vehicles, b, fleetAfter[b].capacity);
      ghost var zoneBefore, fleetBefore, recordsBefore, tripsBefore := current, vehiclesWorkingCopy, records, trips;
      records := records + [record];
      trips := trips + [trip];
      peopleToEvacuate := peopleToEvacuate - record.evacuated;
      current := zoneAfter;
      vehiclesWorkingCopy := fleetAfter;
      EvacuateZoneStep(k, dist, zoneBefore, fleetBefore, b, tripsBefore, goal, current, vehiclesWorkingCopy, trips);
      ZoneRecordsAppend(recordsBefore, tripsBefore, k, zone, vehicles, zoneBefore, fleetBefore, trip, record, records, trips);
    }
    ServeZoneStop(k, current, vehiclesWorkingCopy, dist);
    assert trips + [] == trips;
  }

  /**
   * The body of the `while` loop of `generateGreedyPlan` once vehicle `b` is chosen: the record
   * pushed onto the plan, the zone and the vehicles afterwards, and the trip they stand for.
   */
  method LoadVehicle(k: nat, current: Zone, peopleToEvacuate: int, vs: seq<Vehicle>, b: nat, dist: DistanceFn)
    returns (record: Assignment, zoneAfter: Zone, fleetAfter: seq<Vehicle>, ghost trip: Trip)
    requires peopleToEvacuate == Unserved(current) && b < |vs| && Eligible(current, vs[b])
    ensures (trip, zoneAfter, fleetAfter) == Load(k, current, vs, b, dist)
    ensures 0 < record.evacuated <= peopleToEvacuate && record.evacuated <= vs[b].capacity
    ensures Unserved(zoneAfter) == peopleToEvacuate - record.evacuated
    ensures record == Assignment(ZoneKey(current), VehicleKey(vs[b]), trip.eta, trip.count)
  {
    var vehicle := vs[b];
    var assignedCount := Min(vehicle.capacity, peopleToEvacuate);
    var eta := EstimateTravelTime(
      dist(current.locationCoordinates.value, vehicle.locationCoordinates.value),
      SpeedOr(vehicle.speed, DefaultSpeedKmh));
    trip := Trip(k, b, eta, assignedCount);
    zoneAfter := current.(evacuated := current.evacuated + assignedCount);
    fleetAfter := vs[b := vehicle.(capacity := vehicle.capacity - assignedCount)];
    record := Assignment(StringOr(current.zoneId, current.id), StringOr(vehicle.vehicleId, vehicle.id), eta, assignedCount);
  }

  /** The loop invariants of `EvacuateZone` about the plan survive loading vehicle `b`. */
  lemma EvacuateZoneStep(k: nat, dist: DistanceFn, current: Zone, vs: seq<Vehicle>, b: nat, trips: seq<Trip>,
                         goal: (seq<Vehicle>, seq<Trip>), current': Zone, vs': seq<Vehicle>, trips': seq<Trip>)
    requires Unserved(current) > 0 && BestVehicleGreedy(current, vs, dist) == Some(b)
    requires ServeZone(k, current, vs, dist).0 == goal.0
    requires trips + ServeZone(k, current, vs, dist).1 == goal.1
    requires current' == Load(k, current, vs, b, dist).1 && vs' == Load(k, current, vs, b, dist).2
    requires trips' == trips + [Load(k, current, vs, b, dist).0]
    ensures ServeZone(k, current', vs', dist).0 == goal.0
    ensures trips' + ServeZone(k, current', vs', dist).1 == goal.1
  {
    var load := Load(k, current, vs, b, dist);
    ServeZoneAdvance(k, current, vs, dist, b);
    AppendAssoc(trips, [load.0], ServeZone(k, load.1, load.2, dist).1);
  }

  /** The record of one more trip of the zone keeps `records` the records of `trips`. */
  lemma ZoneRecordsAppend(records: seq<Assignment>, trips: seq<Trip>, k: nat, zone: Zone, vehicles: seq<Vehicle>,
                          current: Zone, vs: seq<Vehicle>, trip: Trip, record: Assignment,
                          records': seq<Assignment>, trips': seq<Trip>)
    requires ZoneRecords(records, trips, k, zone, vehicles)
    requires current == zone.(evacuated := current.evacuated) && SameFleet(vs, vehicles)
    requires trip.zone == k && trip.vehicle < |vs|
    requires record == Assignment(ZoneKey(current), VehicleKey(vs[trip.vehicle]), trip.eta, trip.count)
    requires records' == records + [record] && trips' == trips + [trip]
    ensures ZoneRecords(records', trips', k, zone, vehicles)
  {
    assert ZoneKey(current) == ZoneKey(zone);
    assert VehicleKey(vs[trip.vehicle]) == VehicleKey(vehicles[trip.vehicle]);
  }

  /** `records` are the records of `trips`, which all serve zone `z` at position `k`. */
  ghost predicate ZoneRecords(records: seq<Assignment>, trips: seq<Trip>, k: nat, z: Zone, vs: seq<Vehicle>) {
    && |records| == |trips|
    && forall i :: 0 <= i < |trips| ==>
         && trips[i].zone == k && trips[i].vehicle < |vs|
         && records[i] == Assignment(ZoneKey(z), VehicleKey(vs[trips[i].vehicle]), trips[i].eta, trips[i].count)
  }

  lemma RendersConcat(plan: seq<Assignment>, zs: seq<Zone>, vehicles: seq<Vehicle>, trips: seq<Trip>,
                      records: seq<Assignment>, more: seq<Trip>, k: nat, fleet: seq<Vehicle>)
    requires Renders(plan, zs, vehicles, trips) && k < |zs| && SameFleet(fleet, vehicles)
    requires ZoneRecords(records, more, k, zs[k], fleet)
    ensures Renders(plan + records, zs, vehicles, trips + more)
  {
  }

  /** The `while` loop of `generateGreedyPlan` ends when the zone is empty or no vehicle is chosen. */
  lemma ServeZoneStop(k: nat, z: Zone, vs: seq<Vehicle>, dist: DistanceFn)
    requires Unserved(z) <= 0 || BestVehicleGreedy(z, vs, dist).None?
    ensures ServeZone(k, z, vs, dist) == (vs, [])
  {
  }

  /** One turn of the `while` loop of `generateGreedyPlan`: load the chosen vehicle. */
  lemma ServeZoneAdvance(k: nat, z: Zone, vs: seq<Vehicle>, dist: DistanceFn, b: nat)
    requires Unserved(z) > 0 && BestVehicleGreedy(z, vs, dist) == Some(b)
    ensures ServeZone(k, z, vs, dist).0 == ServeZone(k, Load(k, z, vs, b, dist).1, Load(k, z, vs, b, dist).2, dist).0
    ensures ServeZone(k, z, vs, dist).1 == [Load(k, z, vs, b, dist).0] + ServeZone(k, Load(k, z, vs, b, dist).1, Load(k, z, vs, b, dist).2, dist).1
  {
  }

  /** One turn of the `for` loop of `generateGreedyPlan`. */
  lemma ServeAllStep(zs: seq<Zone>, k: nat, vs: seq<Vehicle>, dist: DistanceFn)
    requires k < |zs|
    ensures ServeAll(zs, k, vs, dist).1 == ServeZone(k, zs[k], vs, dist).1 + ServeAll(zs, k + 1, ServeZone(k, zs[k], vs, dist).0, dist).1
  {
  }

  // ---------------------------------------------------------------------------------------
  // Properties of the greedy plan

  /** Everything that holds of the trips one zone receives. */
  ghost predicate ZoneTripsOk(k: nat, z: Zone, vs: seq<Vehicle>, dist: DistanceFn, after: seq<Vehicle>, trips: seq<Trip>) {
    && SameFleet(after, vs)
    && CapacityAccounted(vs, after, trips)
    && SeatsConserved(vs, after, trips)
    && ZoneTripsShaped(k, z, vs, dist, trips)
    && 0 <= Total(trips) <= OpenDemand(z)
    && (Total(trips) == OpenDemand(z) || NoneReady(z.(evacuated := z.evacuated + Total(trips)), after))
  }

  /** Each trip serves the located zone `z` at position `k` with a located vehicle, at its finite ETA. */
  ghost predicate ZoneTripsShaped(k: nat, z: Zone, vs: seq<Vehicle>, dist: DistanceFn, trips: seq<Trip>) {
    forall t :: t in trips ==>
      && t.zone == k && t.count >= 1 && t.vehicle < |vs|
      && z.locationCoordinates.Some? && vs[t.vehicle].locationCoordinates.Some?
      && t.eta == TravelMinutes(z, vs[t.vehicle], dist) && t.eta.Finite?
  }

  /** No vehicle is eligible for `z` with a positive effective speed. */
  ghost predicate NoneReady(z: Zone, vs: seq<Vehicle>) {
    forall j :: 0 <= j < |vs| ==> !(Eligible(z, vs[j]) && SpeedOr(vs[j].speed, DefaultSpeedKmh) > 0.0)
  }

  /** Nothing is chosen for a located zone with people left only when no ready vehicle has capacity. */
  lemma NoChoiceLeavesNoSpare(z: Zone, vs: seq<Vehicle>)
    requires z.locationCoordinates.Some? && Unserved(z) > 0 && FleetReady(vs)
    requires NoneReady(z, vs)
    ensures forall j :: 0 <= j < |vs| ==> vs[j].capacity <= 0
    ensures SumOf(vs, SpareCapacity) == 0
  {
    assert forall j :: 0 <= j < |vs| ==> SpareCapacity(vs[j]) == 0;
    assert forall v :: v in vs ==> SpareCapacity(v) == 0;
    SumOfSigns(vs, SpareCapacity);
  }

  lemma {:induction false} ServeZoneOk(k: nat, z: Zone, vs: seq<Vehicle>, dist: DistanceFn)
    ensures ZoneTripsOk(k, z, vs, dist, ServeZone(k, z, vs, dist).0, ServeZone(k, z, vs, dist).1)
    decreases Max(0, Unserved(z))
  {
    if Unserved(z) <= 0 || BestVehicleGreedy(z, vs, dist).None? {
      ServeZoneStop(k, z, vs, dist);
      CapacityAccountedNone(vs);
      BestVehicleGreedySpec(z, vs, dist);
      assert z.(evacuated := z.evacuated + 0) == z;
    } else {
      var b := BestVehicleGreedy(z, vs, dist).value;
      var load := Load(k, z, vs, b, dist);
      ServeZoneAdvance(k, z, vs, dist, b);
      ServeZoneOk(k, load.1, load.2, dist);
      var rest := ServeZone(k, load.1, load.2, dist);
      ZoneTripsOkStep(k, z, vs, dist, load.0, load.1, load.2, rest.0, rest.1);
    }
  }

  /** One load followed by the rest of the zone's loop. */
  lemma ZoneTripsOkStep(k: nat, z: Zone, vs: seq<Vehicle>, dist: DistanceFn, t: Trip, z1: Zone, vs1: seq<Vehicle>,
                        after: seq<Vehicle>, rest: seq<Trip>)
    requires Unserved(z) > 0 && t.vehicle < |vs| && Eligible(z, vs[t.vehicle])
    requires SpeedOr(vs[t.vehicle].speed, DefaultSpeedKmh) > 0.0
    requires t.zone == k && t.count == Min(vs[t.vehicle].capacity, Unserved(z))
    requires t.eta == TravelMinutes(z, vs[t.vehicle], dist)
    requires z1 == z.(evacuated := z.evacuated + t.count)
    requires vs1 == vs[t.vehicle := vs[t.vehicle].(capacity := vs[t.vehicle].capacity - t.count)]
    requires ZoneTripsOk(k, z1, vs1, dist, after, rest)
    ensures ZoneTripsOk(k, z, vs, dist, after, [t] + rest)
  {
    StepAccounted(vs, t, vs1, after, rest);
    StepShaped(k, z, vs, dist, t, z1, vs1, rest);
    TotalConcat([t], rest);
    TotalSingle(t);
    assert z1.(evacuated := z1.evacuated + Total(rest)) == z.(evacuated := z.evacuated + Total([t] + rest));
  }

  /** The trip of one load has the shape of the zone's trips. */
  lemma StepShaped(k: nat, z: Zone, vs: seq<Vehicle>, dist: DistanceFn, t: Trip, z1: Zone, vs1: seq<Vehicle>, rest: seq<Trip>)
    requires t.vehicle < |vs| && Eligible(z, vs[t.vehicle])
    requires SpeedOr(vs[t.vehicle].speed, DefaultSpeedKmh) > 0.0
    requires t.zone == k && t.count >= 1
    requires t.eta == TravelMinutes(z, vs[t.vehicle], dist)
    requires z1 == z.(evacuated := z1.evacuated)
    requires SameFleet(vs1, vs)
    requires ZoneTripsShaped(k, z1, vs1, dist, rest)
    ensures ZoneTripsShaped(k, z, vs, dist, [t] + rest)
  {
    SameFleetTravel(vs1, vs, z, dist);
  }

  /** With everything located and no negative speed, the trips move as many people as the seats allow. */
  ghost predicate MovesMaximum(zs: seq<Zone>, k: nat, vs: seq<Vehicle>, trips: seq<Trip>)
    requires k <= |zs|
  {
    FleetReady(vs) && (forall m :: k <= m < |zs| ==> zs[m].locationCoordinates.Some?) ==>
      Total(trips) == Min(SumOf(zs[k..], OpenDemand), SumOf(vs, SpareCapacity))
  }

  /** Everything that holds of the trips made for the zones from position `k` on. */
  ghost predicate TripsFromOk(zs: seq<Zone>, k: nat, vs: seq<Vehicle>, dist: DistanceFn, after: seq<Vehicle>, trips: seq<Trip>)
    requires k <= |zs|
  {
    && SameFleet(after, vs)
    && CapacityAccounted(vs, after, trips)
    && TripsShaped(zs, k, vs, dist, trips)
    && InZoneOrder(trips)
    && WithinDemand(zs, k, trips)
    && SeatsConserved(vs, after, trips)
    && MovesMaximum(zs, k, vs, trips)
  }

  lemma {:induction false} ServeAllOk(zs: seq<Zone>, k: nat, vs: seq<Vehicle>, dist: DistanceFn)
    requires k <= |zs|
    ensures TripsFromOk(zs, k, vs, dist, ServeAll(zs, k, vs, dist).0, ServeAll(zs, k, vs, dist).1)
    decreases |zs| - k
  {
    if k == |zs| {
      CapacityAccountedNone(vs);
      assert zs[k..] == [];
      SumOfSigns(vs, SpareCapacity);
    } else {
      var here := ServeZone(k, zs[k], vs, dist);
      ServeZoneOk(k, zs[k], vs, dist);
      ServeAllOk(zs, k + 1, here.0, dist);
      var rest := ServeAll(zs, k + 1, here.0, dist);
      assert ServeAll(zs, k, vs, dist) == (rest.0, here.1 + rest.1);
      TripsFromOkCompose(zs, k, vs, dist, here.0, rest.0, here.1, rest.1);
    }
  }

  /** The trips of zone `k` followed by those of the later zones. */
  lemma TripsFromOkCompose(zs: seq<Zone>, k: nat, vs: seq<Vehicle>, dist: DistanceFn, mid: seq<Vehicle>, after: seq<Vehicle>,
                           here: seq<Trip>, rest: seq<Trip>)
    requires k < |zs|
    requires ZoneTripsOk(k, zs[k], vs, dist, mid, here)
    requires TripsFromOk(zs, k + 1, mid, dist, after, rest)
    ensures TripsFromOk(zs, k, vs, dist, after, here + rest)
  {
    CapacityAccountedCompose(vs, mid, after, here, rest);
    SameFleetTrans(after, mid, vs);
    SameFleetTravel(mid, vs, zs[k], dist);
    TripsFromOkShape(zs, k, vs, dist, mid, after, here, rest);
    TripsFromOkPerZone(zs, k, here, rest);
    TripsFromOkTotal(zs, k, vs, dist, mid, after, here, rest);
    TotalConcat(here, rest);
  }

  lemma TripsFromOkShape(zs: seq<Zone>, k: nat, vs: seq<Vehicle>, dist: DistanceFn, mid: seq<Vehicle>, after: seq<Vehicle>,
                         here: seq<Trip>, rest: seq<Trip>)
    requires k < |zs|
    requires ZoneTripsOk(k, zs[k], vs, dist, mid, here)
    requires TripsFromOk(zs, k + 1, mid, dist, after, rest)
    ensures TripsShaped(zs, k, vs, dist, here + rest)
    ensures InZoneOrder(here + rest)
  {
    forall t | t in rest
      ensures TravelMinutes(zs[t.zone], mid[t.vehicle], dist) == TravelMinutes(zs[t.zone], vs[t.vehicle], dist)
    {
      SameFleetTravel(mid, vs, zs[t.zone], dist);
    }
    var all := here + rest;
    forall i, j | 0 <= i < j < |all| ensures all[i].zone <= all[j].zone {
      if j < |here| {
        assert all[i] in here && all[j] in here;
      } else if i < |here| {
        assert all[i] in here && all[j] == rest[j - |here|];
        assert rest[j - |here|] in rest;
      } else {
        assert all[i] == rest[i - |here|] && all[j] == rest[j - |here|];
      }
    }
  }

  lemma TripsFromOkPerZone(zs: seq<Zone>, k: nat, here: seq<Trip>, rest: seq<Trip>)
    requires k < |zs|
    requires forall t :: t in here ==> t.zone == k
    requires forall t :: t in rest ==> k + 1 <= t.zone
    requires Total(here) <= OpenDemand(zs[k])
    requires WithinDemand(zs, k + 1, rest)
    ensures WithinDemand(zs, k, here + rest)
  {
    forall m | k <= m < |zs| ensures Total(ForZone(here + rest, m)) <= OpenDemand(zs[m]) {
      ForZoneConcat(here, rest, m);
      ForZoneOfOneZone(here, k, m);
      if m == k {
        ForZoneOfOthers(rest, m);
        assert here + [] == here;
      } else {
        assert [] + ForZone(rest, m) == ForZone(rest, m);
      }
    }
  }

  lemma DemandFrom(zs: seq<Zone>, k: nat)
    requires k < |zs|
    ensures SumOf(zs[k..], OpenDemand) == OpenDemand(zs[k]) + SumOf(zs[k + 1..], OpenDemand)
    ensures SumOf(zs[k + 1..], OpenDemand) >= 0
  {
    assert zs[k..][0] == zs[k] && zs[k..][1..] == zs[k + 1..];
    SumOfSigns(zs[k + 1..], OpenDemand);
  }

  lemma TripsFromOkTotal(zs: seq<Zone>, k: nat, vs: seq<Vehicle>, dist: DistanceFn, mid: seq<Vehicle>, after: seq<Vehicle>,
                         here: seq<Trip>, rest: seq<Trip>)
    requires k < |zs|
    requires ZoneTripsOk(k, zs[k], vs, dist, mid, here)
    requires MovesMaximum(zs, k + 1, mid, rest)
    ensures MovesMaximum(zs, k, vs, here + rest)
  {
    if FleetReady(vs) && (forall m :: k <= m < |zs| ==> zs[m].locationCoordinates.Some?) {
      assert FleetReady(mid);
      TotalConcat(here, rest);
      DemandFrom(zs, k);
      SumOfSigns(mid, SpareCapacity);
      var z := zs[k];
      var t1 := Total(here);
      if t1 != OpenDemand(z) {
        NoChoiceLeavesNoSpare(z.(evacuated := z.evacuated + t1), mid);
      }
    }
  }

  // ---------------------------------------------------------------------------------------
  // The greedy plan as a whole

  lemma GreedyTripsOk(zones: seq<Zone>, vehicles: seq<Vehicle>, dist: DistanceFn)
    ensures |SortByUrgency(zones)| == |zones|
    ensures TripsFromOk(SortByUrgency(zones), 0, vehicles, dist, GreedyFleet(zones, vehicles, dist), GreedyTrips(zones, vehicles, dist))
  {
    SortByUrgencySpec(zones);
    ServeAllOk(SortByUrgency(zones), 0, vehicles, dist);
  }

  lemma GreedyTripsOrdered(zones: seq<Zone>, vehicles: seq<Vehicle>, dist: DistanceFn)
    ensures forall i, j :: 0 <= i < j < |GreedyTrips(zones, vehicles, dist)| ==>
      GreedyTrips(zones, vehicles, dist)[i].zone <= GreedyTrips(zones, vehicles, dist)[j].zone < |zones|
  {
    var trips := GreedyTrips(zones, vehicles, dist);
    GreedyTripsOk(zones, vehicles, dist);
    assert InZoneOrder(trips) && TripsShaped(SortByUrgency(zones), 0, vehicles, dist, trips);
    forall i, j | 0 <= i < j < |trips| ensures trips[i].zone <= trips[j].zone < |zones| {
      assert trips[j] in trips;
    }
  }

  /**
   * Every record of the greedy plan names a zone and a vehicle that both have coordinates,
   * moves at least one person, and carries the finite ETA of that vehicle to that zone.
   */
  lemma GreedyTripsWellFormed(zones: seq<Zone>, vehicles: seq<Vehicle>, dist: DistanceFn)
    ensures forall t :: t in GreedyTrips(zones, vehicles, dist) ==>
      && t.zone < |zones| && t.vehicle < |vehicles| && t.count >= 1
      && SortByUrgency(zones)[t.zone].locationCoordinates.Some?
      && vehicles[t.vehicle].locationCoordinates.Some?
      && t.eta == TravelMinutes(SortByUrgency(zones)[t.zone], vehicles[t.vehicle], dist)
      && t.eta.Finite?
  {
    GreedyTripsOk(zones, vehicles, dist);
  }

  /**
   * A vehicle with a negative speed is never used (its ETA is `Infinity`, which never beats the
   * initial best score); a zero or missing speed is taken as 50 km/h.
   */
  lemma GreedyNeverUsesNegativeSpeed(zones: seq<Zone>, vehicles: seq<Vehicle>, dist: DistanceFn, j: nat)
    requires j < |vehicles| && vehicles[j].speed.Some? && vehicles[j].speed.value < 0.0
    ensures ForVehicle(GreedyTrips(zones, vehicles, dist), j) == []
  {
    GreedyTripsWellFormed(zones, vehicles, dist);
    ForVehicleOfOthers(GreedyTrips(zones, vehicles, dist), j);
  }

  /**
   * Zones are served in the sorted order: all records of a zone come before those of any later
   * zone, so urgency never increases along the plan.
   */
  lemma GreedyServesByUrgency(zones: seq<Zone>, vehicles: seq<Vehicle>, dist: DistanceFn)
    ensures |SortByUrgency(zones)| == |zones|
    ensures forall i, j :: 0 <= i < j < |GreedyTrips(zones, vehicles, dist)| ==>
      && GreedyTrips(zones, vehicles, dist)[i].zone <= GreedyTrips(zones, vehicles, dist)[j].zone < |zones|
      && SortUrgency(SortByUrgency(zones)[GreedyTrips(zones, vehicles, dist)[i].zone])
         >= SortUrgency(SortByUrgency(zones)[GreedyTrips(zones, vehicles, dist)[j].zone])
  {
    var trips := GreedyTrips(zones, vehicles, dist);
    var zs := SortByUrgency(zones);
    GreedyTripsOrdered(zones, vehicles, dist);
    SortByUrgencySpec(zones);
    forall i, j | 0 <= i < j < |trips|
      ensures trips[i].zone <= trips[j].zone < |zs|
      ensures SortUrgency(zs[trips[i].zone]) >= SortUrgency(zs[trips[j].zone])
    {
      var a, b := trips[i].zone, trips[j].zone;
      assert a <= b < |zs|;
      if a < b {
        assert SortUrgency(zs[a]) >= SortUrgency(zs[b]);
      }
    }
  }

  /** No zone receives more people than it still had unserved when planning began. */
  lemma GreedyZoneBound(zones: seq<Zone>, vehicles: seq<Vehicle>, dist: DistanceFn)
    ensures forall m :: 0 <= m < |zones| ==>
      Total(ForZone(GreedyTrips(zones, vehicles, dist), m)) <= OpenDemand(SortByUrgency(zones)[m])
  {
    GreedyTripsOk(zones, vehicles, dist);
  }

  /**
   * Each working copy ends with its capacity minus what it carried, never below zero once it
   * carried anyone; so no vehicle carries more than its original capacity, and a vehicle
   * without positive capacity carries no one.
   */
  lemma GreedyVehicleBound(zones: seq<Zone>, vehicles: seq<Vehicle>, dist: DistanceFn)
    ensures CapacityAccounted(vehicles, GreedyFleet(zones, vehicles, dist), GreedyTrips(zones, vehicles, dist))
    ensures forall j :: 0 <= j < |vehicles| ==>
      0 <= Total(ForVehicle(GreedyTrips(zones, vehicles, dist), j)) <= SpareCapacity(vehicles[j])
    ensures forall j :: 0 <= j < |vehicles| && vehicles[j].capacity <= 0 ==>
      ForVehicle(GreedyTrips(zones, vehicles, dist), j) == []
  {
    var trips := GreedyTrips(zones, vehicles, dist);
    GreedyTripsOk(zones, vehicles, dist);
    forall j | 0 <= j < |vehicles|
      ensures 0 <= Total(ForVehicle(trips, j)) <= SpareCapacity(vehicles[j])
      ensures vehicles[j].capacity <= 0 ==> ForVehicle(trips, j) == []
    {
      CapacityAccountedBound(vehicles, GreedyFleet(zones, vehicles, dist), trips, j);
    }
  }

  /**
   * When every zone and every vehicle is located and no speed is negative, the plan moves as
   * many people as possible: everyone still unserved if the fleet can take them, otherwise the
   * fleet's whole capacity.
   */
  lemma GreedyEvacuatesMaximum(zones: seq<Zone>, vehicles: seq<Vehicle>, dist: DistanceFn)
    requires FleetReady(vehicles)
    requires forall z :: z in zones ==> z.locationCoordinates.Some?
    ensures Total(GreedyTrips(zones, vehicles, dist)) == Min(SumOf(zones, OpenDemand), SumOf(vehicles, SpareCapacity))
  {
    var zs := SortByUrgency(zones);
    GreedyTripsOk(zones, vehicles, dist);
    SortByUrgencySpec(zones);
    forall m | 0 <= m < |zs| ensures zs[m].locationCoordinates.Some? {
      assert zs[m] in multiset(zones);
    }
    assert zs[0..] == zs;
    StableSortSum(zones, MoreUrgent, OpenDemand);
  }

  /** With no zones, no vehicles, or only vehicles without positive capacity, the plan is empty. */
  lemma GreedyEmptyPlan(zones: seq<Zone>, vehicles: seq<Vehicle>, dist: DistanceFn)
    requires zones == [] || forall j :: 0 <= j < |vehicles| ==> vehicles[j].capacity <= 0
    ensures GreedyTrips(zones, vehicles, dist) == []
  {
    var trips := GreedyTrips(zones, vehicles, dist);
    GreedyTripsOk(zones, vehicles, dist);
    TotalOfPositive(trips);
    SumOfSigns(GreedyFleet(zones, vehicles, dist), SpareCapacity);
    if zones != [] {
      assert forall v :: v in vehicles ==> SpareCapacity(v) == 0;
      SumOfSigns(vehicles, SpareCapacity);
    }
  }
}
