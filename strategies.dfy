/**
 * What the greedy and the weighted strategy have in common: the zone order (descending
 * `urgencyLevel || 0`, stable), the remaining count `(numberOfPeople || 0) - evacuated`, the
 * travel time with the 50 km/h fallback, the output records, and the bookkeeping of trips
 * against the working copies of the vehicles.
 *
 * A `Trip` is one emitted assignment seen from inside the planner: the position of its zone
 * in the sorted working copy, the position of its vehicle in the vehicle list, its ETA and
 * the number of people it moves.
 */
module Strategies {
  import opened Wrappers
  import opened TravelTime
  import opened Entities
  import opened Sequences

  /** `v.speed || 50`: the speed assumed for a vehicle without one. */
  const DefaultSpeedKmh: real := 50.0

  /** `(zone.numberOfPeople || 0) - zone.evacuated`. */
  function Unserved(z: Zone): int {
    NumberOr(z.numberOfPeople, 0) - z.evacuated
  }

  /** The urgency the zone sort reads: `zone.urgencyLevel || 0`. */
  function SortUrgency(z: Zone): int {
    NumberOr(z.urgencyLevel, 0)
  }

  /** The comparator `(a, b) => (b.urgencyLevel || 0) - (a.urgencyLevel || 0)`. */
  predicate MoreUrgent(a: Zone, b: Zone) {
    SortUrgency(a) > SortUrgency(b)
  }

  /** `zonesWorkingCopy.sort(...)`: most urgent first, ties in input order. */
  function SortByUrgency(zones: seq<Zone>): (sorted: seq<Zone>)
    ensures |sorted| == |zones|
  {
    StableSort(zones, MoreUrgent)
  }

  lemma MoreUrgentIsStrictWeakOrder()
    ensures StrictWeakOrder(MoreUrgent)
  {
  }

  /**
   * The sorted working copy holds the same zones, in non-increasing urgency, and zones of
   * equal urgency keep their input order.
   */
  lemma SortByUrgencySpec(zones: seq<Zone>)
    ensures |SortByUrgency(zones)| == |zones|
    ensures multiset(SortByUrgency(zones)) == multiset(zones)
    ensures forall i, j :: 0 <= i < j < |zones| ==>
      SortUrgency(SortByUrgency(zones)[i]) >= SortUrgency(SortByUrgency(zones)[j])
    ensures forall e :: TiedWith(SortByUrgency(zones), e, MoreUrgent) == TiedWith(zones, e, MoreUrgent)
  {
    MoreUrgentIsStrictWeakOrder();
    StableSortPermutes(zones, MoreUrgent);
    StableSortSorted(zones, MoreUrgent);
    forall e ensures TiedWith(SortByUrgency(zones), e, MoreUrgent) == TiedWith(zones, e, MoreUrgent) {
      StableSortStable(zones, e, MoreUrgent);
    }
  }

  /** `zone.zoneId || zone.id`. */
  function ZoneKey(z: Zone): string {
    StringOr(z.zoneId, z.id)
  }

  /** `vehicle.vehicleId || vehicle.id`. */
  function VehicleKey(v: Vehicle): string {
    StringOr(v.vehicleId, v.id)
  }

  /** `estimateTravelTime(haversineDistance(zone, vehicle), vehicle.speed || 50)`. */
  function TravelMinutes(z: Zone, v: Vehicle, dist: DistanceFn): Minutes
    requires z.locationCoordinates.Some? && v.locationCoordinates.Some?
  {
    EstimateTravelTime(dist(z.locationCoordinates.value, v.locationCoordinates.value), SpeedOr(v.speed, DefaultSpeedKmh))
  }

  datatype Trip = Trip(zone: nat, vehicle: nat, eta: Minutes, count: int)

  /** The record pushed onto `plan` for a trip. */
  function Emit(zs: seq<Zone>, vs: seq<Vehicle>, t: Trip): Assignment
    requires t.zone < |zs| && t.vehicle < |vs|
  {
    Assignment(ZoneKey(zs[t.zone]), VehicleKey(vs[t.vehicle]), t.eta, t.count)
  }

  /** `plan` is the list of records for `trips`, in order. */
  ghost predicate Renders(plan: seq<Assignment>, zs: seq<Zone>, vs: seq<Vehicle>, trips: seq<Trip>) {
    && |plan| == |trips|
    && forall i :: 0 <= i < |trips| ==>
         trips[i].zone < |zs| && trips[i].vehicle < |vs| && plan[i] == Emit(zs, vs, trips[i])
  }

  /** Pushing the record of one more trip keeps `plan` the rendering of the trips. */
  lemma RendersAppend(plan: seq<Assignment>, zs: seq<Zone>, vehicles: seq<Vehicle>, trips: seq<Trip>,
                      fleet: seq<Vehicle>, trip: Trip, record: Assignment)
    requires Renders(plan, zs, vehicles, trips)
    requires |fleet| == |vehicles| && trip.zone < |zs| && trip.vehicle < |fleet|
    requires VehicleKey(fleet[trip.vehicle]) == VehicleKey(vehicles[trip.vehicle])
    requires record == Assignment(ZoneKey(zs[trip.zone]), VehicleKey(fleet[trip.vehicle]), trip.eta, trip.count)
    ensures Renders(plan + [record], zs, vehicles, trips + [trip])
  {
  }

  /** The number of people the trips move. */
  function Total(trips: seq<Trip>): int {
    if trips == [] then 0 else trips[0].count + Total(trips[1..])
  }

  /** The trips serving zone `k`, in order. */
  function ForZone(trips: seq<Trip>, k: nat): seq<Trip> {
    if trips == [] then []
    else (if trips[0].zone == k then [trips[0]] else []) + ForZone(trips[1..], k)
  }

  /** The trips made by vehicle `j`, in order. */
  function ForVehicle(trips: seq<Trip>, j: nat): seq<Trip> {
    if trips == [] then []
    else (if trips[0].vehicle == j then [trips[0]] else []) + ForVehicle(trips[1..], j)
  }

  lemma {:induction false} TotalConcat(a: seq<Trip>, b: seq<Trip>)
    ensures Total(a + b) == Total(a) + Total(b)
  {
    if a == [] {
      assert a + b == b;
    } else {
      var ab := a + b;
      assert ab[0] == a[0] && ab[1..] == a[1..] + b;
      TotalConcat(a[1..], b);
    }
  }

  lemma {:induction false} ForZoneConcat(a: seq<Trip>, b: seq<Trip>, k: nat)
    ensures ForZone(a + b, k) == ForZone(a, k) + ForZone(b, k)
  {
    if a == [] {
      assert a + b == b;
    } else {
      var ab := a + b;
      assert ab[0] == a[0] && ab[1..] == a[1..] + b;
      ForZoneConcat(a[1..], b, k);
      var head := if a[0].zone == k then [a[0]] else [];
      calc {
        ForZone(ab, k);
        head + ForZone(a[1..] + b, k);
        head + (ForZone(a[1..], k) + ForZone(b, k));
        (head + ForZone(a[1..], k)) + ForZone(b, k);
      }
    }
  }

  lemma {:induction false} ForVehicleConcat(a: seq<Trip>, b: seq<Trip>, j: nat)
    ensures ForVehicle(a + b, j) == ForVehicle(a, j) + ForVehicle(b, j)
  {
    if a == [] {
      assert a + b == b;
    } else {
      var ab := a + b;
      assert ab[0] == a[0] && ab[1..] == a[1..] + b;
      ForVehicleConcat(a[1..], b, j);
      var head := if a[0].vehicle == j then [a[0]] else [];
      calc {
        ForVehicle(ab, j);
        head + ForVehicle(a[1..] + b, j);
        head + (ForVehicle(a[1..], j) + ForVehicle(b, j));
        (head + ForVehicle(a[1..], j)) + ForVehicle(b, j);
      }
    }
  }

  /** Trips that all serve zone `k` contribute nothing to any other zone, and everything to `k`. */
  lemma {:induction false} ForZoneOfOneZone(trips: seq<Trip>, k: nat, m: nat)
    requires forall t :: t in trips ==> t.zone == k
    ensures ForZone(trips, m) == if m == k then trips else []
  {
    if trips != [] {
      ForZoneOfOneZone(trips[1..], k, m);
      assert trips == [trips[0]] + trips[1..];
    }
  }

  /** Trips of other zones contribute nothing to zone `m`. */
  lemma {:induction false} ForZoneOfOthers(trips: seq<Trip>, m: nat)
    requires forall t :: t in trips ==> t.zone != m
    ensures ForZone(trips, m) == []
  {
    if trips != [] {
      ForZoneOfOthers(trips[1..], m);
    }
  }

  /** Trips of other vehicles contribute nothing to vehicle `j`. */
  lemma {:induction false} ForVehicleOfOthers(trips: seq<Trip>, j: nat)
    requires forall t :: t in trips ==> t.vehicle != j
    ensures ForVehicle(trips, j) == []
  {
    if trips != [] {
      ForVehicleOfOthers(trips[1..], j);
    }
  }

  /**
   * The working copies `after` differ from `before` only in capacity, each vehicle's capacity
   * went down by exactly what its trips moved, and a vehicle that made a trip still has a
   * non-negative capacity.
   */
  ghost predicate CapacityAccounted(before: seq<Vehicle>, after: seq<Vehicle>, trips: seq<Trip>) {
    && |after| == |before|
    && (forall t :: t in trips ==> t.vehicle < |before|)
    && forall j :: 0 <= j < |before| ==>
         && after[j] == before[j].(capacity := before[j].capacity - Total(ForVehicle(trips, j)))
         && (ForVehicle(trips, j) != [] ==> after[j].capacity >= 0)
  }

  lemma CapacityAccountedNone(vs: seq<Vehicle>)
    ensures CapacityAccounted(vs, vs, [])
  {
  }

  /** Two stretches of planning compose: the accounts add up. */
  lemma CapacityAccountedCompose(v0: seq<Vehicle>, v1: seq<Vehicle>, v2: seq<Vehicle>, a: seq<Trip>, b: seq<Trip>)
    requires CapacityAccounted(v0, v1, a) && CapacityAccounted(v1, v2, b)
    ensures CapacityAccounted(v0, v2, a + b)
  {
    forall j | 0 <= j < |v0|
      ensures v2[j] == v0[j].(capacity := v0[j].capacity - Total(ForVehicle(a + b, j)))
      ensures ForVehicle(a + b, j) != [] ==> v2[j].capacity >= 0
    {
      ForVehicleConcat(a, b, j);
      TotalConcat(ForVehicle(a, j), ForVehicle(b, j));
    }
  }

  /** Hence no vehicle moves more people than its original capacity (or none, if that is not positive). */
  lemma CapacityAccountedBound(before: seq<Vehicle>, after: seq<Vehicle>, trips: seq<Trip>, j: nat)
    requires CapacityAccounted(before, after, trips) && j < |before|
    requires forall t :: t in trips ==> t.count >= 1
    ensures 0 <= Total(ForVehicle(trips, j)) <= Max(0, before[j].capacity)
    ensures before[j].capacity <= 0 ==> ForVehicle(trips, j) == []
  {
    ForVehicleSubset(trips, j);
    TotalOfPositive(ForVehicle(trips, j));
  }

  lemma ForVehicleSingle(t: Trip, j: nat)
    ensures ForVehicle([t], j) == if t.vehicle == j then [t] else []
  {
    assert [t][1..] == [];
  }

  lemma TotalSingle(t: Trip)
    ensures Total([t]) == t.count
  {
    assert [t][1..] == [];
  }

  /** Every trip was made by a vehicle that had positive capacity to begin with. */
  lemma TripsUseCapacity(before: seq<Vehicle>, after: seq<Vehicle>, trips: seq<Trip>)
    requires CapacityAccounted(before, after, trips)
    requires forall t :: t in trips ==> t.count >= 1
    ensures forall t :: t in trips ==> t.vehicle < |before| && before[t.vehicle].capacity > 0
  {
    forall t | t in trips ensures before[t.vehicle].capacity > 0 {
      CapacityAccountedBound(before, after, trips, t.vehicle);
      ForVehicleSubset(trips, t.vehicle);
    }
  }

  lemma {:induction false} ForVehicleSubset(trips: seq<Trip>, j: nat)
    ensures forall t :: t in ForVehicle(trips, j) <==> t in trips && t.vehicle == j
  {
    if trips != [] {
      ForVehicleSubset(trips[1..], j);
      assert trips == [trips[0]] + trips[1..];
    }
  }

  /** Trips that each move at least one person move at least as many people as there are trips. */
  lemma {:induction false} TotalOfPositive(trips: seq<Trip>)
    requires forall t :: t in trips ==> t.count >= 1
    ensures Total(trips) >= |trips|
  {
    if trips != [] {
      TotalOfPositive(trips[1..]);
    }
  }

  /** Every vehicle has coordinates and a speed that is not negative (zero falls back to 50 km/h). */
  ghost predicate FleetReady(vs: seq<Vehicle>) {
    forall j :: 0 <= j < |vs| ==>
      vs[j].locationCoordinates.Some? && (vs[j].speed.None? || vs[j].speed.value >= 0.0)
  }

  /** Working copies of the same vehicles: only the capacities may differ. */
  ghost predicate SameFleet(a: seq<Vehicle>, b: seq<Vehicle>) {
    |a| == |b| && forall j :: 0 <= j < |a| ==> a[j] == b[j].(capacity := a[j].capacity)
  }

  function SpareCapacity(v: Vehicle): int {
    Max(0, v.capacity)
  }

  function OpenDemand(z: Zone): int {
    Max(0, Unserved(z))
  }

  lemma SameFleetTrans(a: seq<Vehicle>, b: seq<Vehicle>, c: seq<Vehicle>)
    requires SameFleet(a, b) && SameFleet(b, c)
    ensures SameFleet(a, c)
  {
  }

  /** Changing the spare capacity of one vehicle keeps the fleet. */
  lemma SameFleetSet(a: seq<Vehicle>, b: seq<Vehicle>, i: nat, c: int)
    requires SameFleet(a, b) && i < |a|
    ensures SameFleet(a[i := a[i].(capacity := c)], b)
  {
  }

  lemma SameFleetTravel(a: seq<Vehicle>, b: seq<Vehicle>, z: Zone, dist: DistanceFn)
    requires SameFleet(a, b)
    ensures FleetReady(a) <==> FleetReady(b)
    ensures forall j :: 0 <= j < |a| ==> a[j].locationCoordinates == b[j].locationCoordinates && a[j].speed == b[j].speed
    ensures forall j :: 0 <= j < |a| && z.locationCoordinates.Some? && a[j].locationCoordinates.Some? ==>
      TravelMinutes(z, a[j], dist) == TravelMinutes(z, b[j], dist)
  {
  }

  /** Loading `t.count` people onto vehicle `t.vehicle` is accounted for by the single trip `t`. */
  lemma OneTripAccounted(vs: seq<Vehicle>, t: Trip)
    requires t.vehicle < |vs| && t.count <= vs[t.vehicle].capacity
    ensures CapacityAccounted(vs, vs[t.vehicle := vs[t.vehicle].(capacity := vs[t.vehicle].capacity - t.count)], [t])
  {
    forall j | 0 <= j < |vs|
      ensures ForVehicle([t], j) == if j == t.vehicle then [t] else []
    {
      ForVehicleSingle(t, j);
    }
    TotalSingle(t);
  }

  /** Each trip serves a located zone from position `k` on with a located vehicle, at its finite ETA. */
  ghost predicate TripsShaped(zs: seq<Zone>, k: nat, vs: seq<Vehicle>, dist: DistanceFn, trips: seq<Trip>) {
    forall t :: t in trips ==>
      && k <= t.zone < |zs| && t.count >= 1 && t.vehicle < |vs|
      && zs[t.zone].locationCoordinates.Some? && vs[t.vehicle].locationCoordinates.Some?
      && t.eta == TravelMinutes(zs[t.zone], vs[t.vehicle], dist) && t.eta.Finite?
  }

  /** The trips come zone by zone, in the order of the working copy. */
  ghost predicate InZoneOrder(trips: seq<Trip>) {
    forall i, j :: 0 <= i < j < |trips| ==> trips[i].zone <= trips[j].zone
  }

  /** No zone from position `k` on receives more than its open demand. */
  ghost predicate WithinDemand(zs: seq<Zone>, k: nat, trips: seq<Trip>) {
    forall m :: k <= m < |zs| ==> Total(ForZone(trips, m)) <= OpenDemand(zs[m])
  }

  /** Every person moved used up one seat of spare capacity. */
  ghost predicate SeatsConserved(vs: seq<Vehicle>, after: seq<Vehicle>, trips: seq<Trip>) {
    Total(trips) + SumOf(after, SpareCapacity) == SumOf(vs, SpareCapacity)
  }

  /** Loading `t.count` people onto vehicle `t.vehicle` keeps the vehicles' accounts. */
  lemma StepAccounted(vs: seq<Vehicle>, t: Trip, vs1: seq<Vehicle>, after: seq<Vehicle>, rest: seq<Trip>)
    requires t.vehicle < |vs| && 0 <= t.count <= vs[t.vehicle].capacity
    requires vs1 == vs[t.vehicle := vs[t.vehicle].(capacity := vs[t.vehicle].capacity - t.count)]
    requires SameFleet(after, vs1) && CapacityAccounted(vs1, after, rest) && SeatsConserved(vs1, after, rest)
    ensures SameFleet(after, vs) && CapacityAccounted(vs, after, [t] + rest) && SeatsConserved(vs, after, [t] + rest)
  {
    var b := t.vehicle;
    OneTripAccounted(vs, t);
    CapacityAccountedCompose(vs, vs1, after, [t], rest);
    TotalConcat([t], rest);
    TotalSingle(t);
    SumOfUpdate(vs, b, vs1[b], SpareCapacity);
    assert SameFleet(vs1, vs);
    SameFleetTrans(after, vs1, vs);
  }
}
