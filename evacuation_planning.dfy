/**
 * The option-driven planner of the planning utilities (`generateOptimalEvacuationPlan`):
 * zones that still hold people are served by ascending priority; for each zone the vehicles
 * within `maxDistanceKm` are ranked by distance (or by capacity first when `preferFewerTrips`),
 * the shortest prefix that covers the zone is taken, and every vehicle used is removed from
 * the pool. A summary of integer counters closes the plan.
 *
 * `OptimalPlan` is the plan as a function of the inputs; the methods follow the source's
 * loops and are proved to compute it. Planning throws (`Err`) where the source throws: a
 * missing coordinate pair is read, or a vehicle within range has no positive speed.
 */
module EvacuationPlanning {
  import opened Wrappers
  import opened TravelTime
  import opened Entities
  import opened Sequences
  import opened ZoneHelpers
  import Strategies

  // ---------------------------------------------------------------------------------------
  // Urgency and remaining people

  /** The legacy word's level: `{ high: 5, medium: 3, low: 1 }[word] || 3`. */
  function LegacyLevel(word: string): int {
    if word == "high" then 5 else if word == "medium" then 3 else if word == "low" then 1 else 3
  }

  /** The legacy word's priority: `{ high: 1, medium: 3, low: 5 }[word] || 3`. */
  function LegacyPriority(word: string): int {
    if word == "high" then 1 else if word == "medium" then 3 else if word == "low" then 5 else 3
  }

  /** `getUrgencyLevel(zone)`: a numeric level wins (0 included), then the legacy word in any case, then 3. */
  function UrgencyLevel(z: Zone): (level: int)
    ensures z.urgencyLevel.Some? ==> level == z.urgencyLevel.value
    ensures z.urgencyLevel.None? ==> level == 1 || level == 3 || level == 5
  {
    if z.urgencyLevel.Some? then z.urgencyLevel.value
    else if Truthy(z.urgency) then LegacyLevel(ToLower(z.urgency.value))
    else 3
  }

  /** `getUrgencyPriority(zone)`: 1 is the most urgent. */
  function UrgencyPriority(z: Zone): (priority: int)
    ensures z.urgencyLevel.None? ==> priority == 1 || priority == 3 || priority == 5
  {
    if z.urgencyLevel.Some? then 6 - z.urgencyLevel.value
    else if Truthy(z.urgency) then LegacyPriority(ToLower(z.urgency.value))
    else 3
  }

  /** Priority and level are mirror images on every zone: `priority == 6 - level`. */
  lemma PriorityMirrorsLevel(z: Zone)
    ensures UrgencyPriority(z) == 6 - UrgencyLevel(z)
  {
  }

  /**
   * The category agrees with the level: "high" exactly when the level is at least 4, and,
   * for a numeric level or a known legacy word in any case, the category of the level.
   */
  lemma CategoryAgreesWithLevel(z: Zone)
    ensures UrgencyCategory(z) == "high" <==> UrgencyLevel(z) >= 4
    ensures z.urgencyLevel.Some? ==> UrgencyCategory(z) == CategoryOfLevel(UrgencyLevel(z))
    ensures z.urgencyLevel.None? && Truthy(z.urgency) && ToLower(z.urgency.value) in ["high", "medium", "low"] ==>
      UrgencyCategory(z) == CategoryOfLevel(UrgencyLevel(z))
  {
  }

  /** The filter of `generateOptimalEvacuationPlan`: more people than already evacuated. */
  predicate NeedsEvacuation(z: Zone) {
    TotalPeople(z) > z.evacuated
  }

  /** `getRemainingPeople(zone)`: the people still to move, never negative. */
  function RemainingPeople(z: Zone): (remaining: int)
    ensures remaining >= 0
    ensures remaining > 0 <==> NeedsEvacuation(z)
    ensures remaining > 0 ==> remaining + z.evacuated == TotalPeople(z)
  {
    Max(0, TotalPeople(z) - z.evacuated)
  }

  /** The comparator of `sortZonesByUrgency`: `priority(a) - priority(b)`. */
  predicate MorePressing(a: Zone, b: Zone) {
    UrgencyPriority(a) < UrgencyPriority(b)
  }

  /** `sortZonesByUrgency(zones)`: the library's stable in-place sort, as a value. */
  function SortZonesByUrgency(zones: seq<Zone>): (sorted: seq<Zone>)
    ensures |sorted| == |zones|
  {
    StableSort(zones, MorePressing)
  }

  /** The sorted zones are the same zones, by ascending priority, ties in input order. */
  lemma SortZonesByUrgencySpec(zones: seq<Zone>)
    ensures multiset(SortZonesByUrgency(zones)) == multiset(zones)
    ensures forall i, j :: 0 <= i < j < |zones| ==>
      UrgencyPriority(SortZonesByUrgency(zones)[i]) <= UrgencyPriority(SortZonesByUrgency(zones)[j])
    ensures forall e :: TiedWith(SortZonesByUrgency(zones), e, MorePressing) == TiedWith(zones, e, MorePressing)
  {
    assert StrictWeakOrder(MorePressing);
    StableSortPermutes(zones, MorePressing);
    StableSortSorted(zones, MorePressing);
    forall e ensures TiedWith(SortZonesByUrgency(zones), e, MorePressing) == TiedWith(zones, e, MorePressing) {
      StableSortStable(zones, e, MorePressing);
    }
  }

  // ---------------------------------------------------------------------------------------
  // Options, candidate vehicles and the plan's records

  datatype PlanOptions = PlanOptions(
    maxDistanceKm: real,
    allowMultiVehicle: bool,
    preferFewerTrips: bool,
    speedFallbackKmh: real)

  /** A vehicle within range of a zone, with its distance, travel time in hours and speed. */
  datatype VehicleInfo = VehicleInfo(vehicle: Vehicle, distance: real, travelTime: real, speed: real)

  /** One `EvacuationAssignment`, without its clock- and format-derived fields. */
  datatype PlanAssignment = PlanAssignment(
    vehicleId: string,
    vehicleType: string,
    vehicleCapacity: int,
    assignedZone: string,
    zoneId: string,
    zoneCoordinates: Option<Coordinates>,
    urgencyLevel: int,
    urgencyCategory: string,
    priority: int,
    peopleToEvacuate: int,
    distanceKm: real,
    travelTimeHours: real,
    speedKmh: real)

  /** The integer counters of the plan summary. */
  datatype PlanSummary = PlanSummary(
    totalVehiclesAssigned: int,
    totalPeopleToEvacuate: int,
    highPriorityZones: int,
    zonesFullyCovered: int,
    zonesPartiallyCovered: int)

  datatype EvacuationPlan = EvacuationPlan(assignments: seq<PlanAssignment>, summary: PlanSummary, options: PlanOptions)

  /** What reading `latitude` of an absent coordinate pair throws. */
  const MissingCoordinates: string := "Cannot read properties of undefined (reading 'latitude')"

  /** Both coordinate pairs are present. */
  predicate Placed(v: Vehicle, z: Zone) {
    v.locationCoordinates.Some? && z.locationCoordinates.Some?
  }

  /** The vehicle lies within `maxDistanceKm` of the zone. */
  predicate Reachable(v: Vehicle, z: Zone, options: PlanOptions, dist: DistanceFn) {
    Placed(v, z) && dist(v.locationCoordinates.value, z.locationCoordinates.value) <= options.maxDistanceKm
  }

  /** `vehicle.speed || options.speedFallbackKmh`. */
  function EffectiveSpeed(v: Vehicle, options: PlanOptions): real {
    SpeedOr(v.speed, options.speedFallbackKmh)
  }

  /**
   * One turn of `findSuitableVehicles`' loop: the vehicle's record when it is within range,
   * nothing when it is not, and what the source throws.
   */
  function Measure(v: Vehicle, z: Zone, options: PlanOptions, dist: DistanceFn): (m: Result<Option<VehicleInfo>>)
    ensures m.Err? <==> !Placed(v, z) || (Reachable(v, z, options, dist) && EffectiveSpeed(v, options) <= 0.0)
    ensures m == Ok(None) <==> Placed(v, z) && !Reachable(v, z, options, dist)
    ensures m.Ok? && m.value.Some? ==>
      && m.value.value.vehicle == v && Reachable(v, z, options, dist)
      && m.value.value.distance == dist(v.locationCoordinates.value, z.locationCoordinates.value) <= options.maxDistanceKm
      && m.value.value.speed == EffectiveSpeed(v, options) > 0.0
      && m.value.value.travelTime * m.value.value.speed == m.value.value.distance
  {
    if !Placed(v, z) then Err(MissingCoordinates)
    else
      var distance := dist(v.locationCoordinates.value, z.locationCoordinates.value);
      if distance <= options.maxDistanceKm then
        var speed := EffectiveSpeed(v, options);
        match CalculateTravelTime(distance, speed)
        case Err(e) => Err(e)
        case Ok(hours) => Ok(Some(VehicleInfo(v, distance, hours, speed)))
      else Ok(None)
  }

  /** The records `findSuitableVehicles` collects, in vehicle order, or the first error. */
  function Collect(vs: seq<Vehicle>, z: Zone, options: PlanOptions, dist: DistanceFn): Result<seq<VehicleInfo>> {
    if vs == [] then Ok([])
    else
      match Collect(vs[..|vs| - 1], z, options, dist)
      case Err(e) => Err(e)
      case Ok(pre) =>
        match Measure(vs[|vs| - 1], z, options, dist)
        case Err(e) => Err(e)
        case Ok(None) => Ok(pre)
        case Ok(Some(info)) => Ok(pre + [info])
  }

  /**
   * Collecting throws exactly when some vehicle's turn throws; otherwise it holds the record
   * of every vehicle within range and nothing else.
   */
  lemma {:induction false} CollectSpec(vs: seq<Vehicle>, z: Zone, options: PlanOptions, dist: DistanceFn)
    ensures Collect(vs, z, options, dist).Err? <==> exists i :: 0 <= i < |vs| && Measure(vs[i], z, options, dist).Err?
    ensures Collect(vs, z, options, dist).Ok? ==>
      forall x :: x in Collect(vs, z, options, dist).value ==> x.vehicle in vs && Measure(x.vehicle, z, options, dist) == Ok(Some(x))
    ensures Collect(vs, z, options, dist).Ok? ==>
      forall v :: v in vs && Reachable(v, z, options, dist) ==> Measure(v, z, options, dist).value.value in Collect(vs, z, options, dist).value
  {
    if vs != [] {
      var n := |vs|;
      var init := vs[..n - 1];
      CollectSpec(init, z, options, dist);
      assert vs == init + [vs[n - 1]];
      assert forall i :: 0 <= i < n - 1 ==> init[i] == vs[i];
      assert forall v :: v in vs ==> v in init || v == vs[n - 1];
    }
  }

  /** The comparator `(a, b) => a.distance - b.distance`. */
  predicate Closer(a: VehicleInfo, b: VehicleInfo) {
    a.distance < b.distance
  }

  /** `findSuitableVehicles(vehicles, zone, options)`: the records within range, nearest first. */
  function SuitableVehicles(vs: seq<Vehicle>, z: Zone, options: PlanOptions, dist: DistanceFn): Result<seq<VehicleInfo>> {
    match Collect(vs, z, options, dist)
    case Err(e) => Err(e)
    case Ok(found) => Ok(StableSort(found, Closer))
  }

  /**
   * The suitable vehicles are exactly the records of the vehicles within range, sorted by
   * distance; finding them throws exactly when some vehicle's turn throws.
   */
  lemma SuitableVehiclesSpec(vs: seq<Vehicle>, z: Zone, options: PlanOptions, dist: DistanceFn)
    ensures SuitableVehicles(vs, z, options, dist).Err? <==> exists i :: 0 <= i < |vs| && Measure(vs[i], z, options, dist).Err?
    ensures SuitableVehicles(vs, z, options, dist).Ok? ==>
      && SortedBy(SuitableVehicles(vs, z, options, dist).value, Closer)
      && (forall x :: x in SuitableVehicles(vs, z, options, dist).value ==>
            x.vehicle in vs && Measure(x.vehicle, z, options, dist) == Ok(Some(x)))
      && (forall v :: v in vs && Reachable(v, z, options, dist) ==>
            Measure(v, z, options, dist).value.value in SuitableVehicles(vs, z, options, dist).value)
  {
    CollectSpec(vs, z, options, dist);
    var c := Collect(vs, z, options, dist);
    if c.Ok? {
      assert StrictWeakOrder(Closer);
      StableSortSorted(c.value, Closer);
      StableSortPermutes(c.value, Closer);
      assert forall x :: x in StableSort(c.value, Closer) <==> x in c.value by {
        forall x ensures x in StableSort(c.value, Closer) <==> x in c.value {
          assert x in StableSort(c.value, Closer) <==> x in multiset(StableSort(c.value, Closer));
        }
      }
    }
  }

  /** `findSuitableVehicles`: the loop over the vehicles, then the library sort. */
  method FindSuitableVehicles(vehicles: seq<Vehicle>, zone: Zone, options: PlanOptions, dist: DistanceFn)
    returns (r: Result<seq<VehicleInfo>>)
    ensures r == SuitableVehicles(vehicles, zone, options, dist)
  {
    var suitableVehicles: seq<VehicleInfo> := [];
    for i := 0 to |vehicles|
      invariant Collect(vehicles[..i], zone, options, dist) == Ok(suitableVehicles)
    {
      assert vehicles[..i + 1][..i] == vehicles[..i];
      var vehicle := vehicles[i];
      if vehicle.locationCoordinates.None? || zone.locationCoordinates.None? {
        r := Err(MissingCoordinates);
        CollectFails(vehicles, i + 1, zone, options, dist);
        return;
      }
      var distance := dist(vehicle.locationCoordinates.value, zone.locationCoordinates.value);
      if distance <= options.maxDistanceKm {
        var speed := EffectiveSpeed(vehicle, options);
        var travelTime := CalculateTravelTime(distance, speed);
        if travelTime.Err? {
          r := Err(travelTime.message);
          CollectFails(vehicles, i + 1, zone, options, dist);
          return;
        }
        suitableVehicles := suitableVehicles + [VehicleInfo(vehicle, distance, travelTime.value, speed)];
      }
    }
    assert vehicles[..|vehicles|] == vehicles;
    r := Ok(StableSort(suitableVehicles, Closer));
  }

  /** Once a prefix of the vehicles throws, the whole collection throws the same error. */
  lemma {:induction false} CollectFails(vs: seq<Vehicle>, n: nat, z: Zone, options: PlanOptions, dist: DistanceFn)
    requires n <= |vs| && Collect(vs[..n], z, options, dist).Err?
    ensures Collect(vs, z, options, dist) == Collect(vs[..n], z, options, dist)
    decreases |vs| - n
  {
    if n < |vs| {
      assert vs[..n + 1][..n] == vs[..n];
      CollectFails(vs, n + 1, z, options, dist);
    } else {
      assert vs[..n] == vs;
    }
  }
  // ---------------------------------------------------------------------------------------
  // Capacity optimisation

  /** The comparator of `preferFewerTrips`: larger capacity first, then the nearer vehicle. */
  predicate LargerFirst(a: VehicleInfo, b: VehicleInfo) {
    a.vehicle.capacity > b.vehicle.capacity
    || (a.vehicle.capacity == b.vehicle.capacity && a.distance < b.distance)
  }

  /** The candidates in the order `optimizeVehicleSelection` scans them. */
  function Ordered(suitable: seq<VehicleInfo>, options: PlanOptions): (ordered: seq<VehicleInfo>)
    ensures |ordered| == |suitable|
  {
    if options.preferFewerTrips then StableSort(suitable, LargerFirst) else suitable
  }

  function Capacity(info: VehicleInfo): int {
    info.vehicle.capacity
  }

  /**
   * How many candidates the scan takes: none once nobody is left, one when a zone may have
   * only one vehicle, otherwise one more for each vehicle until the capacities cover `need`.
   */
  function SelectCount(s: seq<VehicleInfo>, need: int, multi: bool): (n: nat)
    ensures n <= |s|
  {
    if s == [] || need <= 0 then 0
    else if !multi then 1
    else 1 + SelectCount(s[1..], need - s[0].vehicle.capacity, multi)
  }

  /** `optimizeVehicleSelection(suitable, need, options)`. */
  function Selection(suitable: seq<VehicleInfo>, need: int, options: PlanOptions): seq<VehicleInfo> {
    var ordered := Ordered(suitable, options);
    ordered[..SelectCount(ordered, need, options.allowMultiVehicle)]
  }

  /**
   * The selection is the shortest prefix whose capacities cover `need`, or every candidate
   * when none does; a zone that may have one vehicle takes the first candidate only.
   */
  lemma {:induction false} SelectCountSpec(s: seq<VehicleInfo>, need: int, multi: bool)
    ensures SelectCount(s, need, multi) == 0 <==> s == [] || need <= 0
    ensures !multi ==> SelectCount(s, need, multi) <= 1
    ensures multi ==> forall m :: 0 <= m < SelectCount(s, need, multi) ==> SumOf(s[..m], Capacity) < need
    ensures multi ==> SelectCount(s, need, multi) == |s| || SumOf(s[..SelectCount(s, need, multi)], Capacity) >= need
  {
    if s != [] && need > 0 && multi {
      var rest := need - s[0].vehicle.capacity;
      SelectCountSpec(s[1..], rest, multi);
      var n := SelectCount(s, need, multi);
      forall m | 0 <= m <= n
        ensures SumOf(s[..m], Capacity) == if m == 0 then 0 else s[0].vehicle.capacity + SumOf(s[1..][..m - 1], Capacity)
      {
        if m > 0 {
          assert s[..m][1..] == s[1..][..m - 1];
        }
      }
    }
  }

  /** The selection is drawn from the candidates, in scan order. */
  lemma SelectionFromCandidates(suitable: seq<VehicleInfo>, need: int, options: PlanOptions)
    ensures forall x :: x in Selection(suitable, need, options) ==> x in suitable
    ensures DistinctBy(suitable, InfoKey) ==> DistinctBy(Selection(suitable, need, options), InfoKey)
  {
    var ordered := Ordered(suitable, options);
    if options.preferFewerTrips {
      StableSortPermutes(suitable, LargerFirst);
      forall x | x in ordered ensures x in suitable {
        assert x in multiset(ordered);
      }
      if DistinctBy(suitable, InfoKey) {
        StableSortDistinct(suitable, LargerFirst, InfoKey);
      }
    }
  }

  /** `optimizeVehicleSelection`: the optional capacity sort, then the covering scan. */
  method OptimizeVehicleSelection(suitableVehicles: seq<VehicleInfo>, peopleToEvacuate: int, options: PlanOptions)
    returns (selectedVehicles: seq<VehicleInfo>)
    ensures selectedVehicles == Selection(suitableVehicles, peopleToEvacuate, options)
  {
    var ordered := suitableVehicles;
    if options.preferFewerTrips {
      ordered := StableSort(suitableVehicles, LargerFirst);
    }
    selectedVehicles := [];
    var remainingPeople := peopleToEvacuate;
    var i := 0;
    while i < |ordered|
      invariant 0 <= i <= |ordered|
      invariant selectedVehicles == ordered[..i]
      invariant i + SelectCount(ordered[i..], remainingPeople, options.allowMultiVehicle)
             == SelectCount(ordered, peopleToEvacuate, options.allowMultiVehicle)
      invariant !options.allowMultiVehicle ==> i == 0 && remainingPeople == peopleToEvacuate
    {
      if remainingPeople <= 0 {
        break;
      }
      assert ordered[i..][1..] == ordered[i + 1..];
      selectedVehicles := selectedVehicles + [ordered[i]];
      remainingPeople := remainingPeople - ordered[i].vehicle.capacity;
      i := i + 1;
      if !options.allowMultiVehicle {
        break;
      }
    }
  }

  // ---------------------------------------------------------------------------------------
  // The pool of available vehicles

  /** `vehicle.id || vehicle.vehicleId`: the key the pool is searched by (`undefined` is `None`). */
  function KeyOf(v: Vehicle): Option<string> {
    if v.id != "" then Some(v.id) else v.vehicleId
  }

  function InfoKey(info: VehicleInfo): Option<string> {
    KeyOf(info.vehicle)
  }

  /** `vehicle.id || vehicle.vehicleId || 'unknown'`: the id an assignment reports. */
  function VehicleLabel(v: Vehicle): string {
    if v.id != "" then v.id else StringOr(v.vehicleId, "unknown")
  }

  /** `availableVehicles.findIndex(v => key(v) === key)`. */
  function IndexOfKey(vs: seq<Vehicle>, key: Option<string>): (i: Option<nat>)
    ensures i.Some? ==> i.value < |vs| && KeyOf(vs[i.value]) == key
  {
    if vs == [] then None
    else if KeyOf(vs[0]) == key then Some(0)
    else
      match IndexOfKey(vs[1..], key)
      case None => None
      case Some(j) => Some(j + 1)
  }

  /** `findIndex` finds the first vehicle with the key, and finds nothing only when no vehicle has it. */
  lemma {:induction false} IndexOfKeySpec(vs: seq<Vehicle>, key: Option<string>)
    ensures IndexOfKey(vs, key).Some? ==> forall j :: 0 <= j < IndexOfKey(vs, key).value ==> KeyOf(vs[j]) != key
    ensures IndexOfKey(vs, key).None? ==> forall j :: 0 <= j < |vs| ==> KeyOf(vs[j]) != key
  {
    if vs != [] && KeyOf(vs[0]) != key {
      IndexOfKeySpec(vs[1..], key);
      forall j | 1 <= j < |vs| ensures vs[j] == vs[1..][j - 1] { }
    }
  }

  /** The pool after `splice(findIndex(...), 1)`: the first vehicle with the key leaves it. */
  function RemoveVehicle(vs: seq<Vehicle>, key: Option<string>): seq<Vehicle> {
    match IndexOfKey(vs, key)
    case None => vs
    case Some(i) => vs[..i] + vs[i + 1..]
  }

  /**
   * Removal takes out one vehicle with the key, if there is one, and keeps every vehicle
   * with another key; when keys are distinct no vehicle with the key is left.
   */
  lemma RemoveVehicleSpec(vs: seq<Vehicle>, key: Option<string>)
    ensures forall v :: v in RemoveVehicle(vs, key) ==> v in vs
    ensures forall v :: v in vs && KeyOf(v) != key ==> v in RemoveVehicle(vs, key)
    ensures (exists v :: v in vs && KeyOf(v) == key) ==> |RemoveVehicle(vs, key)| == |vs| - 1
    ensures DistinctBy(vs, KeyOf) ==>
      DistinctBy(RemoveVehicle(vs, key), KeyOf) && forall v :: v in RemoveVehicle(vs, key) ==> KeyOf(v) != key
  {
    var r := RemoveVehicle(vs, key);
    IndexOfKeySpec(vs, key);
    match IndexOfKey(vs, key)
    case None =>
    case Some(i) =>
      assert forall j :: 0 <= j < |r| ==> r[j] == if j < i then vs[j] else vs[j + 1];
      forall v | v in vs && KeyOf(v) != key ensures v in r {
        var j :| 0 <= j < |vs| && vs[j] == v;
        if j < i { assert r[j] == v; } else { assert r[j - 1] == v; }
      }
  }
  /** The keys of the vehicles in a pool. */
  function Keys(vs: seq<Vehicle>): set<Option<string>> {
    set v | v in vs :: KeyOf(v)
  }

  /** The vehicle reports the key it is searched by: its `id` or `vehicleId` is a non-empty string. */
  predicate Identified(v: Vehicle) {
    KeyOf(v) == Some(VehicleLabel(v))
  }

  /** Records of a collection are distinct when the vehicles they come from have distinct keys. */
  lemma {:induction false} CollectDistinct(vs: seq<Vehicle>, z: Zone, options: PlanOptions, dist: DistanceFn)
    requires DistinctBy(vs, KeyOf)
    ensures Collect(vs, z, options, dist).Ok? ==> DistinctBy(Collect(vs, z, options, dist).value, InfoKey)
  {
    if vs != [] && Collect(vs, z, options, dist).Ok? {
      var n := |vs|;
      var init := vs[..n - 1];
      assert DistinctBy(init, KeyOf);
      CollectDistinct(init, z, options, dist);
      CollectSpec(init, z, options, dist);
      var pre := Collect(init, z, options, dist).value;
      forall x | x in pre ensures KeyOf(x.vehicle) != KeyOf(vs[n - 1]) {
        var j :| 0 <= j < n - 1 && init[j] == x.vehicle;
      }
    }
  }

  // ---------------------------------------------------------------------------------------
  // Assignments, zone by zone

  /** What an assignment reports about its zone: location, id, coordinates and urgency. */
  datatype ZoneFields = ZoneFields(
    assignedZone: string,
    zoneId: string,
    zoneCoordinates: Option<Coordinates>,
    urgencyLevel: int,
    urgencyCategory: string,
    priority: int)

  function FieldsOf(zone: Zone, show: real -> string): ZoneFields {
    ZoneFields(ZoneLocation(zone, show), Strategies.ZoneKey(zone), zone.locationCoordinates,
               UrgencyLevel(zone), UrgencyCategory(zone), UrgencyPriority(zone))
  }

  /** The record of `info` moving `people` from the zone described by `fields`. */
  function MakeAssignment(fields: ZoneFields, info: VehicleInfo, people: int): PlanAssignment {
    PlanAssignment(
      VehicleLabel(info.vehicle), info.vehicle.vehicleType, info.vehicle.capacity,
      fields.assignedZone, fields.zoneId, fields.zoneCoordinates,
      fields.urgencyLevel, fields.urgencyCategory, fields.priority,
      people, info.distance, info.travelTime, info.speed)
  }

  function People(a: PlanAssignment): int {
    a.peopleToEvacuate
  }

  /**
   * The loop over the selected vehicles: while people are left, each vehicle takes
   * `min(capacity, left)` and leaves the pool; one vehicle only when a zone may have one.
   * The zone's assignments and the pool after them.
   */
  function AssignSelected(fields: ZoneFields, selected: seq<VehicleInfo>, left: int, pool: seq<Vehicle>, multi: bool)
    : (seq<PlanAssignment>, seq<Vehicle>)
  {
    if selected == [] || left <= 0 then ([], pool)
    else
      var info := selected[0];
      var people := Min(info.vehicle.capacity, left);
      var a := MakeAssignment(fields, info, people);
      var rest := RemoveVehicle(pool, KeyOf(info.vehicle));
      if !multi then ([a], rest)
      else
        var more := AssignSelected(fields, selected[1..], left - people, rest, multi);
        ([a] + more.0, more.1)
  }

  /**
   * A zone's assignments: the i-th uses the i-th selected vehicle and moves no more than its
   * capacity; together they move no more than were left, and when they move fewer every
   * selected vehicle was used; one at most when a zone may have one.
   */
  lemma AssignSelectedSpec(fields: ZoneFields, selected: seq<VehicleInfo>, left: int, pool: seq<Vehicle>, multi: bool)
    requires left >= 0
    ensures var r := AssignSelected(fields, selected, left, pool, multi);
      && |r.0| <= |selected|
      && (!multi ==> |r.0| <= 1)
      && SumOf(r.0, People) <= left
      && (multi && SumOf(r.0, People) < left ==> |r.0| == |selected|)
      && (forall i :: 0 <= i < |r.0| ==>
            && r.0[i].vehicleId == VehicleLabel(selected[i].vehicle)
            && r.0[i].distanceKm == selected[i].distance && r.0[i].speedKmh == selected[i].speed
            && r.0[i].zoneId == fields.zoneId
            && r.0[i].priority == fields.priority
            && r.0[i].peopleToEvacuate <= r.0[i].vehicleCapacity == selected[i].vehicle.capacity
            && (selected[i].vehicle.capacity >= 1 ==> r.0[i].peopleToEvacuate >= 1))
  {
    AssignSelectedCount(fields, selected, left, pool, multi);
    AssignSelectedMoved(fields, selected, left, pool, multi);
    var r := AssignSelected(fields, selected, left, pool, multi);
    forall i | 0 <= i < |r.0|
      ensures && r.0[i].vehicleId == VehicleLabel(selected[i].vehicle)
              && r.0[i].distanceKm == selected[i].distance && r.0[i].speedKmh == selected[i].speed
              && r.0[i].zoneId == fields.zoneId
              && r.0[i].priority == fields.priority
              && r.0[i].peopleToEvacuate <= r.0[i].vehicleCapacity == selected[i].vehicle.capacity
              && (selected[i].vehicle.capacity >= 1 ==> r.0[i].peopleToEvacuate >= 1)
    {
      AssignSelectedAt(fields, selected, left, pool, multi, i);
    }
  }

  /** How many assignments a zone gets: no more than the selected vehicles, and one at most when a zone may have one. */
  lemma {:induction false} AssignSelectedCount(fields: ZoneFields, selected: seq<VehicleInfo>, left: int, pool: seq<Vehicle>, multi: bool)
    ensures |AssignSelected(fields, selected, left, pool, multi).0| <= |selected|
    ensures !multi ==> |AssignSelected(fields, selected, left, pool, multi).0| <= 1
  {
    if selected != [] && left > 0 {
      var people := Min(selected[0].vehicle.capacity, left);
      AssignSelectedNext(fields, selected, left, pool, multi);
      if multi {
        AssignSelectedCount(fields, selected[1..], left - people, RemoveVehicle(pool, KeyOf(selected[0].vehicle)), multi);
      }
    }
  }

  /**
   * How many people a zone's assignments move: no more than were left, and fewer only when
   * every selected vehicle was used (or when a zone may have one vehicle).
   */
  lemma {:induction false} AssignSelectedMoved(fields: ZoneFields, selected: seq<VehicleInfo>, left: int, pool: seq<Vehicle>, multi: bool)
    requires left >= 0
    ensures SumOf(AssignSelected(fields, selected, left, pool, multi).0, People) <= left
    ensures multi && SumOf(AssignSelected(fields, selected, left, pool, multi).0, People) < left
            ==> |AssignSelected(fields, selected, left, pool, multi).0| == |selected|
  {
    var r := AssignSelected(fields, selected, left, pool, multi);
    if selected == [] || left <= 0 {
      assert r.0 == [];
    } else {
      var info := selected[0];
      var people := Min(info.vehicle.capacity, left);
      var a := MakeAssignment(fields, info, people);
      var rest := RemoveVehicle(pool, KeyOf(info.vehicle));
      AssignSelectedNext(fields, selected, left, pool, multi);
      SumOfSingle(a, People);
      if multi {
        var more := AssignSelected(fields, selected[1..], left - people, rest, multi);
        AssignSelectedMoved(fields, selected[1..], left - people, rest, multi);
        assert r.0 == [a] + more.0;
        SumOfConcat([a], more.0, People);
      } else {
        assert r.0 == [a];
      }
    }
  }

  /** The i-th assignment of a zone is made for its i-th selected vehicle, with people left to move. */
  lemma {:induction false} AssignSelectedAt(fields: ZoneFields, selected: seq<VehicleInfo>, left: int, pool: seq<Vehicle>, multi: bool, i: nat)
    requires i < |AssignSelected(fields, selected, left, pool, multi).0|
    ensures i < |selected|
    ensures var a := AssignSelected(fields, selected, left, pool, multi).0[i];
      && a == MakeAssignment(fields, selected[i], a.peopleToEvacuate)
      && a.peopleToEvacuate <= selected[i].vehicle.capacity
      && (selected[i].vehicle.capacity >= 1 ==> a.peopleToEvacuate >= 1)
  {
    var info := selected[0];
    var people := Min(info.vehicle.capacity, left);
    var rest := RemoveVehicle(pool, KeyOf(info.vehicle));
    var a := MakeAssignment(fields, info, people);
    var r := AssignSelected(fields, selected, left, pool, multi);
    AssignSelectedNext(fields, selected, left, pool, multi);
    if i == 0 {
      assert r.0[0] == a;
    } else {
      var more := AssignSelected(fields, selected[1..], left - people, rest, multi);
      assert r.0 == [a] + more.0;
      AssignSelectedAt(fields, selected[1..], left - people, rest, multi, i - 1);
      assert r.0[i] == more.0[i - 1] && selected[1..][i - 1] == selected[i];
    }
  }

  /** No two assignments report the same vehicle id. */
  ghost predicate IdsDistinct(plan: seq<PlanAssignment>) {
    forall i, j :: 0 <= i < j < |plan| ==> plan[i].vehicleId != plan[j].vehicleId
  }

  /**
   * `plan` took its vehicles out of `pool`, leaving `after`: one vehicle per assignment, each
   * reported id the key of a vehicle that was in the pool and is not any more.
   */
  ghost predicate Spent(pool: seq<Vehicle>, plan: seq<PlanAssignment>, after: seq<Vehicle>) {
    && DistinctBy(after, KeyOf)
    && (forall v :: v in after ==> v in pool)
    && |plan| + |after| == |pool|
    && IdsDistinct(plan)
    && (forall i :: 0 <= i < |plan| ==> Some(plan[i].vehicleId) in Keys(pool) - Keys(after))
  }

  lemma SpentNothing(pool: seq<Vehicle>)
    requires DistinctBy(pool, KeyOf)
    ensures Spent(pool, [], pool)
  {
  }

  lemma KeysShrink(pool: seq<Vehicle>, after: seq<Vehicle>)
    requires forall v :: v in after ==> v in pool
    ensures Keys(after) <= Keys(pool)
  {
  }

  /** Taking the vehicle with key `key` out of the pool for assignment `a` extends what was spent. */
  lemma SpentStep(pool: seq<Vehicle>, v: Vehicle, a: PlanAssignment, more: seq<PlanAssignment>, after: seq<Vehicle>)
    requires DistinctBy(pool, KeyOf) && v in pool && KeyOf(v) == Some(a.vehicleId)
    requires Spent(RemoveVehicle(pool, KeyOf(v)), more, after)
    ensures Spent(pool, [a] + more, after)
  {
    var rest := RemoveVehicle(pool, KeyOf(v));
    RemoveVehicleSpec(pool, KeyOf(v));
    KeysShrink(pool, rest);
    KeysShrink(rest, after);
    assert KeyOf(v) !in Keys(rest);
    var plan := [a] + more;
    assert |rest| == |pool| - 1;
    assert KeyOf(v) in Keys(pool) - Keys(after);
    forall i | 0 < i < |plan|
      ensures plan[i] == more[i - 1] && plan[i].vehicleId != a.vehicleId
      ensures Some(plan[i].vehicleId) in Keys(pool) - Keys(after)
    {
      assert Some(more[i - 1].vehicleId) in Keys(rest) - Keys(after);
    }
    assert IdsDistinct(plan) by {
      forall i, j | 0 <= i < j < |plan| ensures plan[i].vehicleId != plan[j].vehicleId {
        if i > 0 {
          assert plan[i] == more[i - 1] && plan[j] == more[j - 1];
        }
      }
    }
  }

  /** With distinct keys, a zone's assignments spend distinct vehicles of the pool. */
  lemma {:induction false} AssignSelectedPool(fields: ZoneFields, selected: seq<VehicleInfo>, left: int, pool: seq<Vehicle>, multi: bool)
    requires DistinctBy(pool, KeyOf) && DistinctBy(selected, InfoKey)
    requires forall x :: x in selected ==> x.vehicle in pool
    requires forall v :: v in pool ==> Identified(v)
    ensures Spent(pool, AssignSelected(fields, selected, left, pool, multi).0, AssignSelected(fields, selected, left, pool, multi).1)
  {
    if selected == [] || left <= 0 {
      SpentNothing(pool);
    } else {
      var info := selected[0];
      var key := KeyOf(info.vehicle);
      var people := Min(info.vehicle.capacity, left);
      var a := MakeAssignment(fields, info, people);
      var rest := RemoveVehicle(pool, key);
      RemoveVehicleSpec(pool, key);
      assert Identified(info.vehicle);
      if multi {
        forall x | x in selected[1..] ensures x.vehicle in rest {
          var j :| 0 <= j < |selected[1..]| && selected[1..][j] == x;
          assert KeyOf(selected[j + 1].vehicle) != key;
        }
        assert DistinctBy(selected[1..], InfoKey);
        AssignSelectedPool(fields, selected[1..], left - people, rest, multi);
        var more := AssignSelected(fields, selected[1..], left - people, rest, multi);
        SpentStep(pool, info.vehicle, a, more.0, more.1);
      } else {
        SpentNothing(rest);
        SpentStep(pool, info.vehicle, a, [], rest);
        assert [a] + [] == [a];
      }
    }
  }
  /** The pool after a zone's assignments holds only vehicles that were in it. */
  lemma {:induction false} AssignSelectedSubset(fields: ZoneFields, selected: seq<VehicleInfo>, left: int, pool: seq<Vehicle>, multi: bool)
    ensures forall v :: v in AssignSelected(fields, selected, left, pool, multi).1 ==> v in pool
  {
    if selected != [] && left > 0 {
      var info := selected[0];
      var rest := RemoveVehicle(pool, KeyOf(info.vehicle));
      RemoveVehicleSpec(pool, KeyOf(info.vehicle));
      if multi {
        AssignSelectedSubset(fields, selected[1..], left - Min(info.vehicle.capacity, left), rest, multi);
      }
    }
  }

  /** One turn of the zone loop: the zone's assignments and the pool after them. */
  function ZoneBlock(zone: Zone, pool: seq<Vehicle>, options: PlanOptions, dist: DistanceFn, show: real -> string)
    : Result<(seq<PlanAssignment>, seq<Vehicle>)>
  {
    var remaining := RemainingPeople(zone);
    if remaining <= 0 then Ok(([], pool))
    else
      match SuitableVehicles(pool, zone, options, dist)
      case Err(e) => Err(e)
      case Ok(suitable) =>
        if suitable == [] then Ok(([], pool))
        else Ok(AssignSelected(FieldsOf(zone, show), Selection(suitable, remaining, options), remaining, pool, options.allowMultiVehicle))
  }

  /** The zone loop: one block of assignments per zone reached, in zone order, until the pool is empty. */
  function PlanZones(zs: seq<Zone>, pool: seq<Vehicle>, options: PlanOptions, dist: DistanceFn, show: real -> string)
    : Result<(seq<seq<PlanAssignment>>, seq<Vehicle>)>
  {
    if zs == [] || pool == [] then Ok(([], pool))
    else
      match ZoneBlock(zs[0], pool, options, dist, show)
      case Err(e) => Err(e)
      case Ok(b) =>
        match PlanZones(zs[1..], b.1, options, dist, show)
        case Err(e) => Err(e)
        case Ok(r) => Ok(([b.0] + r.0, r.1))
  }

  function Flatten(blocks: seq<seq<PlanAssignment>>): seq<PlanAssignment> {
    if blocks == [] then [] else blocks[0] + Flatten(blocks[1..])
  }

  lemma {:induction false} FlattenAppend(blocks: seq<seq<PlanAssignment>>, b: seq<PlanAssignment>)
    ensures Flatten(blocks + [b]) == Flatten(blocks) + b
  {
    if blocks == [] {
      assert [b][1..] == [];
    } else {
      assert (blocks + [b])[1..] == blocks[1..] + [b];
      FlattenAppend(blocks[1..], b);
    }
  }

  /**
   * What the planner promises about the assignments of one zone: they belong to the zone,
   * each uses a vehicle within range that moves no more than its capacity, together they
   * move no more than the zone's remaining people, and a zone that may have one vehicle
   * gets one at most.
   */
  ghost predicate BlockFits(zone: Zone, block: seq<PlanAssignment>, options: PlanOptions) {
    && (!options.allowMultiVehicle ==> |block| <= 1)
    && SumOf(block, People) <= RemainingPeople(zone)
    && forall a :: a in block ==>
      && a.zoneId == Strategies.ZoneKey(zone) && a.priority == UrgencyPriority(zone)
      && a.peopleToEvacuate <= a.vehicleCapacity
      && (a.vehicleCapacity >= 1 ==> a.peopleToEvacuate >= 1)
      && a.distanceKm <= options.maxDistanceKm && a.speedKmh > 0.0
  }

  /** Assigning candidates within range and with a positive speed gives a block that fits the zone. */
  lemma AssignSelectedFits(zone: Zone, selected: seq<VehicleInfo>, remaining: int, pool: seq<Vehicle>, options: PlanOptions, show: real -> string)
    requires remaining == RemainingPeople(zone)
    requires forall x :: x in selected ==> x.distance <= options.maxDistanceKm && x.speed > 0.0
    ensures BlockFits(zone, AssignSelected(FieldsOf(zone, show), selected, remaining, pool, options.allowMultiVehicle).0, options)
  {
    AssignSelectedSpec(FieldsOf(zone, show), selected, remaining, pool, options.allowMultiVehicle);
    var block := AssignSelected(FieldsOf(zone, show), selected, remaining, pool, options.allowMultiVehicle).0;
    forall a | a in block
      ensures a.distanceKm <= options.maxDistanceKm && a.speedKmh > 0.0
    {
      var i :| 0 <= i < |block| && block[i] == a;
      assert selected[i] in selected;
    }
  }

  lemma ZoneBlockFits(zone: Zone, pool: seq<Vehicle>, options: PlanOptions, dist: DistanceFn, show: real -> string)
    requires ZoneBlock(zone, pool, options, dist, show).Ok?
    ensures BlockFits(zone, ZoneBlock(zone, pool, options, dist, show).value.0, options)
    ensures forall v :: v in ZoneBlock(zone, pool, options, dist, show).value.1 ==> v in pool
  {
    var remaining := RemainingPeople(zone);
    if remaining > 0 {
      SuitableVehiclesSpec(pool, zone, options, dist);
      var suitable := SuitableVehicles(pool, zone, options, dist).value;
      if suitable != [] {
        var selected := Selection(suitable, remaining, options);
        SelectionFromCandidates(suitable, remaining, options);
        ZoneBlockServed(zone, pool, options, dist, show, suitable, selected);
        forall x | x in selected ensures x.distance <= options.maxDistanceKm && x.speed > 0.0 {
          assert x in suitable;
          assert Measure(x.vehicle, zone, options, dist) == Ok(Some(x));
        }
        AssignSelectedFits(zone, selected, remaining, pool, options, show);
        AssignSelectedSubset(FieldsOf(zone, show), selected, remaining, pool, options.allowMultiVehicle);
      } else {
        ZoneBlockSkipped(zone, pool, options, dist, show);
      }
    } else {
      ZoneBlockSkipped(zone, pool, options, dist, show);
    }
  }

  /** With distinct keys, a zone's assignments spend distinct vehicles of the pool. */
  lemma ZoneBlockPool(zone: Zone, pool: seq<Vehicle>, options: PlanOptions, dist: DistanceFn, show: real -> string)
    requires DistinctBy(pool, KeyOf) && forall v :: v in pool ==> Identified(v)
    requires ZoneBlock(zone, pool, options, dist, show).Ok?
    ensures Spent(pool, ZoneBlock(zone, pool, options, dist, show).value.0, ZoneBlock(zone, pool, options, dist, show).value.1)
  {
    var remaining := RemainingPeople(zone);
    if remaining <= 0 {
      SpentNothing(pool);
    } else {
      SuitableVehiclesSpec(pool, zone, options, dist);
      CollectDistinct(pool, zone, options, dist);
      var found := Collect(pool, zone, options, dist).value;
      StableSortDistinct(found, Closer, InfoKey);
      var suitable := SuitableVehicles(pool, zone, options, dist).value;
      if suitable == [] {
        SpentNothing(pool);
      } else {
        SelectionFromCandidates(suitable, remaining, options);
        AssignSelectedPool(FieldsOf(zone, show), Selection(suitable, remaining, options), remaining, pool, options.allowMultiVehicle);
      }
    }
  }

  /** Spending from a pool and then from what is left is spending from the pool. */
  lemma SpentCompose(pool: seq<Vehicle>, a: seq<PlanAssignment>, mid: seq<Vehicle>, b: seq<PlanAssignment>, after: seq<Vehicle>)
    requires Spent(pool, a, mid) && Spent(mid, b, after)
    ensures Spent(pool, a + b, after)
  {
    KeysShrink(pool, mid);
    KeysShrink(mid, after);
    var plan := a + b;
    forall i, j | 0 <= i < j < |plan| ensures plan[i].vehicleId != plan[j].vehicleId {
      if i < |a| && j >= |a| {
        assert plan[j] == b[j - |a|];
        assert Some(b[j - |a|].vehicleId) in Keys(mid);
      }
    }
  }

  /** Every zone reached gets a block that fits it; the loop stops early only on an empty pool. */
  lemma {:induction false} PlanZonesFit(zs: seq<Zone>, pool: seq<Vehicle>, options: PlanOptions, dist: DistanceFn, show: real -> string)
    requires PlanZones(zs, pool, options, dist, show).Ok?
    ensures var r := PlanZones(zs, pool, options, dist, show).value;
      && |r.0| <= |zs|
      && (forall k :: 0 <= k < |r.0| ==> BlockFits(zs[k], r.0[k], options))
      && (|r.0| < |zs| ==> r.1 == [])
      && (forall v :: v in r.1 ==> v in pool)
  {
    if zs != [] && pool != [] {
      ZoneBlockFits(zs[0], pool, options, dist, show);
      var b := ZoneBlock(zs[0], pool, options, dist, show).value;
      PlanZonesFit(zs[1..], b.1, options, dist, show);
    }
  }

  /** With distinct keys, the whole plan spends distinct vehicles of the pool. */
  lemma {:induction false} PlanZonesPool(zs: seq<Zone>, pool: seq<Vehicle>, options: PlanOptions, dist: DistanceFn, show: real -> string)
    requires DistinctBy(pool, KeyOf) && forall v :: v in pool ==> Identified(v)
    requires PlanZones(zs, pool, options, dist, show).Ok?
    ensures Spent(pool, Flatten(PlanZones(zs, pool, options, dist, show).value.0), PlanZones(zs, pool, options, dist, show).value.1)
  {
    if zs == [] || pool == [] {
      SpentNothing(pool);
    } else {
      ZoneBlockPool(zs[0], pool, options, dist, show);
      var b := ZoneBlock(zs[0], pool, options, dist, show).value;
      PlanZonesPool(zs[1..], b.1, options, dist, show);
      var r := PlanZones(zs[1..], b.1, options, dist, show).value;
      SpentCompose(pool, b.0, b.1, Flatten(r.0), r.1);
      assert ([b.0] + r.0)[1..] == r.0;
    }
  }

  /** The assignments' priorities never decrease along the plan. */
  ghost predicate Ascending(plan: seq<PlanAssignment>) {
    forall i, j :: 0 <= i < j < |plan| ==> plan[i].priority <= plan[j].priority
  }

  /** A block of priority `p` followed by assignments of priority `p` or more keeps the order. */
  lemma AscendingConcat(block: seq<PlanAssignment>, rest: seq<PlanAssignment>, p: int)
    requires forall a :: a in block ==> a.priority == p
    requires forall a :: a in rest ==> a.priority >= p
    requires Ascending(rest)
    ensures Ascending(block + rest)
  {
    var plan := block + rest;
    forall i, j | 0 <= i < j < |plan| ensures plan[i].priority <= plan[j].priority {
      if j < |block| {
        assert plan[i] in block && plan[j] in block;
      } else if i < |block| {
        assert plan[i] in block && plan[j] == rest[j - |block|];
      } else {
        assert plan[i] == rest[i - |block|] && plan[j] == rest[j - |block|];
      }
    }
  }

  /** Assignments come in ascending priority when the zones do. */
  lemma {:induction false} PlanZonesOrdered(zs: seq<Zone>, pool: seq<Vehicle>, options: PlanOptions, dist: DistanceFn, show: real -> string)
    requires forall i, j :: 0 <= i < j < |zs| ==> UrgencyPriority(zs[i]) <= UrgencyPriority(zs[j])
    requires PlanZones(zs, pool, options, dist, show).Ok?
    ensures Ascending(Flatten(PlanZones(zs, pool, options, dist, show).value.0))
    ensures zs != [] ==> forall a :: a in Flatten(PlanZones(zs, pool, options, dist, show).value.0) ==> a.priority >= UrgencyPriority(zs[0])
  {
    if zs != [] && pool != [] {
      ZoneBlockFits(zs[0], pool, options, dist, show);
      var b := ZoneBlock(zs[0], pool, options, dist, show).value;
      PlanZonesOrdered(zs[1..], b.1, options, dist, show);
      var r := PlanZones(zs[1..], b.1, options, dist, show).value;
      assert ([b.0] + r.0)[1..] == r.0;
      var rest := Flatten(r.0);
      if |zs| > 1 {
        assert zs[1..][0] == zs[1];
      } else {
        assert r.0 == [];
      }
      AscendingConcat(b.0, rest, UrgencyPriority(zs[0]));
    }
  }
  /** Stopping the zone loop once the plan holds enough people never moves more than the zones hold. */
  lemma {:induction false} PlanZonesPeople(zs: seq<Zone>, pool: seq<Vehicle>, options: PlanOptions, dist: DistanceFn, show: real -> string)
    requires PlanZones(zs, pool, options, dist, show).Ok?
    ensures SumOf(Flatten(PlanZones(zs, pool, options, dist, show).value.0), People) <= SumOf(zs, RemainingPeople)
  {
    SumOfSigns(zs, RemainingPeople);
    if zs != [] && pool != [] {
      ZoneBlockFits(zs[0], pool, options, dist, show);
      var b := ZoneBlock(zs[0], pool, options, dist, show).value;
      PlanZonesPeople(zs[1..], b.1, options, dist, show);
      var r := PlanZones(zs[1..], b.1, options, dist, show).value;
      assert ([b.0] + r.0)[1..] == r.0;
      SumOfConcat(b.0, Flatten(r.0), People);
    }
  }

  /** Every vehicle has coordinates and a positive effective speed. */
  predicate Ready(v: Vehicle, options: PlanOptions) {
    v.locationCoordinates.Some? && EffectiveSpeed(v, options) > 0.0
  }

  /** With located zones and ready vehicles the zone loop never throws. */
  lemma {:induction false} PlanZonesSucceeds(zs: seq<Zone>, pool: seq<Vehicle>, options: PlanOptions, dist: DistanceFn, show: real -> string)
    requires forall z :: z in zs ==> z.locationCoordinates.Some?
    requires forall v :: v in pool ==> Ready(v, options)
    ensures PlanZones(zs, pool, options, dist, show).Ok?
  {
    if zs != [] && pool != [] {
      SuitableVehiclesSpec(pool, zs[0], options, dist);
      assert zs[0] in zs;
      forall i | 0 <= i < |pool| ensures Measure(pool[i], zs[0], options, dist).Ok? {
        assert pool[i] in pool;
      }
      ZoneBlockFits(zs[0], pool, options, dist, show);
      var b := ZoneBlock(zs[0], pool, options, dist, show).value;
      PlanZonesSucceeds(zs[1..], b.1, options, dist, show);
    }
  }

  // ---------------------------------------------------------------------------------------
  // The summary

  predicate IsHigh(a: PlanAssignment) {
    a.urgencyCategory == "high"
  }

  /** `new Set(assignments.map(a => a.zoneId))`. */
  function ZoneIds(plan: seq<PlanAssignment>): set<string> {
    set a | a in plan :: a.zoneId
  }

  /** The zones some assignment names. */
  function CoveredBy(plan: seq<PlanAssignment>): Zone -> bool {
    (z: Zone) => Strategies.ZoneKey(z) in ZoneIds(plan)
  }

  function ForZoneId(key: string): PlanAssignment -> bool {
    (a: PlanAssignment) => a.zoneId == key
  }

  /** One zone's contribution to (fully covered, partially covered). */
  function CoverageOf(z: Zone, plan: seq<PlanAssignment>): (int, int) {
    var key := Strategies.ZoneKey(z);
    if key !in ZoneIds(plan) then (0, 0)
    else if SumOf(Filter(plan, ForZoneId(key)), People) >= TotalPeople(z) - z.evacuated then (1, 0)
    else (0, 1)
  }

  /** The coverage counters over the registry's zones. */
  function Coverage(zones: seq<Zone>, plan: seq<PlanAssignment>): (int, int) {
    if zones == [] then (0, 0)
    else
      var head := CoverageOf(zones[0], plan);
      var tail := Coverage(zones[1..], plan);
      (head.0 + tail.0, head.1 + tail.1)
  }

  /** `generatePlanSummary(assignments, allZones, options)`, its integer counters. */
  function SummaryOf(plan: seq<PlanAssignment>, zones: seq<Zone>): PlanSummary {
    var coverage := Coverage(zones, plan);
    PlanSummary(|plan|, SumOf(plan, People), |Filter(plan, IsHigh)|, coverage.0, coverage.1)
  }

  /** Every named zone is counted once, as fully or as partially covered. */
  lemma {:induction false} CoverageCounts(zones: seq<Zone>, plan: seq<PlanAssignment>)
    ensures Coverage(zones, plan).0 >= 0 && Coverage(zones, plan).1 >= 0
    ensures Coverage(zones, plan).0 + Coverage(zones, plan).1 == |Filter(zones, CoveredBy(plan))|
  {
    if zones != [] {
      CoverageCounts(zones[1..], plan);
    }
  }

  /**
   * The summary counts one vehicle per assignment, no more high-priority entries than
   * assignments, and each registry zone a plan names as fully or partially covered.
   */
  lemma SummarySpec(plan: seq<PlanAssignment>, zones: seq<Zone>)
    ensures SummaryOf(plan, zones).totalVehiclesAssigned == |plan|
    ensures 0 <= SummaryOf(plan, zones).highPriorityZones <= SummaryOf(plan, zones).totalVehiclesAssigned
    ensures SummaryOf(plan, zones).zonesFullyCovered >= 0 && SummaryOf(plan, zones).zonesPartiallyCovered >= 0
    ensures SummaryOf(plan, zones).zonesFullyCovered + SummaryOf(plan, zones).zonesPartiallyCovered
         == |Filter(zones, CoveredBy(plan))| <= |zones|
    ensures (forall a :: a in plan ==> People(a) >= 0) ==> SummaryOf(plan, zones).totalPeopleToEvacuate >= 0
  {
    FilterKeeps(plan, IsHigh);
    FilterKeeps(zones, CoveredBy(plan));
    CoverageCounts(zones, plan);
    SumOfSigns(plan, People);
  }

  /** A plan without assignments has an all-zero summary. */
  lemma {:induction false} SummaryOfNothing(zones: seq<Zone>)
    ensures SummaryOf([], zones) == PlanSummary(0, 0, 0, 0, 0)
  {
    FilterNone(zones, CoveredBy([]));
    CoverageCounts(zones, []);
  }

  /** `generatePlanSummary`: the counters, and the loop over the registry's zones. */
  method GeneratePlanSummary(assignments: seq<PlanAssignment>, allZones: seq<Zone>) returns (summary: PlanSummary)
    ensures summary == SummaryOf(assignments, allZones)
  {
    var assignedZoneIds := ZoneIds(assignments);
    var zonesFullyCovered := 0;
    var zonesPartiallyCovered := 0;
    for i := 0 to |allZones|
      invariant zonesFullyCovered + Coverage(allZones[i..], assignments).0 == Coverage(allZones, assignments).0
      invariant zonesPartiallyCovered + Coverage(allZones[i..], assignments).1 == Coverage(allZones, assignments).1
    {
      assert allZones[i..][1..] == allZones[i + 1..];
      var zone := allZones[i];
      var key := Strategies.ZoneKey(zone);
      if key in assignedZoneIds {
        var totalPeople := TotalPeople(zone);
        var remainingPeople := totalPeople - zone.evacuated;
        var assignedCapacity := SumOf(Filter(assignments, ForZoneId(key)), People);
        if assignedCapacity >= remainingPeople {
          zonesFullyCovered := zonesFullyCovered + 1;
        } else {
          zonesPartiallyCovered := zonesPartiallyCovered + 1;
        }
      }
    }
    summary := PlanSummary(
      |assignments|, SumOf(assignments, People), |Filter(assignments, IsHigh)|,
      zonesFullyCovered, zonesPartiallyCovered);
  }

  // ---------------------------------------------------------------------------------------
  // The plan

  /** `createEmptyPlan(options)`. */
  function CreateEmptyPlan(options: PlanOptions): EvacuationPlan {
    EvacuationPlan([], PlanSummary(0, 0, 0, 0, 0), options)
  }

  /** `generateOptimalEvacuationPlan(vehicles, zones, options)`, or what it throws. */
  function OptimalPlan(vehicles: seq<Vehicle>, zones: seq<Zone>, options: PlanOptions, dist: DistanceFn, show: real -> string)
    : Result<EvacuationPlan>
  {
    var needing := Filter(zones, NeedsEvacuation);
    if needing == [] then Ok(CreateEmptyPlan(options))
    else
      match PlanZones(SortZonesByUrgency(needing), vehicles, options, dist, show)
      case Err(e) => Err(e)
      case Ok(r) =>
        var assignments := Flatten(r.0);
        Ok(EvacuationPlan(assignments, SummaryOf(assignments, zones), options))
  }

  /** The blocks so far in front of what the rest of the zone loop yields. */
  function Prepend(blocks: seq<seq<PlanAssignment>>, r: Result<(seq<seq<PlanAssignment>>, seq<Vehicle>)>)
    : Result<(seq<seq<PlanAssignment>>, seq<Vehicle>)>
  {
    match r
    case Err(e) => Err(e)
    case Ok(rest) => Ok((blocks + rest.0, rest.1))
  }

  /** Before the zone loop no block is made and the whole loop is still to come. */
  lemma PlanZonesStart(zs: seq<Zone>, pool: seq<Vehicle>, options: PlanOptions, dist: DistanceFn, show: real -> string)
    ensures Prepend([], PlanZones(zs[0..], pool, options, dist, show)) == PlanZones(zs, pool, options, dist, show)
  {
    assert zs[0..] == zs;
    var r := PlanZones(zs, pool, options, dist, show);
    if r.Ok? {
      assert [] + r.value.0 == r.value.0;
    }
  }

  /** One turn of the zone loop that yields a block, seen from the loop invariant. */
  lemma PlanZonesStep(zs: seq<Zone>, k: nat, pool: seq<Vehicle>, options: PlanOptions, dist: DistanceFn, show: real -> string,
                      blocks: seq<seq<PlanAssignment>>, goal: Result<(seq<seq<PlanAssignment>>, seq<Vehicle>)>,
                      k': nat, block: seq<PlanAssignment>, pool': seq<Vehicle>)
    requires k < |zs| && pool != [] && k' == k + 1
    requires Prepend(blocks, PlanZones(zs[k..], pool, options, dist, show)) == goal
    requires ZoneBlock(zs[k], pool, options, dist, show) == Ok((block, pool'))
    ensures Prepend(blocks + [block], PlanZones(zs[k'..], pool', options, dist, show)) == goal
  {
    assert zs[k..][0] == zs[k] && zs[k..][1..] == zs[k'..];
    var rest := PlanZones(zs[k'..], pool', options, dist, show);
    if rest.Ok? {
      assert blocks + ([block] + rest.value.0) == (blocks + [block]) + rest.value.0;
    }
  }

  /** A turn of the zone loop that throws makes the whole loop throw the same. */
  lemma PlanZonesFails(zs: seq<Zone>, k: nat, pool: seq<Vehicle>, options: PlanOptions, dist: DistanceFn, show: real -> string,
                       blocks: seq<seq<PlanAssignment>>, goal: Result<(seq<seq<PlanAssignment>>, seq<Vehicle>)>)
    requires k < |zs| && pool != []
    requires Prepend(blocks, PlanZones(zs[k..], pool, options, dist, show)) == goal
    requires ZoneBlock(zs[k], pool, options, dist, show).Err?
    ensures goal == Err(ZoneBlock(zs[k], pool, options, dist, show).message)
  {
    assert zs[k..][0] == zs[k];
  }

  /**
   * The invariant of the loop over the selected vehicles: the assignments made so far for
   * the zone, followed by those the rest of the selection yields, are the zone's assignments.
   */
  ghost predicate Pending(fields: ZoneFields, selected: seq<VehicleInfo>, j: nat, left: int, pool: seq<Vehicle>, multi: bool,
                          block: seq<PlanAssignment>, zoneGoal: (seq<PlanAssignment>, seq<Vehicle>))
    requires j <= |selected|
  {
    && block + AssignSelected(fields, selected[j..], left, pool, multi).0 == zoneGoal.0
    && AssignSelected(fields, selected[j..], left, pool, multi).1 == zoneGoal.1
  }

  /** Before the loop nothing is assigned, and the whole selection is pending. */
  lemma PendingStart(fields: ZoneFields, selected: seq<VehicleInfo>, left: int, pool: seq<Vehicle>, multi: bool)
    ensures Pending(fields, selected, 0, left, pool, multi, [], AssignSelected(fields, selected, left, pool, multi))
  {
    assert selected[0..] == selected;
  }

  /** One turn of the loop over the selected vehicles, when several may share a zone. */
  lemma AssignSelectedStep(fields: ZoneFields, selected: seq<VehicleInfo>, j: nat, left: int, pool: seq<Vehicle>, multi: bool,
                           block: seq<PlanAssignment>, zoneGoal: (seq<PlanAssignment>, seq<Vehicle>),
                           left': int, pool': seq<Vehicle>, block': seq<PlanAssignment>)
    requires j < |selected| && left > 0 && multi
    requires Pending(fields, selected, j, left, pool, multi, block, zoneGoal)
    requires left' == left - Min(selected[j].vehicle.capacity, left)
    requires block' == block + [MakeAssignment(fields, selected[j], Min(selected[j].vehicle.capacity, left))]
    requires pool' == RemoveVehicle(pool, KeyOf(selected[j].vehicle))
    ensures Pending(fields, selected, j + 1, left', pool', multi, block', zoneGoal)
  {
    var tail := selected[j..];
    assert tail[0] == selected[j] && tail[1..] == selected[j + 1..];
    var a := MakeAssignment(fields, selected[j], Min(selected[j].vehicle.capacity, left));
    var more := AssignSelected(fields, selected[j + 1..], left', pool', multi);
    AssignSelectedNext(fields, tail, left, pool, multi);
    AppendAssoc(block, [a], more.0);
  }

  /** The first selected vehicle is assigned; the rest follow where several vehicles may share a zone. */
  lemma AssignSelectedNext(fields: ZoneFields, selected: seq<VehicleInfo>, left: int, pool: seq<Vehicle>, multi: bool)
    requires selected != [] && left > 0
    ensures var people := Min(selected[0].vehicle.capacity, left);
      var rest := RemoveVehicle(pool, KeyOf(selected[0].vehicle));
      var more := AssignSelected(fields, selected[1..], left - people, rest, multi);
      AssignSelected(fields, selected, left, pool, multi)
        == if multi then ([MakeAssignment(fields, selected[0], people)] + more.0, more.1)
           else ([MakeAssignment(fields, selected[0], people)], rest)
  {
  }

  /** One turn of the loop over the selected vehicles, when a zone may have one only: the last. */
  lemma AssignSelectedLast(fields: ZoneFields, selected: seq<VehicleInfo>, j: nat, left: int, pool: seq<Vehicle>, multi: bool,
                           block: seq<PlanAssignment>, zoneGoal: (seq<PlanAssignment>, seq<Vehicle>),
                           pool': seq<Vehicle>, block': seq<PlanAssignment>)
    requires j < |selected| && left > 0 && !multi
    requires Pending(fields, selected, j, left, pool, multi, block, zoneGoal)
    requires block' == block + [MakeAssignment(fields, selected[j], Min(selected[j].vehicle.capacity, left))]
    requires pool' == RemoveVehicle(pool, KeyOf(selected[j].vehicle))
    ensures (block', pool') == zoneGoal
  {
    var tail := selected[j..];
    assert tail[0] == selected[j];
  }

  /** The loop over the selected vehicles ends with the zone's assignments and the pool after them. */
  lemma AssignSelectedDone(fields: ZoneFields, selected: seq<VehicleInfo>, j: nat, left: int, pool: seq<Vehicle>, multi: bool,
                           block: seq<PlanAssignment>, zoneGoal: (seq<PlanAssignment>, seq<Vehicle>))
    requires j <= |selected| && (j == |selected| || left <= 0)
    requires Pending(fields, selected, j, left, pool, multi, block, zoneGoal)
    ensures (block, pool) == zoneGoal
  {
    assert block + [] == block;
  }

  /** A zone with nobody left, or without a suitable vehicle, gets no assignment. */
  lemma ZoneBlockSkipped(zone: Zone, pool: seq<Vehicle>, options: PlanOptions, dist: DistanceFn, show: real -> string)
    requires RemainingPeople(zone) <= 0 || SuitableVehicles(pool, zone, options, dist) == Ok([])
    ensures ZoneBlock(zone, pool, options, dist, show) == Ok(([], pool))
  {
  }

  /** A zone with people left and suitable vehicles gets the assignments of its selection. */
  lemma ZoneBlockServed(zone: Zone, pool: seq<Vehicle>, options: PlanOptions, dist: DistanceFn, show: real -> string,
                        suitable: seq<VehicleInfo>, selected: seq<VehicleInfo>)
    requires RemainingPeople(zone) > 0 && SuitableVehicles(pool, zone, options, dist) == Ok(suitable) && suitable != []
    requires selected == Selection(suitable, RemainingPeople(zone), options)
    ensures ZoneBlock(zone, pool, options, dist, show)
         == Ok(AssignSelected(FieldsOf(zone, show), selected, RemainingPeople(zone), pool, options.allowMultiVehicle))
  {
  }

  /** Where finding the suitable vehicles throws, the zone's turn throws the same. */
  lemma ZoneBlockFails(zone: Zone, pool: seq<Vehicle>, options: PlanOptions, dist: DistanceFn, show: real -> string)
    requires RemainingPeople(zone) > 0 && SuitableVehicles(pool, zone, options, dist).Err?
    ensures ZoneBlock(zone, pool, options, dist, show) == Err(SuitableVehicles(pool, zone, options, dist).message)
  {
  }

  /** The zone loop ends when the zones or the pool run out. */
  lemma PlanZonesDone(zs: seq<Zone>, k: nat, pool: seq<Vehicle>, options: PlanOptions, dist: DistanceFn, show: real -> string,
                      blocks: seq<seq<PlanAssignment>>, goal: Result<(seq<seq<PlanAssignment>>, seq<Vehicle>)>)
    requires k <= |zs| && (k == |zs| || pool == [])
    requires Prepend(blocks, PlanZones(zs[k..], pool, options, dist, show)) == goal
    ensures goal == Ok((blocks, pool))
  {
    assert blocks + [] == blocks;
  }

  /** The plan, once the zone loop has produced `goal`. */
  lemma OptimalPlanOf(vehicles: seq<Vehicle>, zones: seq<Zone>, options: PlanOptions, dist: DistanceFn, show: real -> string,
                      goal: Result<(seq<seq<PlanAssignment>>, seq<Vehicle>)>)
    requires Filter(zones, NeedsEvacuation) != []
    requires goal == PlanZones(SortZonesByUrgency(Filter(zones, NeedsEvacuation)), vehicles, options, dist, show)
    ensures goal.Err? ==> OptimalPlan(vehicles, zones, options, dist, show) == Err(goal.message)
    ensures goal.Ok? ==>
      OptimalPlan(vehicles, zones, options, dist, show)
        == Ok(EvacuationPlan(Flatten(goal.value.0), SummaryOf(Flatten(goal.value.0), zones), options))
  {
  }

  /**
   * The loop of `generateOptimalEvacuationPlan` over a zone's selected vehicles: each takes
   * as many of the people left as it holds and leaves the pool; the loop stops when nobody is
   * left, and after the first vehicle unless several may share a zone.
   */
  method AssignVehicles(zone: Zone, selectedVehicles: seq<VehicleInfo>, remainingPeople: int, pool: seq<Vehicle>, multi: bool, show: real -> string)
    returns (block: seq<PlanAssignment>, availableVehicles: seq<Vehicle>)
    ensures (block, availableVehicles) == AssignSelected(FieldsOf(zone, show), selectedVehicles, remainingPeople, pool, multi)
  {
    var fields := FieldsOf(zone, show);
    ghost var zoneGoal := AssignSelected(fields, selectedVehicles, remainingPeople, pool, multi);
    block := [];
    availableVehicles := pool;
    var peopleLeftToEvacuate := remainingPeople;
    PendingStart(fields, selectedVehicles, remainingPeople, pool, multi);
    var j := 0;
    while j < |selectedVehicles|
      invariant 0 <= j <= |selectedVehicles|
      invariant Pending(fields, selectedVehicles, j, peopleLeftToEvacuate, availableVehicles, multi, block, zoneGoal)
    {
      if peopleLeftToEvacuate <= 0 {
        AssignSelectedDone(fields, selectedVehicles, j, peopleLeftToEvacuate, availableVehicles, multi, block, zoneGoal);
        return;
      }
      var vehicleInfo := selectedVehicles[j];
      var peopleToEvacuate := Min(vehicleInfo.vehicle.capacity, peopleLeftToEvacuate);
      var assignment := MakeAssignment(fields, vehicleInfo, peopleToEvacuate);
      ghost var built, left, before := block, peopleLeftToEvacuate, availableVehicles;
      block := block + [assignment];
      peopleLeftToEvacuate := peopleLeftToEvacuate - peopleToEvacuate;
      availableVehicles := SpliceVehicle(availableVehicles, KeyOf(vehicleInfo.vehicle));
      if !multi {
        AssignSelectedLast(fields, selectedVehicles, j, left, before, multi, built, zoneGoal, availableVehicles, block);
        return;
      }
      AssignSelectedStep(fields, selectedVehicles, j, left, before, multi, built, zoneGoal,
                         peopleLeftToEvacuate, availableVehicles, block);
      j := j + 1;
    }
    AssignSelectedDone(fields, selectedVehicles, j, peopleLeftToEvacuate, availableVehicles, multi, block, zoneGoal);
  }

  /** Removing a vehicle from the pool: `findIndex` on the key, then `splice` when it is found. */
  method SpliceVehicle(availableVehicles: seq<Vehicle>, key: Option<string>) returns (pool': seq<Vehicle>)
    ensures pool' == RemoveVehicle(availableVehicles, key)
  {
    pool' := availableVehicles;
    var vehicleIndex := IndexOfKey(availableVehicles, key);
    if vehicleIndex.Some? {
      pool' := availableVehicles[..vehicleIndex.value] + availableVehicles[vehicleIndex.value + 1..];
    }
  }

  /**
   * One turn of the zone loop of `generateOptimalEvacuationPlan`: a zone with nobody left or
   * without a suitable vehicle is skipped; otherwise the selection is assigned and leaves the
   * pool. Finding the suitable vehicles may throw.
   */
  method AssignZone(zone: Zone, availableVehicles: seq<Vehicle>, options: PlanOptions, dist: DistanceFn, show: real -> string)
    returns (r: Result<(seq<PlanAssignment>, seq<Vehicle>)>)
    ensures r == ZoneBlock(zone, availableVehicles, options, dist, show)
  {
    var remainingPeople := RemainingPeople(zone);
    if remainingPeople <= 0 {
      ZoneBlockSkipped(zone, availableVehicles, options, dist, show);
      return Ok(([], availableVehicles));
    }
    var suitableVehicles := FindSuitableVehicles(availableVehicles, zone, options, dist);
    if suitableVehicles.Err? {
      ZoneBlockFails(zone, availableVehicles, options, dist, show);
      return Err(suitableVehicles.message);
    }
    if suitableVehicles.value == [] {
      ZoneBlockSkipped(zone, availableVehicles, options, dist, show);
      return Ok(([], availableVehicles));
    }
    var selectedVehicles := OptimizeVehicleSelection(suitableVehicles.value, remainingPeople, options);
    ZoneBlockServed(zone, availableVehicles, options, dist, show, suitableVehicles.value, selectedVehicles);
    var block, pool' := AssignVehicles(zone, selectedVehicles, remainingPeople, availableVehicles, options.allowMultiVehicle, show);
    r := Ok((block, pool'));
  }

  /** `generateOptimalEvacuationPlan`: the zone loop and the summary. */
  method GenerateOptimalEvacuationPlan(vehicles: seq<Vehicle>, zones: seq<Zone>, options: PlanOptions, dist: DistanceFn, show: real -> string)
    returns (r: Result<EvacuationPlan>)
    ensures r == OptimalPlan(vehicles, zones, options, dist, show)
  {
    var assignments: seq<PlanAssignment> := [];
    var availableVehicles := vehicles;
    var zonesNeedingEvacuation := Filter(zones, NeedsEvacuation);
    if zonesNeedingEvacuation == [] {
      return Ok(CreateEmptyPlan(options));
    }
    var sortedZones := SortZonesByUrgency(zonesNeedingEvacuation);
    ghost var goal := PlanZones(sortedZones, vehicles, options, dist, show);
    OptimalPlanOf(vehicles, zones, options, dist, show, goal);
    ghost var blocks: seq<seq<PlanAssignment>> := [];
    PlanZonesStart(sortedZones, vehicles, options, dist, show);
    var k := 0;
    while k < |sortedZones|
      invariant 0 <= k <= |sortedZones|
      invariant assignments == Flatten(blocks)
      invariant Prepend(blocks, PlanZones(sortedZones[k..], availableVehicles, options, dist, show)) == goal
    {
      if |availableVehicles| == 0 {
        break;
      }
      var turn := AssignZone(sortedZones[k], availableVehicles, options, dist, show);
      if turn.Err? {
        PlanZonesFails(sortedZones, k, availableVehicles, options, dist, show, blocks, goal);
        return Err(turn.message);
      }
      ghost var pool := availableVehicles;
      var block := turn.value.0;
      availableVehicles := turn.value.1;
      PlanZonesStep(sortedZones, k, pool, options, dist, show, blocks, goal, k + 1, block, availableVehicles);
      assignments := assignments + block;
      FlattenAppend(blocks, block);
      blocks := blocks + [block];
      k := k + 1;
    }
    PlanZonesDone(sortedZones, k, availableVehicles, options, dist, show, blocks, goal);
    var summary := GeneratePlanSummary(assignments, zones);
    r := Ok(EvacuationPlan(assignments, summary, options));
  }
}
