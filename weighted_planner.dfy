/**
 * The weighted strategy (`calculateWeightedScore`, `chooseBestVehicleWeighted`,
 * `generateWeightedPlan`).
 *
 * A zone-vehicle pair scores four terms, lower is better: urgency (weight 10000), how badly
 * the vehicle's capacity fits the people left (1000), distance up to 100 km (100) and ETA up
 * to 300 minutes (10). The plan visits the zones most urgent first and gives each zone at most
 * one vehicle: the best-scoring one, ties going to the pair that moves more people, then to
 * the earlier vehicle.
 *
 * `WeightedTrips` is the plan as a function of the inputs; the methods follow the source's
 * loops and are proved to compute it. The properties are lemmas about `WeightedTrips`.
 */
module WeightedPlanner {
  import opened Wrappers
  import opened TravelTime
  import opened Entities
  import opened Sequences
  import opened Selection
  import opened Strategies

  const UrgencyWeight: real := 10000.0
  const CapacityWeight: real := 1000.0
  const DistanceWeight: real := 100.0
  const EtaWeight: real := 10.0
  /** Distances are normalised against 100 km and ETAs against 300 minutes (five hours). */
  const DistanceCapKm: real := 100.0
  const EtaCapMinutes: real := 300.0

  /** `Math.min(Math.max(zone.urgencyLevel || 1, 1), 5)`. */
  function ScoreUrgency(z: Zone): (level: int)
    ensures 1 <= level <= 5
    ensures z.urgencyLevel.Some? && 1 <= z.urgencyLevel.value <= 5 ==> level == z.urgencyLevel.value
    ensures z.urgencyLevel.None? ==> level == 1
  {
    Min(Max(NumberOr(z.urgencyLevel, 1), 1), 5)
  }

  function UrgencyTerm(z: Zone): real {
    UrgencyWeight * (6 - ScoreUrgency(z)) as real
  }

  function CapacityTerm(remaining: int, capacity: int): real
    requires capacity != 0
  {
    CapacityWeight * (1.0 - (Min(remaining, capacity) as real) / (capacity as real))
  }

  function DistanceTerm(distanceKm: real): real {
    DistanceWeight * (MinReal(distanceKm, DistanceCapKm) / DistanceCapKm)
  }

  function EtaTerm(eta: Minutes): real {
    EtaWeight * (AtMost(eta, EtaCapMinutes) / EtaCapMinutes)
  }

  /** Both the zone and the vehicle have coordinates. */
  predicate Located(z: Zone, v: Vehicle) {
    z.locationCoordinates.Some? && v.locationCoordinates.Some?
  }

  function Distance(z: Zone, v: Vehicle, dist: DistanceFn): real
    requires Located(z, v)
  {
    dist(z.locationCoordinates.value, v.locationCoordinates.value)
  }

  /**
   * `calculateWeightedScore(zone, vehicle)`: `Infinity` when either side has no coordinates,
   * otherwise the sum of the four terms. A capacity of zero would divide by zero (JavaScript's
   * `NaN`); every caller skips such vehicles, and so does the precondition.
   */
  function CalculateWeightedScore(z: Zone, v: Vehicle, dist: DistanceFn): (score: Minutes)
    requires Located(z, v) ==> v.capacity != 0
    ensures score.Infinity? <==> !Located(z, v)
  {
    if !Located(z, v) then Infinity
    else
      Finite(UrgencyTerm(z) + CapacityTerm(Unserved(z), v.capacity)
             + DistanceTerm(Distance(z, v, dist)) + EtaTerm(TravelMinutes(z, v, dist)))
  }

  // ---------------------------------------------------------------------------------------
  // Properties of the score

  /** The urgency term is 10000 times `6 - level`, so it lies between 10000 and 50000. */
  lemma UrgencyTermRange(z: Zone)
    ensures UrgencyTerm(z) == 10000.0 * (6 - ScoreUrgency(z)) as real
    ensures 10000.0 <= UrgencyTerm(z) <= 50000.0
    ensures (z.urgencyLevel.None? || z.urgencyLevel.value == 0) ==> UrgencyTerm(z) == 50000.0
  {
  }

  lemma RatioInUnit(m: real, c: real)
    requires 0.0 <= m <= c && c > 0.0
    ensures 0.0 <= m / c <= 1.0
  {
    assert m / c * c == m;
  }

  /**
   * With a positive capacity, no negative number of people left and no negative distance,
   * the capacity term is within [0, 1000], the distance term within [0, 100] and the ETA term
   * within [0, 10], even for an infinite ETA.
   */
  lemma WeightedTermBounds(z: Zone, v: Vehicle, dist: DistanceFn)
    requires Located(z, v) && v.capacity > 0 && Unserved(z) >= 0 && Distance(z, v, dist) >= 0.0
    ensures 0.0 <= CapacityTerm(Unserved(z), v.capacity) <= 1000.0
    ensures 0.0 <= DistanceTerm(Distance(z, v, dist)) <= 100.0
    ensures 0.0 <= EtaTerm(TravelMinutes(z, v, dist)) <= 10.0
    ensures UrgencyTerm(z) <= CalculateWeightedScore(z, v, dist).value <= UrgencyTerm(z) + 1110.0
  {
    RatioInUnit(Min(Unserved(z), v.capacity) as real, v.capacity as real);
    RatioInUnit(MinReal(Distance(z, v, dist), DistanceCapKm), DistanceCapKm);
    var eta := TravelMinutes(z, v, dist);
    var s := SpeedOr(v.speed, DefaultSpeedKmh);
    if s > 0.0 {
      EstimateMonotone(Distance(z, v, dist), Distance(z, v, dist), s);
    }
    RatioInUnit(AtMost(eta, EtaCapMinutes), EtaCapMinutes);
  }

  /**
   * Urgency comes first: a pair whose zone is strictly more urgent scores strictly lower than
   * any pair whose zone is less urgent, whatever the vehicles and distances.
   */
  lemma UrgencyDominates(z1: Zone, v1: Vehicle, z2: Zone, v2: Vehicle, dist: DistanceFn)
    requires Located(z1, v1) && v1.capacity > 0 && Unserved(z1) >= 0 && Distance(z1, v1, dist) >= 0.0
    requires Located(z2, v2) && v2.capacity > 0 && Unserved(z2) >= 0 && Distance(z2, v2, dist) >= 0.0
    requires ScoreUrgency(z1) > ScoreUrgency(z2)
    ensures CalculateWeightedScore(z1, v1, dist).value < CalculateWeightedScore(z2, v2, dist).value
  {
    WeightedTermBounds(z1, v1, dist);
    WeightedTermBounds(z2, v2, dist);
  }

  /** The capacity term vanishes exactly when the zone can fill the vehicle. */
  lemma CapacityTermZeroIff(remaining: int, capacity: int)
    requires capacity > 0
    ensures CapacityTerm(remaining, capacity) == 0.0 <==> remaining >= capacity
  {
    if remaining < capacity {
      assert (remaining as real) / (capacity as real) * (capacity as real) == remaining as real;
    }
  }

  /**
   * For the same zone, two vehicles at the same place with the same effective speed: one the
   * zone can fill beats one with room to spare.
   */
  lemma FittingVehicleBeatsOversized(z: Zone, v1: Vehicle, v2: Vehicle, dist: DistanceFn)
    requires Located(z, v1) && Located(z, v2)
    requires v1.locationCoordinates == v2.locationCoordinates
    requires SpeedOr(v1.speed, DefaultSpeedKmh) == SpeedOr(v2.speed, DefaultSpeedKmh)
    requires 0 < v1.capacity <= Unserved(z) < v2.capacity
    ensures CalculateWeightedScore(z, v1, dist).value < CalculateWeightedScore(z, v2, dist).value
  {
    CapacityTermZeroIff(Unserved(z), v1.capacity);
    CapacityTermZeroIff(Unserved(z), v2.capacity);
    var r := Unserved(z) as real;
    var c := v2.capacity as real;
    assert r / c * c == r;
    assert r / c < 1.0;
  }

  // ---------------------------------------------------------------------------------------
  // chooseBestVehicleWeighted

  /** The score the scan compares; a vehicle it skips gets `Infinity`, which never wins. */
  function ScanScore(z: Zone, v: Vehicle, dist: DistanceFn): (score: Minutes)
    ensures score.Finite? <==> v.capacity > 0 && Unserved(z) > 0 && Located(z, v)
  {
    if v.capacity <= 0 || Unserved(z) <= 0 then Infinity else CalculateWeightedScore(z, v, dist)
  }

  function ScanScores(z: Zone, vs: seq<Vehicle>, dist: DistanceFn): (scores: seq<Minutes>)
    ensures |scores| == |vs|
    ensures forall j :: 0 <= j < |vs| ==> scores[j] == ScanScore(z, vs[j], dist)
  {
    seq(|vs|, j requires 0 <= j < |vs| => ScanScore(z, vs[j], dist))
  }

  /** The vehicle `chooseBestVehicleWeighted` returns, as its position in `vs`. */
  function BestVehicleWeighted(z: Zone, vs: seq<Vehicle>, dist: DistanceFn): (best: Option<nat>)
    ensures best.Some? ==> best.value < |vs|
  {
    FirstMin(ScanScores(z, vs, dist))
  }

  /**
   * The chosen vehicle has capacity and coordinates, scores no worse than any vehicle and
   * strictly better than every earlier one; nothing is chosen exactly when the zone has no one
   * left or no coordinates, or no vehicle has both capacity and coordinates.
   */
  lemma BestVehicleWeightedSpec(z: Zone, vs: seq<Vehicle>, dist: DistanceFn)
    ensures BestVehicleWeighted(z, vs, dist).Some? ==>
      && IsFirstMin(ScanScores(z, vs, dist), BestVehicleWeighted(z, vs, dist).value)
      && vs[BestVehicleWeighted(z, vs, dist).value].capacity > 0
      && Located(z, vs[BestVehicleWeighted(z, vs, dist).value])
    ensures BestVehicleWeighted(z, vs, dist).None? <==>
      Unserved(z) <= 0 || z.locationCoordinates.None? ||
      forall j :: 0 <= j < |vs| ==> vs[j].capacity <= 0 || vs[j].locationCoordinates.None?
  {
    var scores := ScanScores(z, vs, dist);
    FirstMinSpec(scores);
    if FirstMin(scores).Some? {
      assert scores[FirstMin(scores).value].Finite?;
    }
    if Unserved(z) > 0 && z.locationCoordinates.Some? && exists j :: 0 <= j < |vs| && vs[j].capacity > 0 && vs[j].locationCoordinates.Some? {
      var j :| 0 <= j < |vs| && vs[j].capacity > 0 && vs[j].locationCoordinates.Some?;
      assert scores[j].Finite?;
    }
  }

  /** `chooseBestVehicleWeighted(zone, vehicles)`: the scan, returning the position of the vehicle. */
  method ChooseBestVehicleWeighted(zone: Zone, vehicles: seq<Vehicle>, dist: DistanceFn) returns (best: Option<nat>)
    ensures best == BestVehicleWeighted(zone, vehicles, dist)
  {
    ghost var scores := ScanScores(zone, vehicles, dist);
    best := None;
    var bestScore := Infinity;
    var remainingPeople := NumberOr(zone.numberOfPeople, 0) - zone.evacuated;
    var i := 0;
    while i < |vehicles|
      invariant 0 <= i <= |vehicles|
      invariant (best, bestScore) == ScanMin(scores[..i])
    {
      assert scores[..i + 1][..i] == scores[..i];
      var vehicle := vehicles[i];
      if !(vehicle.capacity <= 0 || remainingPeople <= 0) {
        var score := CalculateWeightedScore(zone, vehicle, dist);
        if Below(score, bestScore) {
          bestScore := score;
          best := Some(i);
        }
      }
      i := i + 1;
    }
    assert scores[..|vehicles|] == scores;
  }

  // ---------------------------------------------------------------------------------------
  // The best pair of generateWeightedPlan

  /** The record `bestAssignment` of `generateWeightedPlan`, the vehicle given by its position. */
  datatype Candidate = Candidate(vehicle: nat, score: real, evacuated: int, etaMinutes: Minutes)

  /** Vehicle `j` as a candidate for zone `z`, unless the inner loop skips it. */
  function Candidacy(z: Zone, vs: seq<Vehicle>, j: nat, dist: DistanceFn): (c: Option<Candidate>)
    requires j < |vs|
    ensures c.Some? <==> Located(z, vs[j]) && vs[j].capacity > 0
    ensures c.Some? ==> c.value.vehicle == j && c.value.evacuated == Min(vs[j].capacity, Unserved(z))
    ensures c.Some? ==> c.value.etaMinutes == TravelMinutes(z, vs[j], dist)
    ensures c.Some? ==> Finite(c.value.score) == CalculateWeightedScore(z, vs[j], dist)
  {
    var v := vs[j];
    if !Located(z, v) || v.capacity <= 0 then None
    else Some(Candidate(j, CalculateWeightedScore(z, v, dist).value, Min(v.capacity, Unserved(z)), TravelMinutes(z, v, dist)))
  }

  /** `c` is strictly preferred to `d`: a lower score, or the same score and more people moved. */
  predicate Preferred(c: Candidate, d: Candidate) {
    c.score < d.score || (c.score == d.score && c.evacuated > d.evacuated)
  }

  /** The test that replaces `bestAssignment`. */
  predicate Replaces(c: Candidate, best: Option<Candidate>) {
    best.None? || Preferred(c, best.value)
  }

  /** `bestAssignment` after the inner loop has seen the first `n` vehicles. */
  function BestAssignment(z: Zone, vs: seq<Vehicle>, n: nat, dist: DistanceFn): (best: Option<Candidate>)
    requires n <= |vs|
    ensures best.Some? ==> best.value.vehicle < n && Candidacy(z, vs, best.value.vehicle, dist) == best
  {
    if n == 0 then None
    else
      var prev := BestAssignment(z, vs, n - 1, dist);
      var c := Candidacy(z, vs, n - 1, dist);
      if c.Some? && Replaces(c.value, prev) then c else prev
  }

  /**
   * The inner loop settles on the first candidate no other candidate is preferred to, and on
   * nothing exactly when no vehicle is a candidate.
   */
  lemma {:induction false} BestAssignmentSpec(z: Zone, vs: seq<Vehicle>, n: nat, dist: DistanceFn)
    requires n <= |vs|
    ensures BestAssignment(z, vs, n, dist).None? <==> forall j :: 0 <= j < n ==> Candidacy(z, vs, j, dist).None?
    ensures BestAssignment(z, vs, n, dist).Some? ==>
      forall j :: 0 <= j < n && Candidacy(z, vs, j, dist).Some? ==>
        !Preferred(Candidacy(z, vs, j, dist).value, BestAssignment(z, vs, n, dist).value)
    ensures BestAssignment(z, vs, n, dist).Some? ==>
      forall j :: 0 <= j < BestAssignment(z, vs, n, dist).value.vehicle && Candidacy(z, vs, j, dist).Some? ==>
        Preferred(BestAssignment(z, vs, n, dist).value, Candidacy(z, vs, j, dist).value)
  {
    if n > 0 {
      BestAssignmentSpec(z, vs, n - 1, dist);
    }
  }

  /** The inner `for (const vehicle of vehiclesWorkingCopy)` loop of `generateWeightedPlan`. */
  method FindBestAssignment(zone: Zone, remainingPeople: int, vehicles: seq<Vehicle>, dist: DistanceFn)
    returns (bestAssignment: Option<Candidate>)
    requires remainingPeople == Unserved(zone)
    ensures bestAssignment == BestAssignment(zone, vehicles, |vehicles|, dist)
  {
    bestAssignment := None;
    var i := 0;
    while i < |vehicles|
      invariant 0 <= i <= |vehicles|
      invariant bestAssignment == BestAssignment(zone, vehicles, i, dist)
    {
      var vehicle := vehicles[i];
      if !(vehicle.locationCoordinates.None? || zone.locationCoordinates.None? || vehicle.capacity <= 0) {
        var canEvacuate := Min(vehicle.capacity, remainingPeople);
        var etaMinutes := EstimateTravelTime(
          dist(zone.locationCoordinates.value, vehicle.locationCoordinates.value),
          SpeedOr(vehicle.speed, DefaultSpeedKmh));
        var score := CalculateWeightedScore(zone, vehicle, dist).value;
        if bestAssignment.None? || score < bestAssignment.value.score
           || (score == bestAssignment.value.score && canEvacuate > bestAssignment.value.evacuated) {
          bestAssignment := Some(Candidate(i, score, canEvacuate, etaMinutes));
        }
      }
      i := i + 1;
    }
  }

  // ---------------------------------------------------------------------------------------
  // generateWeightedPlan

  /** The `for (const zone of zonesWorkingCopy)` loop from position `k` on: the vehicles afterwards and the trips. */
  function ServeWeighted(zs: seq<Zone>, k: nat, vs: seq<Vehicle>, dist: DistanceFn): (seq<Vehicle>, seq<Trip>)
    requires k <= |zs|
    decreases |zs| - k
  {
    if k == |zs| then (vs, [])
    else if Unserved(zs[k]) <= 0 then ServeWeighted(zs, k + 1, vs, dist)
    else
      match BestAssignment(zs[k], vs, |vs|, dist) {
        case None => ServeWeighted(zs, k + 1, vs, dist)
        case Some(c) =>
          var vs1 := vs[c.vehicle := vs[c.vehicle].(capacity := vs[c.vehicle].capacity - c.evacuated)];
          var rest := ServeWeighted(zs, k + 1, vs1, dist);
          (rest.0, [Trip(k, c.vehicle, c.etaMinutes, c.evacuated)] + rest.1)
      }
  }

  /** The trips of `generateWeightedPlan(zones, vehicles)`, zones given by their position in the sorted copy. */
  function WeightedTrips(zones: seq<Zone>, vehicles: seq<Vehicle>, dist: DistanceFn): seq<Trip> {
    ServeWeighted(SortByUrgency(zones), 0, vehicles, dist).1
  }

  /** The vehicle working copies once `generateWeightedPlan(zones, vehicles)` is done. */
  function WeightedFleet(zones: seq<Zone>, vehicles: seq<Vehicle>, dist: DistanceFn): seq<Vehicle> {
    ServeWeighted(SortByUrgency(zones), 0, vehicles, dist).0
  }

  /** One turn of the outer loop: the zone is skipped. */
  lemma ServeWeightedSkip(zs: seq<Zone>, k: nat, vs: seq<Vehicle>, dist: DistanceFn)
    requires k < |zs|
    requires Unserved(zs[k]) <= 0 || BestAssignment(zs[k], vs, |vs|, dist).None?
    ensures ServeWeighted(zs, k, vs, dist) == ServeWeighted(zs, k + 1, vs, dist)
  {
  }

  /** The loop invariant of `GenerateWeightedPlan` about the trips survives skipping zone `k`. */
  lemma WeightedSkipStep(zs: seq<Zone>, k: nat, vs: seq<Vehicle>, dist: DistanceFn, trips: seq<Trip>, goal: seq<Trip>)
    requires k < |zs|
    requires Unserved(zs[k]) <= 0 || BestAssignment(zs[k], vs, |vs|, dist).None?
    requires trips + ServeWeighted(zs, k, vs, dist).1 == goal
    ensures trips + ServeWeighted(zs, k + 1, vs, dist).1 == goal
  {
    ServeWeightedSkip(zs, k, vs, dist);
  }

  /** One turn of the outer loop: the zone is given the best pair `c`. */
  lemma ServeWeightedTake(zs: seq<Zone>, k: nat, vs: seq<Vehicle>, dist: DistanceFn, c: Candidate)
    requires k < |zs| && Unserved(zs[k]) > 0 && BestAssignment(zs[k], vs, |vs|, dist) == Some(c)
    ensures ServeWeighted(zs, k, vs, dist).0
         == ServeWeighted(zs, k + 1, vs[c.vehicle := vs[c.vehicle].(capacity := vs[c.vehicle].capacity - c.evacuated)], dist).0
    ensures ServeWeighted(zs, k, vs, dist).1
         == [Trip(k, c.vehicle, c.etaMinutes, c.evacuated)]
            + ServeWeighted(zs, k + 1, vs[c.vehicle := vs[c.vehicle].(capacity := vs[c.vehicle].capacity - c.evacuated)], dist).1
  {
  }

  /** The loop invariant of `GenerateWeightedPlan` about the trips survives giving zone `k` the pair `c`. */
  lemma WeightedTakeStep(zs: seq<Zone>, k: nat, vs: seq<Vehicle>, dist: DistanceFn, c: Candidate, trips: seq<Trip>, goal: seq<Trip>,
                         vs': seq<Vehicle>, trips': seq<Trip>)
    requires k < |zs| && Unserved(zs[k]) > 0 && BestAssignment(zs[k], vs, |vs|, dist) == Some(c)
    requires trips + ServeWeighted(zs, k, vs, dist).1 == goal
    requires c.vehicle < |vs| && vs' == vs[c.vehicle := vs[c.vehicle].(capacity := vs[c.vehicle].capacity - c.evacuated)]
    requires trips' == trips + [Trip(k, c.vehicle, c.etaMinutes, c.evacuated)]
    ensures trips' + ServeWeighted(zs, k + 1, vs', dist).1 == goal
  {
    ServeWeightedTake(zs, k, vs, dist, c);
    AppendAssoc(trips, [Trip(k, c.vehicle, c.etaMinutes, c.evacuated)], ServeWeighted(zs, k + 1, vs', dist).1);
  }

  /** `generateWeightedPlan(zones, vehicles)`. */
  method GenerateWeightedPlan(zones: seq<Zone>, vehicles: seq<Vehicle>, dist: DistanceFn) returns (plan: seq<Assignment>)
    ensures Renders(plan, SortByUrgency(zones), vehicles, WeightedTrips(zones, vehicles, dist))
  {
    plan := [];
    // The working copies are values; the sort is the stable sort of the zones.
    var zonesWorkingCopy := SortByUrgency(zones);
    var vehiclesWorkingCopy := vehicles;
    ghost var zs := zonesWorkingCopy;
    ghost var trips: seq<Trip> := [];
    ghost var goal := WeightedTrips(zones, vehicles, dist);
    for k := 0 to |zonesWorkingCopy|
      invariant |zonesWorkingCopy| == |zs|
      invariant forall m :: k <= m < |zs| ==> zonesWorkingCopy[m] == zs[m]
      invariant SameFleet(vehiclesWorkingCopy, vehicles)
      invariant trips + ServeWeighted(zs, k, vehiclesWorkingCopy, dist).1 == goal
      invariant Renders(plan, zs, vehicles, trips)
    {
      var zone := zonesWorkingCopy[k];
      var remainingPeople := NumberOr(zone.numberOfPeople, 0) - zone.evacuated;
      if remainingPeople > 0 {
        var bestAssignment := FindBestAssignment(zone, remainingPeople, vehiclesWorkingCopy, dist);
        if bestAssignment.Some? {
          var c := bestAssignment.value;
          ghost var trip := Trip(k, c.vehicle, c.etaMinutes, c.evacuated);
          ghost var fleet, done := vehiclesWorkingCopy, trips;
          var vehicle := vehiclesWorkingCopy[c.vehicle];
          var record := Assignment(StringOr(zone.zoneId, zone.id), StringOr(vehicle.vehicleId, vehicle.id), c.etaMinutes, c.evacuated);
          RendersAppend(plan, zs, vehicles, trips, vehiclesWorkingCopy, trip, record);
          plan := plan + [record];
          zonesWorkingCopy := zonesWorkingCopy[k := zone.(evacuated := zone.evacuated + c.evacuated)];
          vehiclesWorkingCopy := vehiclesWorkingCopy[c.vehicle := vehicle.(capacity := vehicle.capacity - c.evacuated)];
          trips := trips + [trip];
          WeightedTakeStep(zs, k, fleet, dist, c, done, goal, vehiclesWorkingCopy, trips);
        } else {
          WeightedSkipStep(zs, k, vehiclesWorkingCopy, dist, trips, goal);
        }
      } else {
        WeightedSkipStep(zs, k, vehiclesWorkingCopy, dist, trips, goal);
      }
    }
    assert trips + [] == trips;
  }

  // ---------------------------------------------------------------------------------------
  // Properties of the weighted plan

  /**
   * Each trip serves a located zone from position `k` on with a located vehicle, at that
   * vehicle's ETA, and moves at least one person and no more than the zone's open demand.
   */
  ghost predicate WeightedShaped(zs: seq<Zone>, k: nat, vs: seq<Vehicle>, dist: DistanceFn, trips: seq<Trip>) {
    forall t :: t in trips ==>
      && k <= t.zone < |zs| && t.vehicle < |vs|
      && 1 <= t.count <= OpenDemand(zs[t.zone])
      && Located(zs[t.zone], vs[t.vehicle])
      && t.eta == TravelMinutes(zs[t.zone], vs[t.vehicle], dist)
  }

  /** Zones strictly increase along the trips, so no zone receives two. */
  ghost predicate OnePerZone(trips: seq<Trip>) {
    forall i, j :: 0 <= i < j < |trips| ==> trips[i].zone < trips[j].zone
  }

  /** A trip takes everyone its zone had left, or its vehicle ends the plan with no room. */
  ghost predicate FillsZoneOrVehicle(zs: seq<Zone>, after: seq<Vehicle>, trips: seq<Trip>) {
    forall t :: t in trips && t.zone < |zs| && t.vehicle < |after| ==>
      t.count == OpenDemand(zs[t.zone]) || after[t.vehicle].capacity == 0
  }

  /** Everything that holds of the trips made for the zones from position `k` on. */
  ghost predicate WeightedFromOk(zs: seq<Zone>, k: nat, vs: seq<Vehicle>, dist: DistanceFn, after: seq<Vehicle>, trips: seq<Trip>)
    requires k <= |zs|
  {
    && SameFleet(after, vs)
    && CapacityAccounted(vs, after, trips)
    && SeatsConserved(vs, after, trips)
    && WeightedShaped(zs, k, vs, dist, trips)
    && OnePerZone(trips)
    && FillsZoneOrVehicle(zs, after, trips)
  }

  lemma {:induction false} ServeWeightedOk(zs: seq<Zone>, k: nat, vs: seq<Vehicle>, dist: DistanceFn)
    requires k <= |zs|
    ensures WeightedFromOk(zs, k, vs, dist, ServeWeighted(zs, k, vs, dist).0, ServeWeighted(zs, k, vs, dist).1)
    decreases |zs| - k
  {
    if k == |zs| {
      CapacityAccountedNone(vs);
    } else if Unserved(zs[k]) <= 0 || BestAssignment(zs[k], vs, |vs|, dist).None? {
      ServeWeightedSkip(zs, k, vs, dist);
      ServeWeightedOk(zs, k + 1, vs, dist);
    } else {
      var c := BestAssignment(zs[k], vs, |vs|, dist).value;
      var vs1 := vs[c.vehicle := vs[c.vehicle].(capacity := vs[c.vehicle].capacity - c.evacuated)];
      ServeWeightedTake(zs, k, vs, dist, c);
      ServeWeightedOk(zs, k + 1, vs1, dist);
      var rest := ServeWeighted(zs, k + 1, vs1, dist);
      WeightedFromOkCompose(zs, k, vs, dist, c, vs1, rest.0, rest.1);
    }
  }

  /** The trip of zone `k` followed by those of the later zones. */
  lemma WeightedFromOkCompose(zs: seq<Zone>, k: nat, vs: seq<Vehicle>, dist: DistanceFn, c: Candidate,
                              vs1: seq<Vehicle>, after: seq<Vehicle>, rest: seq<Trip>)
    requires k < |zs| && Unserved(zs[k]) > 0 && BestAssignment(zs[k], vs, |vs|, dist) == Some(c)
    requires vs1 == vs[c.vehicle := vs[c.vehicle].(capacity := vs[c.vehicle].capacity - c.evacuated)]
    requires WeightedFromOk(zs, k + 1, vs1, dist, after, rest)
    ensures WeightedFromOk(zs, k, vs, dist, after, [Trip(k, c.vehicle, c.etaMinutes, c.evacuated)] + rest)
  {
    var t := Trip(k, c.vehicle, c.etaMinutes, c.evacuated);
    StepAccounted(vs, t, vs1, after, rest);
    WeightedShapedStep(zs, k, vs, dist, t, vs1, rest);
    OnePerZoneStep(k, t, rest);
    FillsStep(zs, k, vs, t, vs1, after, rest);
  }

  lemma WeightedShapedStep(zs: seq<Zone>, k: nat, vs: seq<Vehicle>, dist: DistanceFn, t: Trip, vs1: seq<Vehicle>, rest: seq<Trip>)
    requires k < |zs| && t.zone == k && t.vehicle < |vs| && 1 <= t.count <= OpenDemand(zs[k])
    requires Located(zs[k], vs[t.vehicle]) && t.eta == TravelMinutes(zs[k], vs[t.vehicle], dist)
    requires vs1 == vs[t.vehicle := vs[t.vehicle].(capacity := vs[t.vehicle].capacity - t.count)]
    requires WeightedShaped(zs, k + 1, vs1, dist, rest)
    ensures WeightedShaped(zs, k, vs, dist, [t] + rest)
  {
    assert SameFleet(vs1, vs);
    forall u | u in rest ensures TravelMinutes(zs[u.zone], vs1[u.vehicle], dist) == TravelMinutes(zs[u.zone], vs[u.vehicle], dist) {
      SameFleetTravel(vs1, vs, zs[u.zone], dist);
    }
  }

  lemma OnePerZoneStep(k: nat, t: Trip, rest: seq<Trip>)
    requires t.zone == k && (forall u :: u in rest ==> k < u.zone) && OnePerZone(rest)
    ensures OnePerZone([t] + rest)
  {
    var all := [t] + rest;
    forall i, j | 0 <= i < j < |all| ensures all[i].zone < all[j].zone {
      assert all[j] == rest[j - 1] && rest[j - 1] in rest;
      if i > 0 {
        assert all[i] == rest[i - 1];
      }
    }
  }

  lemma FillsStep(zs: seq<Zone>, k: nat, vs: seq<Vehicle>, t: Trip, vs1: seq<Vehicle>, after: seq<Vehicle>, rest: seq<Trip>)
    requires k < |zs| && Unserved(zs[k]) > 0 && t.zone == k && t.vehicle < |vs| && vs[t.vehicle].capacity > 0
    requires t.count == Min(vs[t.vehicle].capacity, Unserved(zs[k]))
    requires vs1 == vs[t.vehicle := vs[t.vehicle].(capacity := vs[t.vehicle].capacity - t.count)]
    requires CapacityAccounted(vs1, after, rest) && (forall u :: u in rest ==> u.count >= 1)
    requires FillsZoneOrVehicle(zs, after, rest)
    ensures FillsZoneOrVehicle(zs, after, [t] + rest)
  {
    if t.count != OpenDemand(zs[k]) {
      TripsUseCapacity(vs1, after, rest);
      ForVehicleOfOthers(rest, t.vehicle);
    }
  }

  // ---------------------------------------------------------------------------------------
  // The weighted plan as a whole

  lemma WeightedTripsOk(zones: seq<Zone>, vehicles: seq<Vehicle>, dist: DistanceFn)
    ensures |SortByUrgency(zones)| == |zones|
    ensures WeightedFromOk(SortByUrgency(zones), 0, vehicles, dist, WeightedFleet(zones, vehicles, dist), WeightedTrips(zones, vehicles, dist))
  {
    ServeWeightedOk(SortByUrgency(zones), 0, vehicles, dist);
  }

  /** No zone appears in two records of the weighted plan. */
  lemma WeightedOnePerZone(zones: seq<Zone>, vehicles: seq<Vehicle>, dist: DistanceFn)
    ensures forall i, j ::
      (0 <= i < |WeightedTrips(zones, vehicles, dist)| && 0 <= j < |WeightedTrips(zones, vehicles, dist)|
       && WeightedTrips(zones, vehicles, dist)[i].zone == WeightedTrips(zones, vehicles, dist)[j].zone) ==> i == j
  {
    WeightedTripsOk(zones, vehicles, dist);
    assert OnePerZone(WeightedTrips(zones, vehicles, dist));
  }

  /**
   * Every record names a zone and a vehicle that both have coordinates, carries that
   * vehicle's ETA (`Infinity` for a negative speed), and moves at least one person and no more
   * than the zone still had to evacuate; a zone without coordinates gets no record.
   */
  lemma WeightedTripsWellFormed(zones: seq<Zone>, vehicles: seq<Vehicle>, dist: DistanceFn)
    ensures forall t :: t in WeightedTrips(zones, vehicles, dist) ==>
      && t.zone < |zones| && t.vehicle < |vehicles|
      && 1 <= t.count <= OpenDemand(SortByUrgency(zones)[t.zone])
      && Located(SortByUrgency(zones)[t.zone], vehicles[t.vehicle])
      && t.eta == TravelMinutes(SortByUrgency(zones)[t.zone], vehicles[t.vehicle], dist)
  {
    WeightedTripsOk(zones, vehicles, dist);
    assert WeightedShaped(SortByUrgency(zones), 0, vehicles, dist, WeightedTrips(zones, vehicles, dist));
  }

  /**
   * Each record takes `min(capacity, remaining)`: everyone its zone had left, or else its
   * vehicle has no room left when the plan is done.
   */
  lemma WeightedFillsZoneOrVehicle(zones: seq<Zone>, vehicles: seq<Vehicle>, dist: DistanceFn)
    ensures |SortByUrgency(zones)| == |zones| && |WeightedFleet(zones, vehicles, dist)| == |vehicles|
    ensures forall t :: t in WeightedTrips(zones, vehicles, dist) && t.zone < |zones| && t.vehicle < |vehicles| ==>
      t.count == OpenDemand(SortByUrgency(zones)[t.zone]) || WeightedFleet(zones, vehicles, dist)[t.vehicle].capacity == 0
  {
    WeightedTripsOk(zones, vehicles, dist);
    assert FillsZoneOrVehicle(SortByUrgency(zones), WeightedFleet(zones, vehicles, dist), WeightedTrips(zones, vehicles, dist));
  }

  /** Records follow the sorted zones, so urgency never increases along the plan. */
  lemma WeightedServesByUrgency(zones: seq<Zone>, vehicles: seq<Vehicle>, dist: DistanceFn)
    ensures |SortByUrgency(zones)| == |zones|
    ensures forall i, j :: 0 <= i < j < |WeightedTrips(zones, vehicles, dist)| ==>
      && WeightedTrips(zones, vehicles, dist)[i].zone < WeightedTrips(zones, vehicles, dist)[j].zone < |zones|
      && SortUrgency(SortByUrgency(zones)[WeightedTrips(zones, vehicles, dist)[i].zone])
         >= SortUrgency(SortByUrgency(zones)[WeightedTrips(zones, vehicles, dist)[j].zone])
  {
    var trips := WeightedTrips(zones, vehicles, dist);
    var zs := SortByUrgency(zones);
    WeightedTripsOk(zones, vehicles, dist);
    SortByUrgencySpec(zones);
    assert OnePerZone(trips) && WeightedShaped(zs, 0, vehicles, dist, trips);
    forall i, j | 0 <= i < j < |trips|
      ensures trips[i].zone < trips[j].zone < |zs|
      ensures SortUrgency(zs[trips[i].zone]) >= SortUrgency(zs[trips[j].zone])
    {
      assert trips[j] in trips;
    }
  }

  /**
   * Each working copy ends with its capacity minus what it carried, never below zero once it
   * carried anyone; so no vehicle carries more than its original capacity, and a vehicle
   * without positive capacity carries no one.
   */
  lemma WeightedVehicleBound(zones: seq<Zone>, vehicles: seq<Vehicle>, dist: DistanceFn)
    ensures CapacityAccounted(vehicles, WeightedFleet(zones, vehicles, dist), WeightedTrips(zones, vehicles, dist))
    ensures forall j :: 0 <= j < |vehicles| ==>
      0 <= Total(ForVehicle(WeightedTrips(zones, vehicles, dist), j)) <= SpareCapacity(vehicles[j])
    ensures forall j :: 0 <= j < |vehicles| && vehicles[j].capacity <= 0 ==>
      ForVehicle(WeightedTrips(zones, vehicles, dist), j) == []
  {
    var trips := WeightedTrips(zones, vehicles, dist);
    WeightedTripsOk(zones, vehicles, dist);
    assert forall t :: t in trips ==> t.count >= 1;
    forall j | 0 <= j < |vehicles|
      ensures 0 <= Total(ForVehicle(trips, j)) <= SpareCapacity(vehicles[j])
      ensures vehicles[j].capacity <= 0 ==> ForVehicle(trips, j) == []
    {
      CapacityAccountedBound(vehicles, WeightedFleet(zones, vehicles, dist), trips, j);
    }
  }

  /** With no zones, or only vehicles without positive capacity, the plan is empty. */
  lemma WeightedEmptyPlan(zones: seq<Zone>, vehicles: seq<Vehicle>, dist: DistanceFn)
    requires zones == [] || forall j :: 0 <= j < |vehicles| ==> vehicles[j].capacity <= 0
    ensures WeightedTrips(zones, vehicles, dist) == []
  {
    var trips := WeightedTrips(zones, vehicles, dist);
    WeightedTripsOk(zones, vehicles, dist);
    assert forall t :: t in trips ==> t.count >= 1;
    TotalOfPositive(trips);
    SumOfSigns(WeightedFleet(zones, vehicles, dist), SpareCapacity);
    if zones != [] {
      assert forall v :: v in vehicles ==> SpareCapacity(v) == 0;
      SumOfSigns(vehicles, SpareCapacity);
    }
  }
}
