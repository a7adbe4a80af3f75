/**
 * What `generateOptimalEvacuationPlan` promises about a whole plan: an empty plan when no
 * zone needs evacuation or no vehicle is available, assignments by ascending priority, each
 * within range and within its vehicle's capacity, no vehicle used twice, no more people moved
 * than are waiting, and success exactly when the coordinates it reads are there.
 */
module PlanProperties {
  import opened Wrappers
  import opened Entities
  import opened Sequences
  import opened EvacuationPlanning
  import Strategies

  /** Every assignment of the blocks is an assignment of one block. */
  lemma {:induction false} FlattenMember(blocks: seq<seq<PlanAssignment>>, a: PlanAssignment)
    requires a in Flatten(blocks)
    ensures exists k :: 0 <= k < |blocks| && a in blocks[k]
  {
    if a !in blocks[0] {
      FlattenMember(blocks[1..], a);
      var k :| 0 <= k < |blocks[1..]| && a in blocks[1..][k];
      assert a in blocks[k + 1];
    }
  }

  /** Blocks of at most one assignment flatten to no more assignments than there are blocks. */
  lemma {:induction false} FlattenSingles(blocks: seq<seq<PlanAssignment>>)
    requires forall k :: 0 <= k < |blocks| ==> |blocks[k]| <= 1
    ensures |Flatten(blocks)| <= |blocks|
  {
    if blocks != [] {
      FlattenSingles(blocks[1..]);
    }
  }

  /** The zones the planner visits: those needing evacuation, by ascending priority. */
  function Visited(zones: seq<Zone>): seq<Zone> {
    SortZonesByUrgency(Filter(zones, NeedsEvacuation))
  }

  /** A visited zone is one of the registry's zones, and needs evacuation. */
  lemma VisitedNeed(zones: seq<Zone>)
    ensures forall z :: z in Visited(zones) ==> z in zones && NeedsEvacuation(z)
  {
    var needing := Filter(zones, NeedsEvacuation);
    FilterKeeps(zones, NeedsEvacuation);
    SortZonesByUrgencySpec(needing);
    forall z | z in Visited(zones) ensures z in needing {
      assert z in multiset(Visited(zones));
    }
  }

  /** When no zone needs evacuation the plan is the empty plan, whatever the vehicles. */
  lemma OptimalPlanNothingToDo(vehicles: seq<Vehicle>, zones: seq<Zone>, options: PlanOptions, dist: DistanceFn, show: real -> string)
    requires forall z :: z in zones ==> !NeedsEvacuation(z)
    ensures OptimalPlan(vehicles, zones, options, dist, show) == Ok(CreateEmptyPlan(options))
  {
    FilterNone(zones, NeedsEvacuation);
  }

  /** Without vehicles the plan has no assignment and an all-zero summary. */
  lemma OptimalPlanNoVehicles(zones: seq<Zone>, options: PlanOptions, dist: DistanceFn, show: real -> string)
    ensures OptimalPlan([], zones, options, dist, show).Ok?
    ensures OptimalPlan([], zones, options, dist, show).value.assignments == []
    ensures OptimalPlan([], zones, options, dist, show).value.summary == PlanSummary(0, 0, 0, 0, 0)
  {
    SummaryOfNothing(zones);
  }

  /** The assignments come by ascending priority: the most urgent zones are served first. */
  lemma OptimalPlanOrdered(vehicles: seq<Vehicle>, zones: seq<Zone>, options: PlanOptions, dist: DistanceFn, show: real -> string)
    requires OptimalPlan(vehicles, zones, options, dist, show).Ok?
    ensures var plan := OptimalPlan(vehicles, zones, options, dist, show).value.assignments;
      forall i, j :: 0 <= i < j < |plan| ==> plan[i].priority <= plan[j].priority
  {
    var needing := Filter(zones, NeedsEvacuation);
    if needing != [] {
      SortZonesByUrgencySpec(needing);
      PlanZonesOrdered(Visited(zones), vehicles, options, dist, show);
    }
  }

  /**
   * Every assignment serves a zone of the registry that needs evacuation, reports that zone's
   * key and priority, uses a vehicle within range with a positive speed, and moves no more
   * than the vehicle holds (and at least one person when it holds one). When a zone may have
   * one vehicle only, no more vehicles are assigned than zones need evacuation.
   */
  lemma OptimalPlanFits(vehicles: seq<Vehicle>, zones: seq<Zone>, options: PlanOptions, dist: DistanceFn, show: real -> string)
    requires OptimalPlan(vehicles, zones, options, dist, show).Ok?
    ensures var plan := OptimalPlan(vehicles, zones, options, dist, show).value.assignments;
      forall a :: a in plan ==>
        && (exists z :: z in zones && NeedsEvacuation(z) && a.zoneId == Strategies.ZoneKey(z) && a.priority == UrgencyPriority(z))
        && a.distanceKm <= options.maxDistanceKm && a.speedKmh > 0.0
        && a.peopleToEvacuate <= a.vehicleCapacity
        && (a.vehicleCapacity >= 1 ==> a.peopleToEvacuate >= 1)
    ensures !options.allowMultiVehicle ==>
      |OptimalPlan(vehicles, zones, options, dist, show).value.assignments| <= |Filter(zones, NeedsEvacuation)|
  {
    var needing := Filter(zones, NeedsEvacuation);
    if needing != [] {
      var zs := Visited(zones);
      PlanZonesFit(zs, vehicles, options, dist, show);
      VisitedNeed(zones);
      var blocks := PlanZones(zs, vehicles, options, dist, show).value.0;
      forall a | a in Flatten(blocks)
        ensures exists z :: z in zones && NeedsEvacuation(z) && a.zoneId == Strategies.ZoneKey(z) && a.priority == UrgencyPriority(z)
        ensures a.distanceKm <= options.maxDistanceKm && a.speedKmh > 0.0
        ensures a.peopleToEvacuate <= a.vehicleCapacity && (a.vehicleCapacity >= 1 ==> a.peopleToEvacuate >= 1)
      {
        FlattenMember(blocks, a);
        var k :| 0 <= k < |blocks| && a in blocks[k];
        assert BlockFits(zs[k], blocks[k], options);
        assert zs[k] in zs;
      }
      if !options.allowMultiVehicle {
        FlattenSingles(blocks);
      }
    }
  }

  /** The plan moves no more people than the zones needing evacuation still hold. */
  lemma OptimalPlanPeople(vehicles: seq<Vehicle>, zones: seq<Zone>, options: PlanOptions, dist: DistanceFn, show: real -> string)
    requires OptimalPlan(vehicles, zones, options, dist, show).Ok?
    ensures var plan := OptimalPlan(vehicles, zones, options, dist, show).value;
      plan.summary.totalPeopleToEvacuate == SumOf(plan.assignments, People)
        <= SumOf(Filter(zones, NeedsEvacuation), RemainingPeople)
  {
    var needing := Filter(zones, NeedsEvacuation);
    if needing != [] {
      PlanZonesPeople(Visited(zones), vehicles, options, dist, show);
      StableSortSum(needing, MorePressing, RemainingPeople);
    }
  }

  /**
   * With vehicles that carry distinct, non-empty keys, no vehicle is assigned twice, every
   * assignment names one of the vehicles, and no more vehicles are assigned than there are.
   */
  lemma OptimalPlanVehiclesOnce(vehicles: seq<Vehicle>, zones: seq<Zone>, options: PlanOptions, dist: DistanceFn, show: real -> string)
    requires DistinctBy(vehicles, KeyOf) && forall v :: v in vehicles ==> Identified(v)
    requires OptimalPlan(vehicles, zones, options, dist, show).Ok?
    ensures var plan := OptimalPlan(vehicles, zones, options, dist, show).value;
      && IdsDistinct(plan.assignments)
      && plan.summary.totalVehiclesAssigned == |plan.assignments| <= |vehicles|
      && forall a :: a in plan.assignments ==> exists v :: v in vehicles && KeyOf(v) == Some(a.vehicleId)
  {
    var needing := Filter(zones, NeedsEvacuation);
    if needing != [] {
      var zs := Visited(zones);
      PlanZonesPool(zs, vehicles, options, dist, show);
      var plan := Flatten(PlanZones(zs, vehicles, options, dist, show).value.0);
      forall a | a in plan ensures exists v :: v in vehicles && KeyOf(v) == Some(a.vehicleId) {
        var i :| 0 <= i < |plan| && plan[i] == a;
        assert Some(a.vehicleId) in Keys(vehicles);
      }
    }
  }

  /**
   * Planning succeeds when every zone needing evacuation and every vehicle has coordinates
   * and every vehicle's effective speed is positive.
   */
  lemma OptimalPlanSucceeds(vehicles: seq<Vehicle>, zones: seq<Zone>, options: PlanOptions, dist: DistanceFn, show: real -> string)
    requires forall z :: z in zones && NeedsEvacuation(z) ==> z.locationCoordinates.Some?
    requires forall v :: v in vehicles ==> Ready(v, options)
    ensures OptimalPlan(vehicles, zones, options, dist, show).Ok?
  {
    if Filter(zones, NeedsEvacuation) != [] {
      VisitedNeed(zones);
      PlanZonesSucceeds(Visited(zones), vehicles, options, dist, show);
    }
  }

  /**
   * Planning throws the missing-coordinates error when some zone needs evacuation and the
   * first vehicle has no coordinates: the first zone's search reads them before anything else.
   */
  lemma OptimalPlanMissingCoordinates(vehicles: seq<Vehicle>, zones: seq<Zone>, options: PlanOptions, dist: DistanceFn, show: real -> string)
    requires exists z :: z in zones && NeedsEvacuation(z)
    requires vehicles != [] && vehicles[0].locationCoordinates.None?
    ensures OptimalPlan(vehicles, zones, options, dist, show) == Err(MissingCoordinates)
  {
    var z :| z in zones && NeedsEvacuation(z);
    FilterKeeps(zones, NeedsEvacuation);
    assert z in Filter(zones, NeedsEvacuation);
    var zs := Visited(zones);
    SortZonesByUrgencySpec(Filter(zones, NeedsEvacuation));
    VisitedNeed(zones);
    assert zs[0] in zs;
    var first := vehicles[..1];
    assert |first| == 1 && first[..0] == [] && first[0] == vehicles[0];
    assert Collect(first[..0], zs[0], options, dist) == Ok([]);
    assert Measure(vehicles[0], zs[0], options, dist) == Err(MissingCoordinates);
    assert Collect(first, zs[0], options, dist) == Err(MissingCoordinates);
    CollectFails(vehicles, 1, zs[0], options, dist);
    assert SuitableVehicles(vehicles, zs[0], options, dist) == Err(MissingCoordinates);
    assert RemainingPeople(zs[0]) > 0;
    ZoneBlockFails(zs[0], vehicles, options, dist, show);
    var goal := PlanZones(zs, vehicles, options, dist, show);
    PlanZonesStart(zs, vehicles, options, dist, show);
    PlanZonesFails(zs, 0, vehicles, options, dist, show, [], goal);
    OptimalPlanOf(vehicles, zones, options, dist, show, goal);
  }
}
