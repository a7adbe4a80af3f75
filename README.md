# Evacuation planning: a verified model of the vehicle-to-zone assignment engine

EvacuationPlanning is a NestJS service that keeps a registry of evacuation zones (how many
people are in each, how urgent it is, where it lies) and a registry of vehicles (capacity,
speed, position). It pairs the two into evacuation plans. This project models, in Dafny, the
parts of it that decide who is moved by which vehicle, and proves what those parts promise.

The modelled parts:

- **Greedy strategy** (`generateGreedyPlan`, `chooseBestVehicleGreedy`). It serves zones most
  urgent first. For each zone it keeps loading the vehicle with the lowest score
  `eta + max(0, capacity - remaining)`. The repository holds two copies of this code,
  `greedy-planner.ts` and `greedyPlanner.ts`; one model covers both (module `GreedyPlanner`).
- **Weighted strategy** (`generateWeightedPlan`, `chooseBestVehicleWeighted`,
  `calculateWeightedScore`). It gives each zone at most one vehicle: the best pair under a
  four-term score of urgency, capacity fit, distance and ETA (module `WeightedPlanner`).
- **Travel time** (`estimateTravelTime` in its three copies, and `calculateTravelTime`). ETAs
  are values on the extended reals, because JavaScript's `Infinity` takes part in comparisons
  (module `TravelTime`).
- **Option-driven planner** (`generateOptimalEvacuationPlan` and its helpers). It keeps the
  vehicles within `maxDistanceKm`, optionally ranks them by capacity, takes the shortest
  covering prefix, removes used vehicles from the pool, and summarises the plan in integer
  counters (modules `EvacuationPlanning` and `PlanProperties`).
- **Zone registry**, current revision (`src/modules/evacution/evacuation.service.ts`). It
  validates zones at intake and registers them. It plans with a capacity-sorted, single-pass
  fill that uses a shared vehicle index which only moves forward. It records progress, clamped
  at the head count, and offers a status view and a clear (module `ZoneRegistry`).
- **Zone registry**, legacy revision (`src/evacuation.service.ts`). It handles the legacy zone
  format only (module `LegacyRegistry`).
- **Vehicle registry** (`VehicleService`): an append-only list with lookup by id (module
  `VehicleRegistry`).

Shared pieces:

- `Strategies` holds what both strategies share: the zone sort and the bookkeeping of trips
  against the vehicles' working copies.
- `CapacityFill` holds the fill both registries plan with, and the zone order and needs it
  starts from.
- `Sequences` holds the stable sort (`Array.prototype.sort` is stable since ES2019) and the
  filter.
- `Selection` holds the "best so far, strictly below `Infinity`" scan.
- `ZoneHelpers` and `Entities` hold the records and JavaScript's `||` fallbacks
  (`v.speed || 50`, `numberOfPeople || people || 0`, `zoneId || id`).

How the model is built:

- Each planner has a specification function that computes the plan from its inputs:
  `GreedyTrips`, `WeightedTrips`, `OptimalPlan`, and `PlanOf` in each registry.
- Each method follows the source's loops and is proved to compute its specification function.
- The properties the source promises are lemmas about those functions.
- The registries are classes whose zone or vehicle list is a `seq` field that the methods
  reassign.
- The distance function (`dist`) is a parameter, since the haversine formula is left out.
- So are the id the random generator would produce (`freshId`) and JavaScript's
  number-to-string conversion (`show`).
- The accessors `getAllVehicles`, `getEvacuationZones` and `getEvacuationStatus` are modelled
  as the reading functions `VehicleRegistry.VehicleService.GetAllVehicles`,
  `*.EvacuationService.GetEvacuationZones` and `*.EvacuationService.GetEvacuationStatus`. What
  the status view reports is stated by `Statuses` and `StatusesOfRecorded`.

## Model

| member | source | states |
|---|---|---|
| TravelTime.EstimateTravelTime | src/common/utils/estimate-travel-time.ts:2-5 | the result is `Infinity` exactly when the speed is 0 or negative; otherwise minutes × speed = 60 × distance |
| TravelTime.CalculateTravelTime | src/utils/distance.utils.ts:51-56 | throws exactly when the speed is not positive; otherwise hours × speed = distance |
| TravelTime.Plus | src/common/strategies/greedy-planner.ts:67 | `eta + k` is `Infinity` exactly when `eta` is; otherwise it is `eta` shifted by `k` |
| TravelTime.AtMost | src/common/strategies/weighted-planer.ts:83 | `Math.min(eta, cap)` never exceeds `cap`; it is `eta` when that is finite and at most `cap`, and `cap` otherwise (including `Infinity`) |
| TravelTime.SixtyKilometresAtSixty | src/common/strategies/weighted-planner.spec.ts:79-83 | 60 km at 60 km/h take exactly 60 minutes |
| TravelTime.EstimateMonotone | src/common/utils/estimate-travel-time.ts:4 | at a fixed positive speed, travel time is non-negative and never shrinks as the distance grows |
| TravelTime.EstimateAgreesWithCalculate | src/utils/distance.utils.ts:51-56 | `calculateTravelTime` succeeds exactly when `estimateTravelTime` is finite, and then gives one sixtieth of it; where one throws, the other answers `Infinity` |
| Entities.NumberOr | src/common/strategies/greedy-planner.ts:61 | `n \|\| fallback`: a present non-zero number is kept; an absent one or 0 gives the fallback |
| Entities.SpeedOr | src/common/strategies/greedy-planner.ts:65 | `v.speed \|\| 50`: a present non-zero speed is kept; an absent speed or 0 gives the fallback |
| Entities.StringOr | src/common/strategies/greedy-planner.ts:112 | `s \|\| fallback`: a non-empty string is kept; an absent or empty one gives the fallback |
| Entities.Min | src/common/strategies/greedy-planner.ts:109 | `Math.min` is one of its arguments and at most both |
| Entities.MinReal | src/common/strategies/weighted-planer.ts:79 | `Math.min` on finite numbers is one of its arguments and at most both |
| Entities.Max | src/common/strategies/greedy-planner.ts:66 | `Math.max` is one of its arguments and at least both |
| Entities.ToLower | src/utils/evacuation-planning.utils.ts:266 | lower-casing keeps the length and maps each character on its own |
| Entities.ToLowerIdempotent | src/utils/evacuation-planning.utils.ts:298 | lower-casing an already lower-cased word changes nothing |
| ZoneHelpers.ZoneLocation | src/utils/evacuation-planning.utils.ts:312-318 | a non-empty legacy location wins; with neither a location nor coordinates the result is "Unknown location" |
| ZoneHelpers.UrgencyCategory | src/utils/evacuation-planning.utils.ts:292-299 | a numeric level decides the category (≥ 4 high, 3 medium, else low); otherwise the lower-cased legacy word; never empty |
| ZoneHelpers.WordPriority | src/modules/evacution/evacuation.service.ts:192-195 | the registry's word priority is 1 exactly for "high", 2 exactly for "medium", and 3 for any other word |
| Selection.ScanMin | src/common/strategies/greedy-planner.ts:46-76 | a chosen index is in range and its score is finite and is the best score; choosing nothing leaves the best score at `Infinity` |
| Selection.FirstMinSpec | src/common/strategies/greedy-planner.ts:46-76 | the scan picks the first finite score that no other score beats (every earlier score strictly worse); it picks nothing exactly when every score is `Infinity` |
| Sequences.StableSortPermutes | src/common/strategies/greedy-planner.ts:91-93 | sorting only rearranges: same multiset, same length |
| Sequences.StableSortSorted | src/common/strategies/greedy-planner.ts:91-93 | for a strict weak order, no element is placed after one it must precede |
| Sequences.StableSortStable | src/common/strategies/greedy-planner.ts:91-93 | elements tied under the comparator keep their input order (`Array.prototype.sort` is stable) |
| Sequences.FilterKeeps | src/utils/evacuation-planning.utils.ts:87-90 | `filter` keeps exactly the elements passing the test, and never more of them than the input holds |
| Strategies.SortByUrgency | src/common/strategies/greedy-planner.ts:91-93 | the sorted working copy has as many zones as the input |
| Strategies.MoreUrgentIsStrictWeakOrder | src/common/strategies/greedy-planner.ts:92 | the comparator `(b.urgencyLevel \|\| 0) - (a.urgencyLevel \|\| 0)` is a strict weak order |
| Strategies.SortByUrgencySpec | src/common/strategies/greedy-planner.ts:91-93 | the working copy holds the same zones, by non-increasing `urgencyLevel \|\| 0`, ties in input order |
| Strategies.RendersAppend | src/common/strategies/greedy-planner.ts:111-124 | pushing the record `{zoneId \|\| id, vehicleId \|\| id, eta, evacuated}` of one more trip keeps `plan` the rendering of the trips |
| Strategies.CapacityAccountedBound | src/common/strategies/greedy-planner.ts:127-129 | when each vehicle's working capacity dropped by exactly what it carried, no vehicle carried more than its original positive capacity, and one without positive capacity carried no one |
| Strategies.TripsUseCapacity | src/common/strategies/greedy-planner.ts:64 | every trip was made by a vehicle with positive capacity to begin with |
| Strategies.OneTripAccounted | src/common/strategies/greedy-planner.ts:129 | `vehicle.capacity -= assigned` is accounted for by the single trip |
| Strategies.StepAccounted | src/common/strategies/greedy-planner.ts:126-129 | one load followed by the rest of the plan keeps the fleet, the capacity accounts and the seat conservation |
| Strategies.SameFleetSet | src/common/strategies/greedy-planner.ts:129 | updating one working copy's capacity keeps the same vehicles |
| Strategies.SameFleetTravel | src/common/strategies/greedy-planner.ts:88 | working copies keep every vehicle's coordinates and speed, hence its travel time to any zone |
| Strategies.TotalOfPositive | src/common/strategies/greedy-planner.ts:109 | trips that each move at least one person move at least as many people as there are trips |
| GreedyPlanner.GreedyScore | src/common/strategies/greedy-planner.ts:61-67 | the score is finite exactly for a vehicle with coordinates, spare capacity, a positive effective speed and a zone with people left; it is then ETA + `max(0, capacity - remaining)` |
| GreedyPlanner.GreedyScores | src/common/strategies/greedy-planner.ts:49-73 | the scan's scores: one per vehicle, each that vehicle's greedy score |
| GreedyPlanner.BestVehicleGreedy | src/common/strategies/greedy-planner.ts:42-77 | a chosen vehicle is in range, eligible, and has a positive effective speed |
| GreedyPlanner.BestVehicleGreedySpec | src/common/strategies/greedy-planner.ts:42-77 | the choice is the first vehicle of minimal finite score; nothing is chosen exactly when no vehicle is eligible with a positive effective speed |
| GreedyPlanner.ChooseBestVehicleGreedy | src/common/strategies/greedy-planner.ts:42-77 | the loop with `bestScore`/`bestVehicle` returns the vehicle `BestVehicleGreedy` specifies (likewise for the copy at greedyPlanner.ts:46-81) |
| GreedyPlanner.Load | src/common/strategies/greedy-planner.ts:109-129 | one turn of the loop moves `min(capacity, remaining)` people at the vehicle's ETA, raises the zone's `evacuated` by that many and lowers only that vehicle's capacity by that many |
| GreedyPlanner.GenerateGreedyPlan | src/common/strategies/greedy-planner.ts:80-134 | the returned plan is the record-by-record rendering of `GreedyTrips` over the sorted zones and the caller's vehicles, which it leaves unchanged (likewise for the copy at greedyPlanner.ts:84-132) |
| GreedyPlanner.EvacuateZone | src/common/strategies/greedy-planner.ts:96-130 | the `while` loop of one zone computes `ServeZone`, changes only capacities, and pushes the records of its trips |
| GreedyPlanner.LoadVehicle | src/common/strategies/greedy-planner.ts:109-129 | the loop body moves between 1 and `min(capacity, peopleToEvacuate)` people, lowers `peopleToEvacuate` by that many, and pushes the trip's record |
| GreedyPlanner.EvacuateZoneStep | src/common/strategies/greedy-planner.ts:99-130 | loading the chosen vehicle keeps "trips so far + trips still to come = the zone's trips" |
| GreedyPlanner.ZoneRecordsAppend | src/common/strategies/greedy-planner.ts:111-124 | pushing one more record keeps `records` the records of the zone's trips |
| GreedyPlanner.ServeZoneStop | src/common/strategies/greedy-planner.ts:99-107 | the loop makes no trip once the zone is empty or no vehicle is chosen |
| GreedyPlanner.ServeZoneAdvance | src/common/strategies/greedy-planner.ts:109-129 | with people left and a vehicle chosen, the zone's trips are that load followed by the rest of the loop |
| GreedyPlanner.ServeAllStep | src/common/strategies/greedy-planner.ts:95-131 | the plan's trips are zone `k`'s trips followed by the later zones' trips, planned with the vehicles zone `k` left |
| GreedyPlanner.NoChoiceLeavesNoSpare | src/common/strategies/greedy-planner.ts:64-73 | for a located zone with people left and a ready fleet, choosing nothing means every vehicle has no spare capacity |
| GreedyPlanner.ServeZoneOk | src/common/strategies/greedy-planner.ts:99-130 | one zone's trips are well formed, each moves at least one person, together no more than were left, accounted against the vehicles; the loop stops with the zone served or no spare seat |
| GreedyPlanner.GreedyTripsOk | src/common/strategies/greedy-planner.ts:80-134 | the whole plan is well formed, in zone order, within each zone's demand, accounted against the vehicles, and moves the most people the seats allow |
| GreedyPlanner.GreedyTripsOrdered | src/common/strategies/greedy-planner.ts:95-131 | the records' zone positions never decrease along the plan and stay within the zones |
| GreedyPlanner.GreedyTripsWellFormed | src/common/strategies/greedy-planner.ts:109-124 | every record pairs a located zone with a located vehicle, carries that pair's finite ETA, and moves at least one person |
| GreedyPlanner.GreedyNeverUsesNegativeSpeed | src/common/strategies/greedy-planner.ts:65-69 | a vehicle with a negative speed has an `Infinity` ETA and never takes part in the plan |
| GreedyPlanner.GreedyServesByUrgency | src/common/strategies/greedy-planner.ts:91-95 | all records of a zone come before those of later zones, so `urgencyLevel \|\| 0` never increases along the plan |
| GreedyPlanner.GreedyZoneBound | src/common/strategies/greedy-planner.ts:96-129 | no zone receives more people than `numberOfPeople - evacuated` at the start |
| GreedyPlanner.GreedyVehicleBound | src/common/strategies/greedy-planner.ts:109-129 | each working copy ends at its capacity minus what it carried; no vehicle carries more than its original capacity; one without positive capacity carries no one |
| GreedyPlanner.GreedyEvacuatesMaximum | src/common/strategies/greedy-planner.ts:99-107 | with every zone and vehicle located and no negative speed, the plan moves min(total unserved, total spare capacity) people: everyone if the fleet suffices, else the whole fleet |
| GreedyPlanner.GreedyEmptyPlan | src/common/strategies/greedy-planner.spec.ts:277-326 | with no zones, no vehicles, or only vehicles without positive capacity, the plan is empty |
| WeightedPlanner.ScoreUrgency | src/common/strategies/weighted-planer.ts:48-71 | the level scored is between 1 and 5: the zone's level when it is already in range, and 1 when there is none |
| WeightedPlanner.CalculateWeightedScore | src/common/strategies/weighted-planer.ts:39-90 | the score is `Infinity` exactly when the zone or the vehicle has no coordinates |
| WeightedPlanner.UrgencyTermRange | src/common/strategies/weighted-planer.ts:71-72 | the urgency term is 10000 × (6 - clamped level): between 10000 and 50000, and 50000 for a missing or zero level |
| WeightedPlanner.WeightedTermBounds | src/common/strategies/weighted-planer.ts:75-87 | with positive capacity, no negative remainder and no negative distance: capacity term in [0, 1000], distance term in [0, 100], ETA term in [0, 10] even for an infinite ETA, so the score lies within 1110 above the urgency term |
| WeightedPlanner.UrgencyDominates | src/common/strategies/weighted-planer.ts:62-87 | a pair whose zone is strictly more urgent scores strictly lower than any pair whose zone is less urgent |
| WeightedPlanner.CapacityTermZeroIff | src/common/strategies/weighted-planer.ts:75-76 | the capacity term is 0 exactly when the remaining people fill the vehicle |
| WeightedPlanner.FittingVehicleBeatsOversized | src/common/strategies/weighted-planner.spec.ts:108-117 | at the same place and effective speed, a vehicle the zone fills scores strictly lower than one with room to spare |
| WeightedPlanner.ScanScore | src/common/strategies/weighted-planer.ts:104-109 | a vehicle's scan score is finite exactly when it has capacity, the zone has people left, and both are located |
| WeightedPlanner.ScanScores | src/common/strategies/weighted-planer.ts:102-116 | the scan's scores: one per vehicle, each that vehicle's scan score |
| WeightedPlanner.BestVehicleWeighted | src/common/strategies/weighted-planer.ts:93-119 | a chosen vehicle is a position in the list |
| WeightedPlanner.BestVehicleWeightedSpec | src/common/strategies/weighted-planer.ts:93-119 | the choice is the first vehicle of minimal score, with capacity and coordinates; nothing is chosen exactly when nobody is left, the zone is unlocated, or no vehicle has capacity and coordinates |
| WeightedPlanner.ChooseBestVehicleWeighted | src/common/strategies/weighted-planer.ts:93-119 | the loop returns the vehicle `BestVehicleWeighted` specifies |
| WeightedPlanner.Candidacy | src/common/strategies/weighted-planer.ts:150-168 | a vehicle is a candidate exactly when it and the zone are located and it has capacity; the candidate moves `min(capacity, remaining)` at its ETA with its weighted score |
| WeightedPlanner.BestAssignment | src/common/strategies/weighted-planer.ts:150-181 | the best assignment after `n` vehicles is the candidacy of one of them |
| WeightedPlanner.BestAssignmentSpec | src/common/strategies/weighted-planer.ts:171-180 | no candidate is preferred to the best (lower score, or equal score and more people), and it is strictly preferred to every earlier candidate; there is none exactly when no vehicle is a candidate |
| WeightedPlanner.FindBestAssignment | src/common/strategies/weighted-planer.ts:150-181 | the inner loop computes `bestAssignment` as `BestAssignment` specifies |
| WeightedPlanner.ServeWeightedSkip | src/common/strategies/weighted-planer.ts:138-140 | a zone with nobody left, or without a best assignment, adds no record and changes no vehicle |
| WeightedPlanner.ServeWeightedTake | src/common/strategies/weighted-planer.ts:184-195 | a zone with a best assignment adds its one record and lowers that vehicle's capacity by the people moved |
| WeightedPlanner.WeightedSkipStep | src/common/strategies/weighted-planer.ts:137-140 | skipping a zone keeps "trips so far + trips still to come = the plan's trips" |
| WeightedPlanner.WeightedTakeStep | src/common/strategies/weighted-planer.ts:184-195 | taking the best pair keeps "trips so far + trips still to come = the plan's trips" |
| WeightedPlanner.GenerateWeightedPlan | src/common/strategies/weighted-planer.ts:122-199 | the returned plan is the record-by-record rendering of `WeightedTrips` over the sorted zones and the caller's vehicles, which it leaves unchanged |
| WeightedPlanner.ServeWeightedOk | src/common/strategies/weighted-planer.ts:137-196 | from any zone on, the trips are well formed, one per zone at most, accounted against the vehicles, each filling its zone or emptying its vehicle |
| WeightedPlanner.WeightedTripsOk | src/common/strategies/weighted-planer.ts:122-199 | the same for the whole plan |
| WeightedPlanner.WeightedOnePerZone | src/common/strategies/weighted-planer.ts:137-196 | no zone appears in two records |
| WeightedPlanner.WeightedTripsWellFormed | src/common/strategies/weighted-planer.ts:150-190 | each record pairs located zone and vehicle at that pair's ETA and moves between 1 and the zone's unserved people; unlocated zones get nothing |
| WeightedPlanner.WeightedFillsZoneOrVehicle | src/common/strategies/weighted-planer.ts:156 | each record moves everyone its zone had left, or its vehicle ends the plan with no room |
| WeightedPlanner.WeightedServesByUrgency | src/common/strategies/weighted-planer.ts:133-137 | zone positions strictly increase along the plan, so `urgencyLevel \|\| 0` never increases |
| WeightedPlanner.WeightedVehicleBound | src/common/strategies/weighted-planer.ts:193-194 | each working copy ends at its capacity minus what it carried; no vehicle carries more than its original capacity; one without positive capacity carries no one |
| WeightedPlanner.WeightedEmptyPlan | src/common/strategies/weighted-planer.ts:137-196 | with no zones, or only vehicles without positive capacity, the plan is empty (no vehicles is the special case of the test at weighted-planner.spec.ts:226-230) |
| EvacuationPlanning.UrgencyLevel | src/utils/evacuation-planning.utils.ts:274-287 | a numeric level is returned as is; otherwise the level is 5, 3 or 1 |
| EvacuationPlanning.UrgencyPriority | src/utils/evacuation-planning.utils.ts:256-269 | without a numeric level the priority is 1, 3 or 5 |
| EvacuationPlanning.PriorityMirrorsLevel | src/utils/evacuation-planning.utils.ts:256-287 | on every zone, priority = 6 - level |
| EvacuationPlanning.CategoryAgreesWithLevel | src/utils/evacuation-planning.utils.ts:274-299 | the category is "high" exactly when the level is at least 4; for a numeric level or a known word in any case it is the category of the level |
| EvacuationPlanning.RemainingPeople | src/utils/evacuation-planning.utils.ts:304-307 | remaining people are never negative; they are positive exactly for zones needing evacuation, and then remaining + evacuated = total |
| EvacuationPlanning.SortZonesByUrgency | src/utils/evacuation-planning.utils.ts:243-251 | the sort keeps the number of zones |
| EvacuationPlanning.SortZonesByUrgencySpec | src/utils/evacuation-planning.utils.ts:243-251 | the same zones, by ascending priority, ties in input order |
| EvacuationPlanning.Measure | src/utils/evacuation-planning.utils.ts:184-201 | one vehicle's turn throws exactly when a coordinate pair is missing, or the vehicle is in range with no positive effective speed; out of range gives nothing; in range gives its distance, its speed and hours × speed = distance |
| EvacuationPlanning.CollectSpec | src/utils/evacuation-planning.utils.ts:184-202 | collecting throws exactly when some turn throws; otherwise it holds exactly the records of the vehicles in range |
| EvacuationPlanning.SuitableVehiclesSpec | src/utils/evacuation-planning.utils.ts:177-206 | `findSuitableVehicles` throws exactly when some turn throws; otherwise its result is sorted nearest first and holds exactly the in-range records |
| EvacuationPlanning.FindSuitableVehicles | src/utils/evacuation-planning.utils.ts:177-206 | the loop and the sort compute `SuitableVehicles` |
| EvacuationPlanning.CollectFails | src/utils/evacuation-planning.utils.ts:184-202 | once a prefix throws, the whole collection throws the same error |
| EvacuationPlanning.Ordered | src/utils/evacuation-planning.utils.ts:216-222 | the optional capacity re-sort keeps the number of candidates |
| EvacuationPlanning.SelectCount | src/utils/evacuation-planning.utils.ts:227-235 | the scan takes no more candidates than there are |
| EvacuationPlanning.SelectCountSpec | src/utils/evacuation-planning.utils.ts:224-237 | nothing is taken exactly when there are no candidates or no need; one at most without multi-vehicle zones; otherwise the shortest prefix whose capacities cover the need, or everything |
| EvacuationPlanning.SelectionFromCandidates | src/utils/evacuation-planning.utils.ts:227-235 | selected vehicles are candidates, and distinct keys stay distinct |
| EvacuationPlanning.OptimizeVehicleSelection | src/utils/evacuation-planning.utils.ts:211-238 | the sort and the loop compute `Selection` |
| EvacuationPlanning.IndexOfKey | src/utils/evacuation-planning.utils.ts:152-154 | a found index is in range and its vehicle has the key |
| EvacuationPlanning.IndexOfKeySpec | src/utils/evacuation-planning.utils.ts:152-154 | `findIndex` finds the first vehicle with the key, and nothing only when no vehicle has it |
| EvacuationPlanning.RemoveVehicleSpec | src/utils/evacuation-planning.utils.ts:152-157 | `splice` removes one vehicle with the key when there is one and keeps every other; with distinct keys none with the key is left |
| EvacuationPlanning.CollectDistinct | src/utils/evacuation-planning.utils.ts:184-202 | records collected from vehicles with distinct keys have distinct keys |
| EvacuationPlanning.AssignSelectedSpec | src/utils/evacuation-planning.utils.ts:123-161 | assignment `i` uses selected vehicle `i` with its id, distance, speed, the zone's id and priority, and moves at most its capacity (at least 1 when it holds one); together they move at most the people left, and fewer only when every selected vehicle was used; one at most without multi-vehicle zones |
| EvacuationPlanning.AssignSelectedCount | src/utils/evacuation-planning.utils.ts:124-160 | no more assignments than selected vehicles; one at most without multi-vehicle zones |
| EvacuationPlanning.AssignSelectedMoved | src/utils/evacuation-planning.utils.ts:125-149 | a zone's assignments move no more than were left, and fewer only when every selected vehicle was used |
| EvacuationPlanning.AssignSelectedAt | src/utils/evacuation-planning.utils.ts:127-146 | assignment `i` is the record built for selected vehicle `i`, within its capacity |
| EvacuationPlanning.AssignSelectedNext | src/utils/evacuation-planning.utils.ts:124-160 | the first selected vehicle takes `min(capacity, left)` and leaves the pool; the rest follow only for multi-vehicle zones |
| EvacuationPlanning.SpentStep | src/utils/evacuation-planning.utils.ts:151-157 | taking a vehicle out of the pool for an assignment extends what was spent |
| EvacuationPlanning.AssignSelectedPool | src/utils/evacuation-planning.utils.ts:151-157 | with distinct keys, a zone's assignments spend distinct vehicles of the pool, each removed |
| EvacuationPlanning.AssignSelectedSubset | src/utils/evacuation-planning.utils.ts:151-157 | the pool afterwards holds only vehicles that were in it |
| EvacuationPlanning.AssignSelectedFits | src/utils/evacuation-planning.utils.ts:123-161 | candidates in range with positive speed give assignments that fit their zone |
| EvacuationPlanning.ZoneBlockSkipped | src/utils/evacuation-planning.utils.ts:103-113 | a zone with nobody left or no suitable vehicle gets no assignment and leaves the pool alone |
| EvacuationPlanning.ZoneBlockServed | src/utils/evacuation-planning.utils.ts:115-161 | otherwise the zone gets the assignments of its selection |
| EvacuationPlanning.ZoneBlockFails | src/utils/evacuation-planning.utils.ts:107-111 | where finding suitable vehicles throws, the zone's turn throws the same |
| EvacuationPlanning.ZoneBlockFits | src/utils/evacuation-planning.utils.ts:100-161 | a zone's assignments fit it, and the pool only shrinks |
| EvacuationPlanning.ZoneBlockPool | src/utils/evacuation-planning.utils.ts:100-161 | with distinct keys, a zone's assignments spend distinct vehicles of the pool |
| EvacuationPlanning.PlanZonesFit | src/utils/evacuation-planning.utils.ts:100-162 | every zone reached gets assignments that fit it; the loop stops early only on an empty pool |
| EvacuationPlanning.PlanZonesPool | src/utils/evacuation-planning.utils.ts:100-162 | with distinct keys, the whole plan spends distinct vehicles of the pool |
| EvacuationPlanning.PlanZonesOrdered | src/utils/evacuation-planning.utils.ts:97-162 | zones in ascending priority give assignments in ascending priority |
| EvacuationPlanning.PlanZonesPeople | src/utils/evacuation-planning.utils.ts:100-162 | the zone loop moves no more people than the zones still hold |
| EvacuationPlanning.PlanZonesSucceeds | src/utils/evacuation-planning.utils.ts:100-162 | with located zones and vehicles of positive effective speed, the zone loop never throws |
| EvacuationPlanning.CoverageCounts | src/utils/evacuation-planning.utils.ts:345-363 | fully + partially covered = the registry zones some assignment names; both non-negative |
| EvacuationPlanning.SummarySpec | src/utils/evacuation-planning.utils.ts:328-363 | one vehicle per assignment; high-priority entries at most the assignments; every registry zone some assignment names is counted once, as full or partial; the people total is non-negative when no assignment moves a negative number |
| EvacuationPlanning.SummaryOfNothing | src/utils/evacuation-planning.utils.ts:328-363 | a plan without assignments has an all-zero summary |
| EvacuationPlanning.GeneratePlanSummary | src/utils/evacuation-planning.utils.ts:323-375 | the counters and the coverage loop compute `SummaryOf` |
| EvacuationPlanning.AssignVehicles | src/utils/evacuation-planning.utils.ts:123-161 | the loop over selected vehicles computes the zone's assignments and the pool afterwards |
| EvacuationPlanning.SpliceVehicle | src/utils/evacuation-planning.utils.ts:151-157 | `findIndex` then `splice` computes `RemoveVehicle` |
| EvacuationPlanning.AssignZone | src/utils/evacuation-planning.utils.ts:100-161 | one turn of the zone loop computes `ZoneBlock`, including its error |
| EvacuationPlanning.GenerateOptimalEvacuationPlan | src/utils/evacuation-planning.utils.ts:78-172 | the filter, sort, zone loop and summary compute `OptimalPlan`, or the error it throws |
| PlanProperties.VisitedNeed | src/utils/evacuation-planning.utils.ts:87-97 | every visited zone is a registry zone that needs evacuation |
| PlanProperties.OptimalPlanNothingToDo | src/utils/evacuation-planning.utils.ts:87-94 | when no zone needs evacuation the result is `createEmptyPlan(options)`, whatever the vehicles |
| PlanProperties.OptimalPlanNoVehicles | src/utils/evacuation-planning.utils.ts:99-171 | without vehicles planning succeeds with no assignment and an all-zero summary |
| PlanProperties.OptimalPlanOrdered | src/utils/evacuation-planning.utils.ts:97-162 | assignments come by ascending priority |
| PlanProperties.OptimalPlanFits | src/utils/evacuation-planning.utils.ts:123-160 | each assignment names a zone needing evacuation with its priority, a vehicle within `maxDistanceKm` with positive speed, and moves at most its capacity (at least 1 when it holds one); without multi-vehicle zones, at most one assignment per zone needing evacuation |
| PlanProperties.OptimalPlanPeople | src/utils/evacuation-planning.utils.ts:123-149 | `totalPeopleToEvacuate` is the assignments' sum and at most the people waiting |
| PlanProperties.OptimalPlanVehiclesOnce | src/utils/evacuation-planning.utils.ts:151-157 | with distinct non-empty vehicle keys, no vehicle is assigned twice, every assignment names a given vehicle, and no more vehicles are assigned than there are |
| PlanProperties.OptimalPlanSucceeds | src/utils/evacuation-planning.utils.ts:184-193 | with located zones and vehicles of positive effective speed, planning does not throw |
| PlanProperties.OptimalPlanMissingCoordinates | src/utils/evacuation-planning.utils.ts:184-188 | when some zone needs evacuation and the first vehicle has no coordinates, planning throws the missing-coordinates error |
| CapacityFill.SortByCapacity | src/modules/evacution/evacuation.service.ts:135 | the sorted copy has as many vehicles as the input |
| CapacityFill.SortByCapacitySpec | src/modules/evacution/evacuation.service.ts:135 | the same vehicles, by non-increasing capacity |
| CapacityFill.FillZoneShape | src/modules/evacution/evacuation.service.ts:144-163 | one zone's entries use consecutive vehicles from the current index, all for that zone, and stay within the vehicles |
| CapacityFill.FillZoneSum | src/modules/evacution/evacuation.service.ts:141-163 | one zone's entries move at most its remaining people, and exactly that many when the vehicles did not run out |
| CapacityFill.FillZoneMoves | src/modules/evacution/evacuation.service.ts:146 | each entry moves `min(people still left, capacity)` |
| CapacityFill.FillZoneLeft | src/modules/evacution/evacuation.service.ts:144 | while a zone takes vehicles it still has people left |
| CapacityFill.FillZoneAtLeastOne | src/modules/evacution/evacuation.service.ts:146 | every entry moves at least one person when its vehicle holds one |
| CapacityFill.FillShape | src/modules/evacution/evacuation.service.ts:138-164 | the whole fill uses the vehicles one after another, each once, for zones in range |
| CapacityFill.FillOrdered | src/modules/evacution/evacuation.service.ts:140-164 | zone positions never decrease along the fill |
| CapacityFill.FillPerZone | src/modules/evacution/evacuation.service.ts:140-164 | each zone gets no more people moved than it needs |
| CapacityFill.FillPerZoneServed | src/modules/evacution/evacuation.service.ts:140-164 | each zone gets exactly what it needs when vehicles are left over |
| CapacityFill.FillTotal | src/modules/evacution/evacuation.service.ts:140-168 | the fill moves at most the total need, and exactly that when vehicles are left over |
| CapacityFill.FillInBounds | src/modules/evacution/evacuation.service.ts:138-164 | every entry names an existing zone and vehicle, entry `i` using vehicle `i` |
| CapacityFill.Entries | src/modules/evacution/evacuation.service.ts:148-159 | the rendered plan has no more entries than the fill has records |
| CapacityFill.EntriesAt | src/modules/evacution/evacuation.service.ts:148-159 | entry `i` is the entry of record `i`'s zone, vehicle and people |
| CapacityFill.ZoneEntries | src/modules/evacution/evacuation.service.ts:144-163 | the inner loop never runs past the last vehicle |
| CapacityFill.ZoneEntriesFill | src/modules/evacution/evacuation.service.ts:144-163 | the inner loop pushes the rendering of the zone's fill records, one per record |
| CapacityFill.VisitOrderSpec | src/modules/evacution/evacuation.service.ts:126-132 | the visited zones are exactly the registry's zones with people left, by ascending priority; both registries instantiate it with their own remaining-people and priority readings (the legacy one at src/evacuation.service.ts:42-48) |
| CapacityFill.NeedsOf | src/modules/evacution/evacuation.service.ts:141 | one need per visited zone (likewise `zone.people - zone.evacuated` at src/evacuation.service.ts:57) |
| CapacityFill.NeedsOfAt | src/modules/evacution/evacuation.service.ts:141 | need `i` is zone `i`'s remaining people |
| CapacityFill.PlanTakesInBounds | src/modules/evacution/evacuation.service.ts:135-164 | every fill record names a visited zone and a vehicle, record `i` using vehicle `i`, and there are no more records than vehicles (the same loop at src/evacuation.service.ts:54-75) |
| ZoneRegistry.ValidationSpec | src/modules/evacution/evacuation.service.ts:69-104 | validation passes exactly on complete new-format input with level 1..5, positive head count and non-zero coordinates, or else complete legacy input with positive head count and a known urgency word in any case |
| ZoneRegistry.Register | src/modules/evacution/evacuation.service.ts:27-67 | registration fails exactly on unacceptable input; otherwise exactly one zone, with nobody evacuated, is appended and earlier zones are kept |
| ZoneRegistry.AcceptedZone | src/modules/evacution/evacuation.service.ts:31-63 | an accepted zone holds people and a known category; in the new format its id doubles as `zoneId`, its head count and level are kept, and when no legacy word was given the derived one is the category of its level |
| ZoneRegistry.ProcessedId | src/modules/evacution/evacuation.service.ts:32 | a client-supplied id is kept; otherwise the generated one is used |
| ZoneRegistry.Priority | src/modules/evacution/evacuation.service.ts:188-197 | priority + level = 6 for a numeric level; otherwise 1..3 |
| ZoneRegistry.PlanWithoutVehicles | src/modules/evacution/evacuation.service.ts:114-123 | with no vehicles the plan is empty and counts every registry zone whose category is high |
| ZoneRegistry.PlanVehicles | src/modules/evacution/evacuation.service.ts:135-163 | entry `i` uses the `i`-th vehicle by descending capacity, so no vehicle is used twice |
| ZoneRegistry.PlanZonesServed | src/modules/evacution/evacuation.service.ts:140-159 | every entry serves a registry zone with people left and reports its priority and key |
| ZoneRegistry.PlanPriorityAt | src/modules/evacution/evacuation.service.ts:151 | entry `i` reports the priority of its fill record's zone |
| ZoneRegistry.PlanOrdered | src/modules/evacution/evacuation.service.ts:126-164 | priorities never decrease along the plan |
| ZoneRegistry.PlanPerZone | src/modules/evacution/evacuation.service.ts:140-164 | each entry moves its record's people; per zone at most the remaining people, exactly that when a vehicle is left unused |
| ZoneRegistry.PlanTotals | src/modules/evacution/evacuation.service.ts:166-170 | `totalVehicles` is the plan length (at most the vehicles); `totalPeopleToEvacuate` is at most the visited zones' remaining people, equal when a vehicle is left unused |
| ZoneRegistry.Statuses | src/modules/evacution/evacuation.service.ts:208-225 | one status per registry zone, in registry order |
| ZoneRegistry.StatusesOfRecorded | src/modules/evacution/evacuation.service.ts:208-225 | in a registry that never over-records, remaining = total - evacuated ≥ 0 and "completed" exactly when nobody remains |
| ZoneRegistry.FirstMatch | src/modules/evacution/evacuation.service.ts:228-232 | `find` stops at the first zone matching by location, `zoneId` or id, or finds none when no zone matches |
| ZoneRegistry.FirstMatchFrom | src/modules/evacution/evacuation.service.ts:228-232 | the same from a given position on |
| ZoneRegistry.UpdateSpec | src/modules/evacution/evacuation.service.ts:227-253 | the update throws "Zone … not found" exactly when no zone matches; otherwise only the first match's `evacuated` changes, to `min(evacuated + count, total)` |
| ZoneRegistry.UpdateKeepsRecorded | src/modules/evacution/evacuation.service.ts:227-239 | updates never make a zone record more evacuated people than it holds |
| ZoneRegistry.RegisterKeepsRecorded | src/modules/evacution/evacuation.service.ts:27-67 | registration keeps that invariant |
| ZoneRegistry.ServeZone | src/modules/evacution/evacuation.service.ts:141-163 | the inner `while` appends the zone's entries and moves the index past them |
| ZoneRegistry.BuildPlan | src/modules/evacution/evacuation.service.ts:125-172 | with vehicles, the sort, the fill and the summary compute `PlanOf` |
| ZoneRegistry.EvacuationService.constructor | src/modules/evacution/evacuation.service.ts:23-25 | an empty registry on the given vehicle registry |
| ZoneRegistry.EvacuationService.AddEvacuationZone | src/modules/evacution/evacuation.service.ts:27-67 | the registry becomes `Register`'s result and the new zone is returned; on a validation error nothing changes |
| ZoneRegistry.EvacuationService.GenerateEvacuationPlan | src/modules/evacution/evacuation.service.ts:110-173 | the plan is `PlanOf` the registry and the given vehicles (or the vehicle registry's); the registry is not modified |
| ZoneRegistry.EvacuationService.UpdateEvacuationStatus | src/modules/evacution/evacuation.service.ts:227-253 | the registry and the report are `Update`'s; on an error nothing changes |
| ZoneRegistry.EvacuationService.ClearEvacuationPlans | src/modules/evacution/evacuation.service.ts:255-261 | the registry is left empty and the fixed success report is returned |
| LegacyRegistry.Registered | src/evacuation.service.ts:11-19 | the registered zone keeps the submitted fields, with nobody evacuated and the fresh id |
| LegacyRegistry.Priority | src/evacuation.service.ts:41-46 | the priority is 1..3, and 1 exactly for a "high" zone in any case |
| LegacyRegistry.PlanHighCount | src/evacuation.service.ts:29-81 | with no vehicles, an empty plan counting every "high" zone; with vehicles, only visited "high" zones are counted |
| LegacyRegistry.PlanVehicles | src/evacuation.service.ts:51-75 | entry `i` uses the `i`-th vehicle by descending capacity, so no vehicle is used twice |
| LegacyRegistry.PlanZonesServed | src/evacuation.service.ts:56-70 | every entry serves a registry zone with people left, by its location and priority |
| LegacyRegistry.PlanOrdered | src/evacuation.service.ts:41-75 | priorities never decrease along the plan |
| LegacyRegistry.PlanPerZone | src/evacuation.service.ts:56-75 | each entry moves its record's people; per zone at most the remaining people, exactly that when a vehicle is left unused |
| LegacyRegistry.PlanTotals | src/evacuation.service.ts:77-81 | `totalVehicles` is the plan length (at most the vehicles); `totalPeopleToEvacuate` is at most the visited zones' remaining people, equal when a vehicle is left unused |
| LegacyRegistry.Statuses | src/evacuation.service.ts:86-97 | one status per zone, in registry order |
| LegacyRegistry.StatusesOfRecorded | src/evacuation.service.ts:86-97 | in a registry that records sensibly, remaining ≥ 0 and "completed" exactly when nobody remains |
| LegacyRegistry.FirstAt | src/evacuation.service.ts:100 | `find` stops at the first zone with the location, or finds none |
| LegacyRegistry.UpdateSpec | src/evacuation.service.ts:99-117 | the update throws exactly when no zone has the location; otherwise only the first such zone's `evacuated` changes, to `min(evacuated + count, people)` |
| LegacyRegistry.UpdateKeepsRecorded | src/evacuation.service.ts:99-105 | non-negative updates keep every zone's record between 0 and its head count |
| LegacyRegistry.AddKeepsRecorded | src/evacuation.service.ts:11-19 | adding a zone with a non-negative head count keeps that invariant |
| LegacyRegistry.ServeZone | src/evacuation.service.ts:57-74 | the inner `while` appends the zone's entries and moves the index past them |
| LegacyRegistry.BuildPlan | src/evacuation.service.ts:41-83 | with vehicles, the sort, the fill and the summary compute `PlanOf` |
| LegacyRegistry.EvacuationService.constructor | src/evacuation.service.ts:7-9 | an empty registry on the given vehicle registry |
| LegacyRegistry.EvacuationService.AddEvacuationZone | src/evacuation.service.ts:11-19 | exactly one zone, `Registered(input, id)`, is appended and returned; earlier zones are kept |
| LegacyRegistry.EvacuationService.GenerateEvacuationPlan | src/evacuation.service.ts:25-84 | the plan is `PlanOf` the registry and the given vehicles (or the vehicle registry's); the registry is not modified |
| LegacyRegistry.EvacuationService.UpdateEvacuationStatus | src/evacuation.service.ts:99-117 | the registry and the report are `Update`'s; on an error nothing changes |
| VehicleRegistry.FindById | src/modules/vehicle/vehicle.service.ts:21-23 | the first vehicle with the id, or nothing exactly when no vehicle has it |
| VehicleRegistry.FindAfterAppend | src/modules/vehicle/vehicle.service.ts:8-23 | appending keeps earlier lookups; a new id finds the appended vehicle |
| VehicleRegistry.VehicleService.constructor | src/modules/vehicle/vehicle.service.ts:6 | the registry starts empty |
| VehicleRegistry.VehicleService.GetVehicleById | src/modules/vehicle/vehicle.service.ts:21-23 | a found vehicle has the id and is stored; nothing exactly when no stored vehicle has the id |
| VehicleRegistry.VehicleService.AddVehicle | src/modules/vehicle/vehicle.service.ts:8-15 | the input with the fresh id is appended and returned, earlier vehicles kept, and looking the fresh id up finds a vehicle with that id |

## Left out

- Haversine distance (all copies) is trigonometry on floating point. Every operation takes
  the distance function `dist` as a parameter instead. Where a property needs it, the
  distance is assumed non-negative.
- Floating point in general: ETAs, scores and distances are exact reals.
- `calculateTravelTime` rounding: `Math.round(... * 100) / 100` in `calculateTravelTime` and
  `calculateHaversineDistance` is not modelled.
- TravelTime.CalculateTravelTime: states the unrounded quotient, which is weaker than the
  source's value rounded to two decimals.
- Plan summary averages: `averageDistance`, `averageTravelTime` and `totalDistanceKm` are
  float averages and rounding, so they are not modelled. `PlanSummary` keeps only the integer
  counters.
- Clock- and format-derived assignment fields: `travelTimeMinutes`, `travelTimeFormatted` and
  `eta` (`calculateTravelTimeMinutes`, `formatTravelTime`, `calculateETA`) are not modelled,
  nor is `vehicleType`. They depend on the wall clock or on string formatting.
- Random ids (`Math.random().toString(36)`) become the `freshId` parameter.
- JavaScript's number-to-string conversion in "lat,lon" location strings becomes the `show`
  parameter.
- `toLowerCase` is modelled on ASCII letters only. That is exact for the comparisons against
  "high", "medium" and "low".
- Keys such as `constructor` would hit `Object.prototype` in the urgency lookup tables. That
  behaviour is not modelled; every word outside the table falls back to the default.
- Redis, caching, rate limiting, controllers, DTO validation decorators, logging,
  configuration and bootstrap are I/O or framework wiring.
- The vehicle registry that the legacy zone registry imports (`src/vehicle.service.ts`) is not
  part of this model. The vehicle module's `VehicleService` stands for it.
- Demo runs, mock fixtures and test files are not modelled as code. The tests are cited where
  they state a property.
- WeightedPlanner.CalculateWeightedScore: requires a non-zero capacity when both coordinates
  are present. With capacity 0 the source divides by zero and yields `NaN`, and every caller
  filters such vehicles out first.
- In-place updates and aliasing: zones and vehicles are values.
  - Each planner's working copies are local sequences, so "the caller's objects are not
    modified" holds by construction rather than as a stated postcondition.
  - The weighted planner's aliased `bestAssignment.vehicle` is modelled by the vehicle's
    position in the list.
  - `updateEvacuationStatus` replaces the matching zone in the registry sequence. In the source
    it writes through the shared object, which callers holding that object would also see.
- In-place library sorts are modelled as stable sorts returning a new sequence:
  `zonesWorkingCopy.sort`, `sortZonesByUrgency`, the `findSuitableVehicles` sort and the
  `optimizeVehicleSelection` re-sort. A caller's array that the source sorts in place
  (`sortZonesByUrgency` on the filtered copy, the selection's candidate array) is not shown
  reordered, because nothing reads it afterwards.
- Loop bodies extracted into methods: `LoadVehicle`, `EvacuateZone`, `FindBestAssignment`,
  `AssignVehicles`, `SpliceVehicle`, `AssignZone` and the registries' `ServeZone` are inline
  loop bodies in the source. They are separate methods here, with the same steps.
- EvacuationPlanning.FieldsOf: the zone-derived fields of an assignment (location, id, level,
  category, priority) are computed once per zone rather than once per assignment. They depend
  only on the zone, so the result is the same.
- The two greedy files (`greedy-planner.ts` and `greedyPlanner.ts`) differ only in layout. One
  model covers both.
