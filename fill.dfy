/**
 * The single-pass fill both zone registries plan with: zones in order, vehicles in order,
 * one shared `vehicleIndex` that only moves forward. Zone `k` takes vehicles from the current
 * index while it still has people left and vehicles remain; each vehicle moves
 * `min(left, capacity)` of them. The fill depends only on each zone's need and each vehicle's
 * capacity, so it is stated over those two sequences; a `Take` records which zone and which
 * vehicle (by position) an entry of the plan pairs, and how many people it moves.
 */
module CapacityFill {
  import opened Entities
  import opened Sequences

  datatype Take = Take(zoneIndex: nat, vehicleIndex: nat, people: int)

  function Moved(t: Take): int {
    t.people
  }

  function AtZone(k: nat): Take -> bool {
    (t: Take) => t.zoneIndex == k
  }

  function Capacities(vs: seq<Vehicle>): (caps: seq<int>)
    ensures |caps| == |vs|
  {
    if vs == [] then [] else [vs[0].capacity] + Capacities(vs[1..])
  }

  /** Capacity `i` is vehicle `i`'s. */
  lemma {:induction false} CapacityAt(vs: seq<Vehicle>, i: nat)
    requires i < |vs|
    ensures Capacities(vs)[i] == vs[i].capacity
  {
    if i > 0 {
      CapacityAt(vs[1..], i - 1);
    }
  }

  /** The vehicles' comparator in both registries: `b.capacity - a.capacity`. */
  predicate LargerCapacity(a: Vehicle, b: Vehicle) {
    a.capacity > b.capacity
  }

  /** `[...vehicles].sort((a, b) => b.capacity - a.capacity)`: largest first, ties in input order. */
  function SortByCapacity(vs: seq<Vehicle>): (sorted: seq<Vehicle>)
    ensures |sorted| == |vs|
  {
    StableSort(vs, LargerCapacity)
  }

  /** The sorted vehicles are the same vehicles, by non-increasing capacity. */
  lemma {:induction false} SortByCapacitySpec(vs: seq<Vehicle>)
    ensures multiset(SortByCapacity(vs)) == multiset(vs)
    ensures forall i, j :: 0 <= i < j < |vs| ==> SortByCapacity(vs)[i].capacity >= SortByCapacity(vs)[j].capacity
  {
    assert StrictWeakOrder(LargerCapacity);
    StableSortPermutes(vs, LargerCapacity);
    StableSortSorted(vs, LargerCapacity);
  }

  /** The inner `while (peopleToEvacuate > 0 && vehicleIndex < sortedVehicles.length)` of zone `k`. */
  function FillZone(k: nat, left: int, caps: seq<int>, idx: nat): seq<Take>
    decreases |caps| - idx
  {
    if left <= 0 || idx >= |caps| then []
    else
      var n := Min(left, caps[idx]);
      [Take(k, idx, n)] + FillZone(k, left - n, caps, idx + 1)
  }

  /** The outer `for (const zone of sortedZones)`, from zone `k` and vehicle `idx` on. */
  function Fill(needs: seq<int>, k: nat, caps: seq<int>, idx: nat): seq<Take>
    decreases |needs| - k
  {
    if k >= |needs| then []
    else
      var block := FillZone(k, needs[k], caps, idx);
      block + Fill(needs, k + 1, caps, idx + |block|)
  }

  /** One step of `FillZone`: the current vehicle, then the rest of the zone from the next one. */
  lemma FillZoneUnfold(k: nat, left: int, caps: seq<int>, idx: nat)
    requires left > 0 && idx < |caps|
    ensures FillZone(k, left, caps, idx)
      == [Take(k, idx, Min(left, caps[idx]))] + FillZone(k, left - Min(left, caps[idx]), caps, idx + 1)
  {
  }

  /** One step of `Fill`: zone `k`'s block, then the later zones from the next unused vehicle. */
  lemma FillUnfold(needs: seq<int>, k: nat, caps: seq<int>, idx: nat)
    requires k < |needs|
    ensures Fill(needs, k, caps, idx)
      == FillZone(k, needs[k], caps, idx) + Fill(needs, k + 1, caps, idx + |FillZone(k, needs[k], caps, idx)|)
  {
  }

  /** Record `i` uses vehicle `idx + i`. */
  ghost predicate Consecutive(ts: seq<Take>, idx: nat) {
    forall i :: 0 <= i < |ts| ==> ts[i].vehicleIndex == idx + i
  }

  /** Every record serves a zone between `lo` (included) and `hi` (excluded). */
  ghost predicate ZonesIn(ts: seq<Take>, lo: nat, hi: nat) {
    forall t :: t in ts ==> lo <= t.zoneIndex < hi
  }

  lemma {:induction false} ConsecutiveConcat(a: seq<Take>, b: seq<Take>, idx: nat)
    requires Consecutive(a, idx) && Consecutive(b, idx + |a|)
    ensures Consecutive(a + b, idx)
  {
    forall i | |a| <= i < |a + b| ensures (a + b)[i].vehicleIndex == idx + i {
      assert (a + b)[i] == b[i - |a|];
    }
  }

  /** One zone's records use consecutive vehicles from `idx`, and all belong to zone `k`. */
  lemma {:induction false} FillZoneShape(k: nat, left: int, caps: seq<int>, idx: nat)
    requires idx <= |caps|
    ensures idx + |FillZone(k, left, caps, idx)| <= |caps|
    ensures Consecutive(FillZone(k, left, caps, idx), idx)
    ensures ZonesIn(FillZone(k, left, caps, idx), k, k + 1)
    decreases |caps| - idx
  {
    if left > 0 && idx < |caps| {
      var n := Min(left, caps[idx]);
      var rest := FillZone(k, left - n, caps, idx + 1);
      FillZoneShape(k, left - n, caps, idx + 1);
      FillZoneUnfold(k, left, caps, idx);
      ConsecutiveConcat([Take(k, idx, n)], rest, idx);
    }
  }

  /**
   * One zone's records move no more people than were left, and exactly as many when the zone
   * stops before the vehicles run out.
   */
  lemma {:induction false} FillZoneSum(k: nat, left: int, caps: seq<int>, idx: nat)
    requires idx <= |caps| && left >= 0
    ensures SumOf(FillZone(k, left, caps, idx), Moved) <= left
    ensures idx + |FillZone(k, left, caps, idx)| < |caps| ==> SumOf(FillZone(k, left, caps, idx), Moved) == left
    decreases |caps| - idx
  {
    if left > 0 && idx < |caps| {
      var n := Min(left, caps[idx]);
      var rest := FillZone(k, left - n, caps, idx + 1);
      FillZoneSum(k, left - n, caps, idx + 1);
      FillZoneUnfold(k, left, caps, idx);
      assert ([Take(k, idx, n)] + rest)[1..] == rest;
    }
  }

  /** Record `i` moves `min` of the people not yet moved out of `left` and vehicle `idx + i`'s capacity. */
  ghost predicate TakesMin(ts: seq<Take>, left: int, caps: seq<int>, idx: nat) {
    && idx + |ts| <= |caps|
    && forall i :: 0 <= i < |ts| ==> ts[i].people == Min(left - SumOf(ts[..i], Moved), caps[idx + i])
  }

  lemma {:induction false} TakesMinCons(t: Take, rest: seq<Take>, left: int, caps: seq<int>, idx: nat)
    requires idx < |caps| && t.people == Min(left, caps[idx])
    requires TakesMin(rest, left - t.people, caps, idx + 1)
    ensures TakesMin([t] + rest, left, caps, idx)
  {
    var ts := [t] + rest;
    forall i | 0 < i < |ts| ensures ts[i].people == Min(left - SumOf(ts[..i], Moved), caps[idx + i]) {
      assert ts[..i][1..] == rest[..i - 1];
      assert SumOf(ts[..i], Moved) == t.people + SumOf(rest[..i - 1], Moved);
      assert ts[i] == rest[i - 1];
    }
  }

  /** Each record of a zone moves `min` of the people still left and its vehicle's capacity. */
  lemma {:induction false} FillZoneMoves(k: nat, left: int, caps: seq<int>, idx: nat)
    requires idx <= |caps|
    ensures TakesMin(FillZone(k, left, caps, idx), left, caps, idx)
    decreases |caps| - idx
  {
    if left > 0 && idx < |caps| {
      var n := Min(left, caps[idx]);
      FillZoneMoves(k, left - n, caps, idx + 1);
      FillZoneUnfold(k, left, caps, idx);
      TakesMinCons(Take(k, idx, n), FillZone(k, left - n, caps, idx + 1), left, caps, idx);
    }
  }

  /** While a zone takes vehicles it still has people left. */
  lemma {:induction false} FillZoneLeft(k: nat, left: int, caps: seq<int>, idx: nat, i: nat)
    requires i < |FillZone(k, left, caps, idx)|
    ensures left - SumOf(FillZone(k, left, caps, idx)[..i], Moved) > 0
    decreases |caps| - idx
  {
    var b := FillZone(k, left, caps, idx);
    var n := Min(left, caps[idx]);
    if i > 0 {
      var rest := FillZone(k, left - n, caps, idx + 1);
      FillZoneUnfold(k, left, caps, idx);
      assert b[..i][1..] == rest[..i - 1];
      FillZoneLeft(k, left - n, caps, idx + 1, i - 1);
    }
  }

  /** Every record moves at least one person when its vehicle holds one. */
  lemma {:induction false} FillZoneAtLeastOne(k: nat, left: int, caps: seq<int>, idx: nat)
    requires idx <= |caps|
    ensures idx + |FillZone(k, left, caps, idx)| <= |caps|
    ensures forall i :: 0 <= i < |FillZone(k, left, caps, idx)| && caps[idx + i] >= 1 ==> FillZone(k, left, caps, idx)[i].people >= 1
  {
    var b := FillZone(k, left, caps, idx);
    FillZoneMoves(k, left, caps, idx);
    forall i | 0 <= i < |b| && caps[idx + i] >= 1 ensures b[i].people >= 1 {
      FillZoneLeft(k, left, caps, idx, i);
    }
  }

  /** The whole fill from zone `k` and vehicle `idx` uses the vehicles one after another, each once. */
  lemma {:induction false} FillShape(needs: seq<int>, k: nat, caps: seq<int>, idx: nat)
    requires idx <= |caps|
    ensures idx + |Fill(needs, k, caps, idx)| <= |caps|
    ensures Consecutive(Fill(needs, k, caps, idx), idx)
    ensures ZonesIn(Fill(needs, k, caps, idx), k, |needs|)
    decreases |needs| - k
  {
    if k < |needs| {
      var block := FillZone(k, needs[k], caps, idx);
      FillZoneShape(k, needs[k], caps, idx);
      FillShape(needs, k + 1, caps, idx + |block|);
      var rest := Fill(needs, k + 1, caps, idx + |block|);
      FillUnfold(needs, k, caps, idx);
      ConsecutiveConcat(block, rest, idx);
    }
  }

  /** The fill serves the zones in order: zone positions never decrease along it. */
  lemma {:induction false} FillOrdered(needs: seq<int>, k: nat, caps: seq<int>, idx: nat)
    requires idx <= |caps|
    ensures forall i, j :: 0 <= i < j < |Fill(needs, k, caps, idx)| ==>
      Fill(needs, k, caps, idx)[i].zoneIndex <= Fill(needs, k, caps, idx)[j].zoneIndex
    decreases |needs| - k
  {
    if k < |needs| {
      var block := FillZone(k, needs[k], caps, idx);
      FillZoneShape(k, needs[k], caps, idx);
      FillShape(needs, k + 1, caps, idx + |block|);
      FillOrdered(needs, k + 1, caps, idx + |block|);
      var rest := Fill(needs, k + 1, caps, idx + |block|);
      var ts := block + rest;
      FillUnfold(needs, k, caps, idx);
      forall i, j | 0 <= i < j < |ts| ensures ts[i].zoneIndex <= ts[j].zoneIndex {
        if i < |block| {
          assert ts[i] == block[i] && block[i] in block;
        } else {
          assert ts[i] == rest[i - |block|];
        }
        if j < |block| {
          assert ts[j] == block[j] && block[j] in block;
        } else {
          assert ts[j] == rest[j - |block|] && rest[j - |block|] in rest;
        }
      }
    }
  }

  /** Records of zone `k` followed by records of other zones: zone `k`'s records are the first ones. */
  lemma {:induction false} FilterLeading(block: seq<Take>, rest: seq<Take>, k: nat, hi: nat)
    requires ZonesIn(block, k, k + 1) && ZonesIn(rest, k + 1, hi)
    ensures Filter(block + rest, AtZone(k)) == block
  {
    FilterConcat(block, rest, AtZone(k));
    FilterAll(block, AtZone(k));
    FilterNone(rest, AtZone(k));
    assert block + [] == block;
  }

  /** Records of other zones in front do not change zone `m`'s records. */
  lemma {:induction false} FilterSkipping(block: seq<Take>, rest: seq<Take>, k: nat, m: nat)
    requires ZonesIn(block, k, k + 1) && k != m
    ensures Filter(block + rest, AtZone(m)) == Filter(rest, AtZone(m))
  {
    FilterConcat(block, rest, AtZone(m));
    FilterNone(block, AtZone(m));
    assert [] + Filter(rest, AtZone(m)) == Filter(rest, AtZone(m));
  }

  /** Zone `k`'s part of the fill from zone `k` on is its own block. */
  lemma {:induction false} ZonePartHere(needs: seq<int>, k: nat, caps: seq<int>, idx: nat)
    requires idx <= |caps| && k < |needs|
    ensures Filter(Fill(needs, k, caps, idx), AtZone(k)) == FillZone(k, needs[k], caps, idx)
  {
    var block := FillZone(k, needs[k], caps, idx);
    var rest := Fill(needs, k + 1, caps, idx + |block|);
    FillZoneShape(k, needs[k], caps, idx);
    FillShape(needs, k + 1, caps, idx + |block|);
    FillUnfold(needs, k, caps, idx);
    FilterLeading(block, rest, k, |needs|);
  }

  /** A later zone's part of the fill from zone `k` on is its part of the fill after zone `k`. */
  lemma {:induction false} ZonePartLater(needs: seq<int>, k: nat, caps: seq<int>, idx: nat, m: nat)
    requires idx <= |caps| && k < m && k < |needs|
    ensures Filter(Fill(needs, k, caps, idx), AtZone(m))
      == Filter(Fill(needs, k + 1, caps, idx + |FillZone(k, needs[k], caps, idx)|), AtZone(m))
  {
    var block := FillZone(k, needs[k], caps, idx);
    var rest := Fill(needs, k + 1, caps, idx + |block|);
    FillZoneShape(k, needs[k], caps, idx);
    FillUnfold(needs, k, caps, idx);
    FilterSkipping(block, rest, k, m);
  }

  /** Zone `k`'s records in the fill that starts with it are its own block. */
  lemma {:induction false} FillHere(needs: seq<int>, k: nat, caps: seq<int>, idx: nat)
    requires idx <= |caps| && k < |needs|
    ensures Filter(Fill(needs, k, caps, idx), AtZone(k)) == FillZone(k, needs[k], caps, idx)
    ensures |FillZone(k, needs[k], caps, idx)| <= |Fill(needs, k, caps, idx)|
  {
    var block := FillZone(k, needs[k], caps, idx);
    var rest := Fill(needs, k + 1, caps, idx + |block|);
    FillUnfold(needs, k, caps, idx);
    assert |Fill(needs, k, caps, idx)| == |block| + |rest|;
    ZonePartHere(needs, k, caps, idx);
  }

  /** Zone `m`'s records in the fill from zone `k < m` are its records in the fill after zone `k`. */
  lemma {:induction false} FillLater(needs: seq<int>, k: nat, caps: seq<int>, idx: nat, m: nat)
    requires idx <= |caps| && k < m < |needs|
    ensures idx + |FillZone(k, needs[k], caps, idx)| <= |caps|
    ensures Filter(Fill(needs, k, caps, idx), AtZone(m))
      == Filter(Fill(needs, k + 1, caps, idx + |FillZone(k, needs[k], caps, idx)|), AtZone(m))
    ensures |Fill(needs, k, caps, idx)|
      == |FillZone(k, needs[k], caps, idx)| + |Fill(needs, k + 1, caps, idx + |FillZone(k, needs[k], caps, idx)|)|
  {
    var block := FillZone(k, needs[k], caps, idx);
    var rest := Fill(needs, k + 1, caps, idx + |block|);
    FillUnfold(needs, k, caps, idx);
    assert |Fill(needs, k, caps, idx)| == |block| + |rest|;
    FillZoneShape(k, needs[k], caps, idx);
    ZonePartLater(needs, k, caps, idx, m);
  }

  /** Each zone gets no more people moved than it needs. */
  lemma {:induction false} FillPerZone(needs: seq<int>, k: nat, caps: seq<int>, idx: nat, m: nat)
    requires idx <= |caps| && k <= m < |needs| && needs[m] >= 0
    ensures SumOf(Filter(Fill(needs, k, caps, idx), AtZone(m)), Moved) <= needs[m]
    decreases |needs| - k
  {
    if m == k {
      FillHere(needs, k, caps, idx);
      FillZoneSum(k, needs[k], caps, idx);
    } else {
      FillLater(needs, k, caps, idx, m);
      FillPerZone(needs, k + 1, caps, idx + |FillZone(k, needs[k], caps, idx)|, m);
    }
  }

  /** Each zone gets exactly what it needs when vehicles are left over at the end of the fill. */
  lemma {:induction false} FillPerZoneServed(needs: seq<int>, k: nat, caps: seq<int>, idx: nat, m: nat)
    requires idx <= |caps| && k <= m < |needs| && needs[m] >= 0
    requires idx + |Fill(needs, k, caps, idx)| < |caps|
    ensures SumOf(Filter(Fill(needs, k, caps, idx), AtZone(m)), Moved) == needs[m]
    decreases |needs| - k
  {
    var block := FillZone(k, needs[k], caps, idx);
    if m == k {
      assert idx + |block| < |caps| && Filter(Fill(needs, k, caps, idx), AtZone(k)) == block by {
        FillHere(needs, k, caps, idx);
      }
      FillZoneSum(k, needs[k], caps, idx);
    } else {
      var next := idx + |block|;
      assert && next <= |caps|
             && next + |Fill(needs, k + 1, caps, next)| < |caps|
             && Filter(Fill(needs, k, caps, idx), AtZone(m)) == Filter(Fill(needs, k + 1, caps, next), AtZone(m)) by {
        FillLater(needs, k, caps, idx, m);
      }
      FillPerZoneServed(needs, k + 1, caps, next, m);
    }
  }

  /** A sequence every element of which passes the test filters to itself. */
  lemma {:induction false} FilterAll<T>(s: seq<T>, keep: T -> bool)
    requires forall x :: x in s ==> keep(x)
    ensures Filter(s, keep) == s
  {
    if s != [] {
      FilterAll(s[1..], keep);
      assert [s[0]] + s[1..] == s;
    }
  }

  function Id(n: int): int {
    n
  }

  /**
   * With non-negative needs, the fill moves no more people than the zones need in total, and
   * exactly that many when vehicles are left over at the end.
   */
  lemma {:induction false} FillTotal(needs: seq<int>, k: nat, caps: seq<int>, idx: nat)
    requires idx <= |caps| && k <= |needs|
    requires forall m :: k <= m < |needs| ==> needs[m] >= 0
    ensures SumOf(Fill(needs, k, caps, idx), Moved) <= SumOf(needs[k..], Id)
    ensures idx + |Fill(needs, k, caps, idx)| < |caps| ==> SumOf(Fill(needs, k, caps, idx), Moved) == SumOf(needs[k..], Id)
    decreases |needs| - k
  {
    if k < |needs| {
      var block := FillZone(k, needs[k], caps, idx);
      FillZoneShape(k, needs[k], caps, idx);
      FillZoneSum(k, needs[k], caps, idx);
      var rest := Fill(needs, k + 1, caps, idx + |block|);
      FillTotal(needs, k + 1, caps, idx + |block|);
      FillUnfold(needs, k, caps, idx);
      SumOfConcat(block, rest, Moved);
      assert needs[k..][1..] == needs[k + 1..];
      assert SumOf(needs[k..], Id) == needs[k] + SumOf(needs[k + 1..], Id);
    }
  }

  // ---------------------------------------------------------------------------------------
  // From records to plan entries

  /** Every record names an existing zone and an existing vehicle. */
  ghost predicate InBounds(ts: seq<Take>, zoneCount: nat, vehicleCount: nat) {
    forall i :: 0 <= i < |ts| ==> ts[i].zoneIndex < zoneCount && ts[i].vehicleIndex < vehicleCount
  }

  /** A fill from zone `k` and vehicle `idx` names existing zones and vehicles only. */
  lemma FillInBoundsFrom(needs: seq<int>, k: nat, caps: seq<int>, idx: nat)
    requires idx <= |caps|
    ensures InBounds(Fill(needs, k, caps, idx), |needs|, |caps|)
  {
    var ts := Fill(needs, k, caps, idx);
    FillShape(needs, k, caps, idx);
    forall i | 0 <= i < |ts| ensures ts[i].zoneIndex < |needs| && ts[i].vehicleIndex < |caps| {
      assert ts[i] in ts;
    }
  }

  /** A fill from the start names existing zones and vehicles, vehicle `i` in record `i`. */
  lemma {:induction false} FillInBounds(needs: seq<int>, caps: seq<int>)
    ensures InBounds(Fill(needs, 0, caps, 0), |needs|, |caps|)
    ensures |Fill(needs, 0, caps, 0)| <= |caps|
    ensures forall i :: 0 <= i < |Fill(needs, 0, caps, 0)| ==> Fill(needs, 0, caps, 0)[i].vehicleIndex == i
  {
    FillInBoundsFrom(needs, 0, caps, 0);
    FillShape(needs, 0, caps, 0);
  }

  /**
   * The plan a fill stands for: record by record, `entry` of the record's zone, its vehicle and
   * the people it moves. A record naming no zone or no vehicle stands for no entry; a fill
   * never holds one (`FillInBounds`).
   */
  function Entries<Z, E>(zs: seq<Z>, vs: seq<Vehicle>, ts: seq<Take>, entry: (Z, Vehicle, int) -> E): (plan: seq<E>)
    ensures |plan| <= |ts|
  {
    if ts == [] then []
    else if ts[0].zoneIndex < |zs| && ts[0].vehicleIndex < |vs| then
      [entry(zs[ts[0].zoneIndex], vs[ts[0].vehicleIndex], ts[0].people)] + Entries(zs, vs, ts[1..], entry)
    else Entries(zs, vs, ts[1..], entry)
  }

  /** When every record names a zone and a vehicle, entry `i` of the plan stands for record `i`. */
  lemma {:induction false} EntriesAt<Z, E>(zs: seq<Z>, vs: seq<Vehicle>, ts: seq<Take>, entry: (Z, Vehicle, int) -> E)
    requires InBounds(ts, |zs|, |vs|)
    ensures |Entries(zs, vs, ts, entry)| == |ts|
    ensures forall i :: 0 <= i < |ts| ==>
      Entries(zs, vs, ts, entry)[i] == entry(zs[ts[i].zoneIndex], vs[ts[i].vehicleIndex], ts[i].people)
  {
    if ts != [] {
      EntriesAt(zs, vs, ts[1..], entry);
    }
  }

  /** The plan of two runs of records is the plan of the first, then the plan of the second. */
  lemma {:induction false} EntriesConcat<Z, E>(zs: seq<Z>, vs: seq<Vehicle>, a: seq<Take>, b: seq<Take>, entry: (Z, Vehicle, int) -> E)
    ensures Entries(zs, vs, a + b, entry) == Entries(zs, vs, a, entry) + Entries(zs, vs, b, entry)
  {
    if a == [] {
      assert a + b == b;
    } else {
      assert (a + b)[1..] == a[1..] + b;
      EntriesConcat(zs, vs, a[1..], b, entry);
      if a[0].zoneIndex < |zs| && a[0].vehicleIndex < |vs| {
        AppendAssoc([entry(zs[a[0].zoneIndex], vs[a[0].vehicleIndex], a[0].people)], Entries(zs, vs, a[1..], entry), Entries(zs, vs, b, entry));
      }
    }
  }

  // ---------------------------------------------------------------------------------------
  // The zones a registry plans for. Both registries read a zone's remaining people and its
  // priority in their own way, so these take the two readings as parameters.

  /** The zone filter of both registries: people left to move. */
  function Pending<Z>(remaining: Z -> int): Z -> bool {
    z => remaining(z) > 0
  }

  /** The zone comparator of both registries: `priority(a) - priority(b)`. */
  function ByPriority<Z>(priority: Z -> int): (Z, Z) -> bool {
    (a, b) => priority(a) < priority(b)
  }

  /** The zones the plan visits: those with people left, by ascending priority, ties in registry order. */
  function VisitOrder<Z>(zones: seq<Z>, remaining: Z -> int, priority: Z -> int): seq<Z> {
    StableSort(Filter(zones, Pending(remaining)), ByPriority(priority))
  }

  /** The visited zones are the registry's zones with people left, by ascending priority. */
  lemma VisitOrderSpec<Z(!new)>(zones: seq<Z>, remaining: Z -> int, priority: Z -> int)
    ensures multiset(VisitOrder(zones, remaining, priority)) == multiset(Filter(zones, Pending(remaining)))
    ensures forall z :: z in VisitOrder(zones, remaining, priority) <==> z in zones && remaining(z) > 0
    ensures forall i, j :: 0 <= i < j < |VisitOrder(zones, remaining, priority)| ==>
      priority(VisitOrder(zones, remaining, priority)[i]) <= priority(VisitOrder(zones, remaining, priority)[j])
  {
    var needing := Filter(zones, Pending(remaining));
    var sorted := VisitOrder(zones, remaining, priority);
    assert StrictWeakOrder(ByPriority(priority));
    StableSortPermutes(needing, ByPriority(priority));
    StableSortSorted(needing, ByPriority(priority));
    FilterKeeps(zones, Pending(remaining));
    forall z ensures z in sorted <==> z in needing {
      assert z in sorted <==> z in multiset(sorted);
    }
  }

  /** The people each zone still has, zone by zone: what the fill is asked to move. */
  function NeedsOf<Z>(zs: seq<Z>, remaining: Z -> int): (needs: seq<int>)
    ensures |needs| == |zs|
  {
    if zs == [] then [] else [remaining(zs[0])] + NeedsOf(zs[1..], remaining)
  }

  /** Need `i` is zone `i`'s remaining people. */
  lemma {:induction false} NeedsOfAt<Z>(zs: seq<Z>, remaining: Z -> int, i: nat)
    requires i < |zs|
    ensures NeedsOf(zs, remaining)[i] == remaining(zs[i])
  {
    if i > 0 {
      NeedsOfAt(zs[1..], remaining, i - 1);
    }
  }

  /** The fill of the visited zones `zs` with the vehicles sorted by capacity. */
  function PlanTakes<Z>(zs: seq<Z>, remaining: Z -> int, vehicles: seq<Vehicle>): seq<Take> {
    Fill(NeedsOf(zs, remaining), 0, Capacities(SortByCapacity(vehicles)), 0)
  }

  /** Every record names a visited zone and a vehicle, record `i` vehicle `i`. */
  lemma PlanTakesInBounds<Z>(zs: seq<Z>, remaining: Z -> int, vehicles: seq<Vehicle>)
    ensures InBounds(PlanTakes(zs, remaining, vehicles), |zs|, |vehicles|)
    ensures |PlanTakes(zs, remaining, vehicles)| <= |vehicles|
    ensures forall i :: 0 <= i < |PlanTakes(zs, remaining, vehicles)| ==> PlanTakes(zs, remaining, vehicles)[i].vehicleIndex == i
  {
    FillInBounds(NeedsOf(zs, remaining), Capacities(SortByCapacity(vehicles)));
  }

  // ---------------------------------------------------------------------------------------
  // The plan as the loops push it

  /**
   * The entries the inner `while` pushes for `zone` from vehicle `idx` on while `left` people
   * wait: each vehicle takes `min(left, capacity)`, until nobody is left or the vehicles run out.
   */
  function ZoneEntries<Z, E>(zone: Z, vs: seq<Vehicle>, left: int, idx: nat, entry: (Z, Vehicle, int) -> E): (es: seq<E>)
    requires idx <= |vs|
    ensures idx + |es| <= |vs|
    decreases |vs| - idx
  {
    if left <= 0 || idx >= |vs| then []
    else
      var n := Min(left, vs[idx].capacity);
      [entry(zone, vs[idx], n)] + ZoneEntries(zone, vs, left - n, idx + 1, entry)
  }

  /** One pass of the inner `while`: the current vehicle's entry, then the rest of the zone from the next one. */
  lemma {:induction false} ZoneEntriesStep<Z, E>(zone: Z, vs: seq<Vehicle>, left: int, idx: nat, entry: (Z, Vehicle, int) -> E)
    requires left > 0 && idx < |vs|
    ensures ZoneEntries(zone, vs, left, idx, entry)
      == [entry(zone, vs[idx], Min(left, vs[idx].capacity))] + ZoneEntries(zone, vs, left - Min(left, vs[idx].capacity), idx + 1, entry)
  {
  }

  /** The plan of a record naming a zone and a vehicle, then more records. */
  lemma {:induction false} EntriesCons<Z, E>(zs: seq<Z>, vs: seq<Vehicle>, t: Take, rest: seq<Take>, entry: (Z, Vehicle, int) -> E)
    requires t.zoneIndex < |zs| && t.vehicleIndex < |vs|
    ensures Entries(zs, vs, [t] + rest, entry) == [entry(zs[t.zoneIndex], vs[t.vehicleIndex], t.people)] + Entries(zs, vs, rest, entry)
  {
    assert ([t] + rest)[1..] == rest;
  }

  /** The inner loop pushes, for zone `k`, the plan of the zone's fill records, one entry per record. */
  lemma {:induction false} ZoneEntriesFill<Z, E>(zs: seq<Z>, vs: seq<Vehicle>, k: nat, left: int, idx: nat, entry: (Z, Vehicle, int) -> E)
    requires k < |zs| && idx <= |vs|
    ensures ZoneEntries(zs[k], vs, left, idx, entry) == Entries(zs, vs, FillZone(k, left, Capacities(vs), idx), entry)
    ensures |ZoneEntries(zs[k], vs, left, idx, entry)| == |FillZone(k, left, Capacities(vs), idx)|
    decreases |vs| - idx
  {
    var caps := Capacities(vs);
    if left > 0 && idx < |vs| {
      var n := Min(left, caps[idx]);
      CapacityAt(vs, idx);
      FillZoneUnfold(k, left, caps, idx);
      ZoneEntriesStep(zs[k], vs, left, idx, entry);
      EntriesCons(zs, vs, Take(k, idx, n), FillZone(k, left - n, caps, idx + 1), entry);
      ZoneEntriesFill(zs, vs, k, left - n, idx + 1, entry);
    } else {
      assert FillZone(k, left, caps, idx) == [];
    }
  }

  /**
   * One pass of the outer `for`: the plan of the fill from zone `k` and vehicle `idx` on is what
   * the inner loop pushes for zone `k`, then the plan of the fill from the next zone and the
   * next unused vehicle.
   */
  lemma {:induction false} EntriesFillStep<Z, E>(zs: seq<Z>, needs: seq<int>, vs: seq<Vehicle>, k: nat, left: int, idx: nat, idx': nat,
                                                entry: (Z, Vehicle, int) -> E)
    requires k < |zs| == |needs| && needs[k] == left && idx <= |vs|
    requires idx' == idx + |ZoneEntries(zs[k], vs, left, idx, entry)|
    ensures Entries(zs, vs, Fill(needs, k, Capacities(vs), idx), entry)
      == ZoneEntries(zs[k], vs, left, idx, entry) + Entries(zs, vs, Fill(needs, k + 1, Capacities(vs), idx'), entry)
  {
    var caps := Capacities(vs);
    var block := FillZone(k, left, caps, idx);
    var later := Fill(needs, k + 1, caps, idx');
    ZoneEntriesFill(zs, vs, k, left, idx, entry);
    assert idx' == idx + |block|;
    assert Fill(needs, k, caps, idx) == block + later by {
      FillUnfold(needs, k, caps, idx);
      assert FillZone(k, needs[k], caps, idx) == block;
    }
    EntriesConcat(zs, vs, block, later, entry);
  }

  /**
   * The outer `for` keeps "what has been built, followed by the entries of the records still
   * to come, is the whole plan": serving zone `k` from vehicle `idx` adds its block to what has
   * been built and moves the vehicle index past the block.
   */
  lemma {:induction false} FillLoopStep<Z, E>(zs: seq<Z>, needs: seq<int>, vs: seq<Vehicle>, k: nat, left: int,
                                              idx: nat, idx': nat, built: seq<E>, built': seq<E>, whole: seq<E>,
                                              entry: (Z, Vehicle, int) -> E)
    requires k < |zs| == |needs| && needs[k] == left && idx <= |vs|
    requires built + Entries(zs, vs, Fill(needs, k, Capacities(vs), idx), entry) == whole
    requires built' == built + ZoneEntries(zs[k], vs, left, idx, entry)
    requires idx' == idx + |ZoneEntries(zs[k], vs, left, idx, entry)|
    ensures built' + Entries(zs, vs, Fill(needs, k + 1, Capacities(vs), idx'), entry) == whole
  {
    var block := ZoneEntries(zs[k], vs, left, idx, entry);
    var rest := Entries(zs, vs, Fill(needs, k + 1, Capacities(vs), idx'), entry);
    EntriesFillStep(zs, needs, vs, k, left, idx, idx', entry);
    AppendAssoc(built, block, rest);
  }

  /** Before the first zone nothing is built and every record is still to come. */
  lemma FillLoopStart<E>(whole: seq<E>)
    ensures [] + whole == whole
  {
  }

  /** After the last zone no record is left, so what has been built is the whole plan. */
  lemma {:induction false} FillLoopEnd<Z, E>(zs: seq<Z>, needs: seq<int>, vs: seq<Vehicle>, idx: nat,
                                             built: seq<E>, whole: seq<E>, entry: (Z, Vehicle, int) -> E)
    requires |zs| == |needs|
    requires built + Entries(zs, vs, Fill(needs, |zs|, Capacities(vs), idx), entry) == whole
    ensures built == whole
  {
    assert Fill(needs, |zs|, Capacities(vs), idx) == [];
    assert built + [] == built;
  }

  /**
   * The inner `while` keeps "what has been built, followed by the entries still to come for
   * this zone, is the zone's whole block", and "the vehicle index plus the entries still to come
   * is where the zone leaves the index": one vehicle moves one entry from the second part to
   * the first.
   */
  lemma {:induction false} ZoneLoopStep<Z, E>(zone: Z, vs: seq<Vehicle>, left: int, left': int, idx: nat, idx': nat,
                                              built: seq<E>, built': seq<E>, whole: seq<E>, stop: int,
                                              entry: (Z, Vehicle, int) -> E)
    requires left > 0 && idx < |vs|
    requires built + ZoneEntries(zone, vs, left, idx, entry) == whole
    requires idx + |ZoneEntries(zone, vs, left, idx, entry)| == stop
    requires left' == left - Min(left, vs[idx].capacity) && idx' == idx + 1
    requires built' == built + [entry(zone, vs[idx], Min(left, vs[idx].capacity))]
    ensures built' + ZoneEntries(zone, vs, left', idx', entry) == whole
    ensures idx' + |ZoneEntries(zone, vs, left', idx', entry)| == stop
  {
    var rest := ZoneEntries(zone, vs, left', idx', entry);
    ZoneEntriesStep(zone, vs, left, idx, entry);
    AppendAssoc(built, [entry(zone, vs[idx], Min(left, vs[idx].capacity))], rest);
  }

  /** Once nobody is left or the vehicles run out, the zone's block is complete. */
  lemma ZoneLoopEnd<Z, E>(zone: Z, vs: seq<Vehicle>, left: int, idx: nat, built: seq<E>, whole: seq<E>, stop: int,
                          entry: (Z, Vehicle, int) -> E)
    requires !(left > 0 && idx < |vs|) && idx <= |vs|
    requires built + ZoneEntries(zone, vs, left, idx, entry) == whole
    requires idx + |ZoneEntries(zone, vs, left, idx, entry)| == stop
    ensures built == whole && idx == stop
  {
    assert built + [] == built;
  }
}
