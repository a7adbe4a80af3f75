/**
 * The vehicle registry (`VehicleService`): an append-only list of vehicles, each stored with
 * a generated id, and lookup by id. The random id generator is not part of this model; the
 * id it would produce is a parameter.
 */
module VehicleRegistry {
  import opened Wrappers
  import opened Entities

  /** `vehicles.find(vehicle => vehicle.id === id)`: the first vehicle with the id. */
  function FindById(vs: seq<Vehicle>, id: string): (r: Option<Vehicle>)
    ensures r.Some? ==> r.value.id == id && exists i :: 0 <= i < |vs| && vs[i] == r.value && forall j :: 0 <= j < i ==> vs[j].id != id
    ensures r.None? <==> forall j :: 0 <= j < |vs| ==> vs[j].id != id
  {
    if vs == [] then None
    else if vs[0].id == id then Some(vs[0])
    else
      var r := FindById(vs[1..], id);
      assert r.Some? ==> exists i :: 0 <= i < |vs| && vs[i] == r.value && forall j :: 0 <= j < i ==> vs[j].id != id by {
        if r.Some? {
          var i :| 0 <= i < |vs[1..]| && vs[1..][i] == r.value && forall j :: 0 <= j < i ==> vs[1..][j].id != id;
          assert vs[i + 1] == r.value;
          assert forall j :: 0 <= j < i + 1 ==> vs[j].id != id by {
            forall j | 0 < j < i + 1 ensures vs[j].id != id {
              assert vs[j] == vs[1..][j - 1];
            }
          }
        }
      }
      r
  }

  /**
   * Appending a vehicle with a new id makes it the one found by that id; an id already in the
   * list keeps finding the earlier vehicle.
   */
  lemma {:induction false} FindAfterAppend(vs: seq<Vehicle>, w: Vehicle, id: string)
    ensures FindById(vs, id).Some? ==> FindById(vs + [w], id) == FindById(vs, id)
    ensures FindById(vs, id).None? && w.id == id ==> FindById(vs + [w], id) == Some(w)
    ensures w.id == id ==> FindById(vs + [w], id).Some?
  {
    if vs != [] {
      assert (vs + [w])[1..] == vs[1..] + [w];
      if vs[0].id != id {
        FindAfterAppend(vs[1..], w, id);
      }
    }
  }

  class VehicleService {
    var vehicles: seq<Vehicle>

    constructor()
      ensures vehicles == []
    {
      vehicles := [];
    }

    /** `getAllVehicles()`: the stored vehicles, in the order they were added. */
    function GetAllVehicles(): seq<Vehicle>
      reads this
    {
      vehicles
    }

    /** `getVehicleById(id)`. */
    function GetVehicleById(id: string): (r: Option<Vehicle>)
      reads this
      ensures r.Some? ==> r.value.id == id && r.value in vehicles
      ensures r.None? <==> forall v :: v in vehicles ==> v.id != id
    {
      FindById(vehicles, id)
    }

    /**
     * `addVehicle(vehicleData)`: the input with the generated id replacing its own is appended,
     * earlier vehicles are kept, and looking the new id up finds a vehicle with that id.
     */
    method AddVehicle(vehicleData: Vehicle, freshId: string) returns (added: Vehicle)
      modifies this
      ensures added == vehicleData.(id := freshId)
      ensures vehicles == old(vehicles) + [added]
      ensures GetVehicleById(freshId).Some? && GetVehicleById(freshId).value.id == freshId
    {
      added := vehicleData.(id := freshId);
      FindAfterAppend(vehicles, added, freshId);
      vehicles := vehicles + [added];
    }
  }
}
