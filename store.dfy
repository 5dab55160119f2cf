/** The database as the services and controllers see it through the unit of
    work: one table per entity, the next identity value of each table the
    model adds to, and the number of commits. */
module Store {
  import opened Wrappers
  import opened Seqs
  import opened Entities

  /** `GetByIdAsync` on the vehicle table: the position of the vehicle with
      that id. */
  function VehicleIndex(vehicles: seq<Vehicle>, id: int): (k: Option<nat>)
    ensures k.Some? ==> k.value < |vehicles| && vehicles[k.value].id == id
    ensures k.Some? ==> forall j :: 0 <= j < k.value ==> vehicles[j].id != id
    ensures k.None? <==> forall j :: 0 <= j < |vehicles| ==> vehicles[j].id != id
  {
    FirstIndex(vehicles, (v: Vehicle) => v.id == id)
  }

  function CustomerIndex(customers: seq<Renter>, id: int): (k: Option<nat>)
    ensures k.Some? ==> k.value < |customers| && customers[k.value].id == id
    ensures k.None? <==> forall j :: 0 <= j < |customers| ==> customers[j].id != id
  {
    FirstIndex(customers, (c: Renter) => c.id == id)
  }

  function RentalIndex(rentals: seq<Rental>, id: int): (k: Option<nat>)
    ensures k.Some? ==> k.value < |rentals| && rentals[k.value].id == id
    ensures k.Some? ==> forall j :: 0 <= j < k.value ==> rentals[j].id != id
    ensures k.None? <==> forall j :: 0 <= j < |rentals| ==> rentals[j].id != id
  {
    FirstIndex(rentals, (r: Rental) => r.id == id)
  }

  function MaintenanceIndex(maintenances: seq<Maintenance>, id: int): (k: Option<nat>)
    ensures k.Some? ==> k.value < |maintenances| && maintenances[k.value].id == id
    ensures k.Some? ==> forall j :: 0 <= j < k.value ==> maintenances[j].id != id
    ensures k.None? <==> forall j :: 0 <= j < |maintenances| ==> maintenances[j].id != id
  {
    FirstIndex(maintenances, (m: Maintenance) => m.id == id)
  }

  function DamageIndex(damages: seq<VehicleDamage>, id: int): (k: Option<nat>)
    ensures k.Some? ==> k.value < |damages| && damages[k.value].id == id
    ensures k.Some? ==> forall j :: 0 <= j < k.value ==> damages[j].id != id
    ensures k.None? <==> forall j :: 0 <= j < |damages| ==> damages[j].id != id
  {
    FirstIndex(damages, (d: VehicleDamage) => d.id == id)
  }

  /** Replacing a vehicle by one with the same id moves no lookup. */
  lemma {:induction false} VehicleIndexAfterUpdate(vehicles: seq<Vehicle>, k: nat, v: Vehicle)
    requires k < |vehicles| && v.id == vehicles[k].id
    ensures forall id :: VehicleIndex(vehicles[k := v], id) == VehicleIndex(vehicles, id)
  {
    forall id ensures VehicleIndex(vehicles[k := v], id) == VehicleIndex(vehicles, id) {
      FirstIndexAgree(vehicles[k := v], vehicles, (x: Vehicle) => x.id == id, (x: Vehicle) => x.id == id);
    }
  }

  /** Appending a record with a fresh id leaves every earlier lookup where
      it was and finds the new record at the end. */
  lemma {:induction false} RentalIndexAfterAppend(rentals: seq<Rental>, r: Rental)
    requires forall j :: 0 <= j < |rentals| ==> rentals[j].id != r.id
    ensures RentalIndex(rentals + [r], r.id) == Some(|rentals|)
    ensures forall id :: RentalIndex(rentals, id).Some? ==> RentalIndex(rentals + [r], id) == RentalIndex(rentals, id)
  {
    var s := rentals + [r];
    assert s[|rentals|] == r;
    forall id | RentalIndex(rentals, id).Some?
      ensures RentalIndex(s, id) == RentalIndex(rentals, id)
    {
      var k := RentalIndex(rentals, id).value;
      assert s[k] == rentals[k];
      assert forall j :: 0 <= j < k ==> s[j] == rentals[j];
    }
  }

  /** The tables and the unit of work over them. */
  class Database {
    var vehicles: seq<Vehicle>
    var customers: seq<Renter>
    var rentals: seq<Rental>
    var maintenances: seq<Maintenance>
    var damages: seq<VehicleDamage>
    var nextRentalId: int
    var nextMaintenanceId: int
    var nextDamageId: int
    /** How many times `CommitAsync` ran. */
    var commits: nat

    /** Identity values handed out so far lie below the next one, and every
        record's vehicle is in the vehicle table (the foreign keys hold). */
    ghost predicate Valid()
      reads this
    {
      (forall r :: r in rentals ==> r.id < nextRentalId && VehicleIndex(vehicles, r.vehicleId).Some?)
      && (forall m :: m in maintenances ==> m.id < nextMaintenanceId && VehicleIndex(vehicles, m.vehicleId).Some?)
      && (forall d :: d in damages ==> d.id < nextDamageId && VehicleIndex(vehicles, d.vehicleId).Some?)
    }

    /** A database over the given fleet and customers with no rentals,
        maintenance records or damages yet. */
    constructor (vehicles: seq<Vehicle>, customers: seq<Renter>)
      ensures Valid()
      ensures this.vehicles == vehicles && this.customers == customers
      ensures rentals == [] && maintenances == [] && damages == []
      ensures commits == 0
    {
      this.vehicles := vehicles;
      this.customers := customers;
      rentals := [];
      maintenances := [];
      damages := [];
      nextRentalId := 1;
      nextMaintenanceId := 1;
      nextDamageId := 1;
      commits := 0;
    }

    /** `Update(vehicle)` for the vehicle at position `k`, keeping its id. */
    method UpdateVehicleAt(k: nat, v: Vehicle)
      requires Valid()
      requires k < |vehicles| && v.id == vehicles[k].id
      modifies this
      ensures Valid()
      ensures vehicles == old(vehicles)[k := v]
      ensures customers == old(customers) && rentals == old(rentals)
      ensures maintenances == old(maintenances) && damages == old(damages)
      ensures nextRentalId == old(nextRentalId) && nextMaintenanceId == old(nextMaintenanceId)
      ensures nextDamageId == old(nextDamageId) && commits == old(commits)
    {
      VehicleIndexAfterUpdate(vehicles, k, v);
      vehicles := vehicles[k := v];
    }

    /** `AddAsync(rental)` with the next identity value. */
    method AddRental(r: Rental)
      requires Valid()
      requires r.id == nextRentalId && VehicleIndex(vehicles, r.vehicleId).Some?
      modifies this
      ensures Valid()
      ensures rentals == old(rentals) + [r] && nextRentalId == old(nextRentalId) + 1
      ensures RentalIndex(rentals, r.id) == Some(|old(rentals)|)
      ensures vehicles == old(vehicles) && customers == old(customers)
      ensures maintenances == old(maintenances) && damages == old(damages)
      ensures nextMaintenanceId == old(nextMaintenanceId) && nextDamageId == old(nextDamageId)
      ensures commits == old(commits)
    {
      forall j | 0 <= j < |rentals| ensures rentals[j].id != r.id {
        assert rentals[j] in rentals;
      }
      RentalIndexAfterAppend(rentals, r);
      rentals := rentals + [r];
      nextRentalId := nextRentalId + 1;
    }

    /** `Update(rental)` for the rental at position `k`, keeping its id and
        vehicle. */
    method UpdateRentalAt(k: nat, r: Rental)
      requires Valid()
      requires k < |rentals| && r.id == rentals[k].id && r.vehicleId == rentals[k].vehicleId
      modifies this
      ensures Valid()
      ensures rentals == old(rentals)[k := r]
      ensures vehicles == old(vehicles) && customers == old(customers)
      ensures maintenances == old(maintenances) && damages == old(damages)
      ensures nextRentalId == old(nextRentalId) && nextMaintenanceId == old(nextMaintenanceId)
      ensures nextDamageId == old(nextDamageId) && commits == old(commits)
    {
      assert rentals[k] in rentals;
      rentals := rentals[k := r];
    }

    /** `AddAsync(maintenance)` with the next identity value. */
    method AddMaintenance(m: Maintenance)
      requires Valid()
      requires m.id == nextMaintenanceId && VehicleIndex(vehicles, m.vehicleId).Some?
      modifies this
      ensures Valid()
      ensures maintenances == old(maintenances) + [m] && nextMaintenanceId == old(nextMaintenanceId) + 1
      ensures vehicles == old(vehicles) && customers == old(customers)
      ensures rentals == old(rentals) && damages == old(damages)
      ensures nextRentalId == old(nextRentalId) && nextDamageId == old(nextDamageId)
      ensures commits == old(commits)
    {
      maintenances := maintenances + [m];
      nextMaintenanceId := nextMaintenanceId + 1;
    }

    /** `Update(maintenance)` for the record at position `k`, keeping its id
        and vehicle. */
    method UpdateMaintenanceAt(k: nat, m: Maintenance)
      requires Valid()
      requires k < |maintenances| && m.id == maintenances[k].id && m.vehicleId == maintenances[k].vehicleId
      modifies this
      ensures Valid()
      ensures maintenances == old(maintenances)[k := m]
      ensures vehicles == old(vehicles) && customers == old(customers)
      ensures rentals == old(rentals) && damages == old(damages)
      ensures nextRentalId == old(nextRentalId) && nextMaintenanceId == old(nextMaintenanceId)
      ensures nextDamageId == old(nextDamageId) && commits == old(commits)
    {
      assert maintenances[k] in maintenances;
      maintenances := maintenances[k := m];
    }

    /** `Remove(maintenance)` for the record at position `k`. */
    method RemoveMaintenanceAt(k: nat)
      requires Valid()
      requires k < |maintenances|
      modifies this
      ensures Valid()
      ensures maintenances == old(maintenances)[..k] + old(maintenances)[k + 1..]
      ensures vehicles == old(vehicles) && customers == old(customers)
      ensures rentals == old(rentals) && damages == old(damages)
      ensures nextRentalId == old(nextRentalId) && nextMaintenanceId == old(nextMaintenanceId)
      ensures nextDamageId == old(nextDamageId) && commits == old(commits)
    {
      assert forall m :: m in maintenances[..k] + maintenances[k + 1..] ==> m in maintenances;
      maintenances := maintenances[..k] + maintenances[k + 1..];
    }

    /** `AddAsync(damage)` with the next identity value. */
    method AddDamage(d: VehicleDamage)
      requires Valid()
      requires d.id == nextDamageId && VehicleIndex(vehicles, d.vehicleId).Some?
      modifies this
      ensures Valid()
      ensures damages == old(damages) + [d] && nextDamageId == old(nextDamageId) + 1
      ensures vehicles == old(vehicles) && customers == old(customers)
      ensures rentals == old(rentals) && maintenances == old(maintenances)
      ensures nextRentalId == old(nextRentalId) && nextMaintenanceId == old(nextMaintenanceId)
      ensures commits == old(commits)
    {
      damages := damages + [d];
      nextDamageId := nextDamageId + 1;
    }

    /** `Update(damage)` for the record at position `k`, keeping its id and
        vehicle. */
    method UpdateDamageAt(k: nat, d: VehicleDamage)
      requires Valid()
      requires k < |damages| && d.id == damages[k].id && d.vehicleId == damages[k].vehicleId
      modifies this
      ensures Valid()
      ensures damages == old(damages)[k := d]
      ensures vehicles == old(vehicles) && customers == old(customers)
      ensures rentals == old(rentals) && maintenances == old(maintenances)
      ensures nextRentalId == old(nextRentalId) && nextMaintenanceId == old(nextMaintenanceId)
      ensures nextDamageId == old(nextDamageId) && commits == old(commits)
    {
      assert damages[k] in damages;
      damages := damages[k := d];
    }

    /** `Remove(damage)` for the record at position `k`. */
    method RemoveDamageAt(k: nat)
      requires Valid()
      requires k < |damages|
      modifies this
      ensures Valid()
      ensures damages == old(damages)[..k] + old(damages)[k + 1..]
      ensures vehicles == old(vehicles) && customers == old(customers)
      ensures rentals == old(rentals) && maintenances == old(maintenances)
      ensures nextRentalId == old(nextRentalId) && nextMaintenanceId == old(nextMaintenanceId)
      ensures nextDamageId == old(nextDamageId) && commits == old(commits)
    {
      assert forall d :: d in damages[..k] + damages[k + 1..] ==> d in damages;
      damages := damages[..k] + damages[k + 1..];
    }

    /** `CommitAsync`. */
    method Commit()
      requires Valid()
      modifies this
      ensures Valid()
      ensures commits == old(commits) + 1
      ensures vehicles == old(vehicles) && customers == old(customers) && rentals == old(rentals)
      ensures maintenances == old(maintenances) && damages == old(damages)
      ensures nextRentalId == old(nextRentalId) && nextMaintenanceId == old(nextMaintenanceId)
      ensures nextDamageId == old(nextDamageId)
    {
      commits := commits + 1;
    }
  }
}
