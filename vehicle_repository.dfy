/** The vehicle queries: the fleet available over a date range, and the
    fleet by status and by category. */
module VehicleRepository {
  import opened Seqs
  import opened Time
  import opened Entities
  import RentalRepository

  /** An active rental of the vehicle that overlaps the range. */
  predicate ActiveOverlap(r: Rental, vehicleId: int, startDate: Instant, endDate: Instant)
  {
    r.vehicleId == vehicleId && r.status == RentalStatus.Active
    && r.startDate < endDate && r.endDate > startDate
  }

  /** No active rental of the vehicle overlaps the range. */
  ghost predicate NoActiveOverlap(rentals: seq<Rental>, vehicleId: int, startDate: Instant, endDate: Instant)
  {
    forall r :: r in rentals && r.vehicleId == vehicleId && r.status == RentalStatus.Active
      ==> !(r.startDate < endDate && r.endDate > startDate)
  }

  /** Listed as available: status Available and no active rental over the
      range. */
  predicate Listable(v: Vehicle, rentals: seq<Rental>, startDate: Instant, endDate: Instant)
  {
    v.status == VehicleStatus.Available
    && !Any(rentals, (r: Rental) => ActiveOverlap(r, v.id, startDate, endDate))
  }

  /** `GetAvailableVehiclesAsync`: exactly the vehicles in Available status
      with no active rental overlapping [startDate, endDate), in table
      order. A vehicle's rentals are the rentals carrying its id. */
  function GetAvailableVehicles(vehicles: seq<Vehicle>, rentals: seq<Rental>, startDate: Instant, endDate: Instant): (result: seq<Vehicle>)
    ensures forall v :: v in result ==> v in vehicles && v.status == VehicleStatus.Available
    ensures forall v :: v in result ==> NoActiveOverlap(rentals, v.id, startDate, endDate)
    ensures forall v :: v in vehicles && v.status == VehicleStatus.Available && NoActiveOverlap(rentals, v.id, startDate, endDate)
              ==> v in result
    ensures forall v :: multiset(result)[v] == if Listable(v, rentals, startDate, endDate) then multiset(vehicles)[v] else 0
  {
    var listable := (v: Vehicle) => Listable(v, rentals, startDate, endDate);
    FilterMultiplicity(vehicles, listable);
    Filter(vehicles, listable)
  }

  /** `GetVehiclesByStatusAsync`. */
  function GetVehiclesByStatus(vehicles: seq<Vehicle>, status: VehicleStatus): (result: seq<Vehicle>)
    ensures forall v :: v in result ==> v in vehicles && v.status == status
    ensures forall v :: v in vehicles && v.status == status ==> v in result
    ensures forall v :: multiset(result)[v] == if v.status == status then multiset(vehicles)[v] else 0
  {
    var hasStatus := (v: Vehicle) => v.status == status;
    FilterMultiplicity(vehicles, hasStatus);
    Filter(vehicles, hasStatus)
  }

  /** `GetVehiclesByCategoryAsync`. */
  function GetVehiclesByCategory(vehicles: seq<Vehicle>, category: VehicleCategory): (result: seq<Vehicle>)
    ensures forall v :: v in result ==> v in vehicles && v.category == category
    ensures forall v :: v in vehicles && v.category == category ==> v in result
    ensures forall v :: multiset(result)[v] == if v.category == category then multiset(vehicles)[v] else 0
  {
    var inCategory := (v: Vehicle) => v.category == category;
    FilterMultiplicity(vehicles, inCategory);
    Filter(vehicles, inCategory)
  }

  /** A vehicle in Available status that the booking test finds free is
      listed as available. */
  lemma BookableImpliesListed(vehicles: seq<Vehicle>, rentals: seq<Rental>, v: Vehicle, startDate: Instant, endDate: Instant)
    requires v in vehicles && v.status == VehicleStatus.Available
    requires RentalRepository.IsVehicleAvailable(rentals, v.id, startDate, endDate)
    ensures v in GetAvailableVehicles(vehicles, rentals, startDate, endDate)
  {
    forall r | r in rentals && r.vehicleId == v.id && r.status == RentalStatus.Active
      ensures !(r.startDate < endDate && r.endDate > startDate)
    {
      var i :| 0 <= i < |rentals| && rentals[i] == r;
    }
  }

  /** The converse fails: only active rentals hide a vehicle from the list,
      so a vehicle with a reservation over the range is listed as available
      yet cannot be booked. */
  lemma ListedDoesNotImplyBookable()
    ensures var v := Vehicle(1, "Toyota", "Corolla", VehicleCategory.Compact, 50.0, VehicleStatus.Available, 0);
            var r := Rental(1, 7, 1, 0, 3 * TicksPerDay, Wrappers.None, 150.0, RentalStatus.Reserved, Wrappers.Some(0), Wrappers.None, 0);
            v in GetAvailableVehicles([v], [r], TicksPerDay, 2 * TicksPerDay)
            && !RentalRepository.IsVehicleAvailable([r], v.id, TicksPerDay, 2 * TicksPerDay)
  {
    var v := Vehicle(1, "Toyota", "Corolla", VehicleCategory.Compact, 50.0, VehicleStatus.Available, 0);
    var r := Rental(1, 7, 1, 0, 3 * TicksPerDay, Wrappers.None, 150.0, RentalStatus.Reserved, Wrappers.Some(0), Wrappers.None, 0);
    assert Listable(v, [r], TicksPerDay, 2 * TicksPerDay);
    assert [v][0] == v;
  }

  /** Vehicles reserved, rented, in maintenance or retired are never listed,
      whatever the rentals. */
  lemma OnlyAvailableStatusListed(vehicles: seq<Vehicle>, rentals: seq<Rental>, v: Vehicle, startDate: Instant, endDate: Instant)
    requires v.status != VehicleStatus.Available
    ensures v !in GetAvailableVehicles(vehicles, rentals, startDate, endDate)
  {
  }

  /** The available list is the Available-status list with the vehicles that
      have an overlapping active rental removed. */
  lemma AvailableRefinesByStatus(vehicles: seq<Vehicle>, rentals: seq<Rental>, startDate: Instant, endDate: Instant)
    ensures GetAvailableVehicles(vehicles, rentals, startDate, endDate)
      == Filter(GetVehiclesByStatus(vehicles, VehicleStatus.Available),
                (v: Vehicle) => !Any(rentals, (r: Rental) => ActiveOverlap(r, v.id, startDate, endDate)))
  {
    FilterFilter(vehicles, (v: Vehicle) => v.status == VehicleStatus.Available,
      (v: Vehicle) => !Any(rentals, (r: Rental) => ActiveOverlap(r, v.id, startDate, endDate)),
      (v: Vehicle) => Listable(v, rentals, startDate, endDate));
  }
}
