/** The rental queries: the availability test that guards new bookings and
    the lists of active, per-customer and per-vehicle rentals. */
module RentalRepository {
  import opened Seqs
  import opened Time
  import opened Entities

  /** Two half-open ranges [s1, e1) and [s2, e2) share an instant. */
  predicate RangesOverlap(s1: Instant, e1: Instant, s2: Instant, e2: Instant)
  {
    s1 < e2 && e1 > s2
  }

  /** A rental that keeps `vehicleId` from being booked over
      [startDate, endDate): it is not cancelled and overlaps the range. */
  predicate Blocks(r: Rental, vehicleId: int, startDate: Instant, endDate: Instant)
  {
    r.vehicleId == vehicleId && r.status != RentalStatus.Cancelled
    && RangesOverlap(r.startDate, r.endDate, startDate, endDate)
  }

  /** `IsVehicleAvailableAsync`: no rental blocks the vehicle over the range. */
  function IsVehicleAvailable(rentals: seq<Rental>, vehicleId: int, startDate: Instant, endDate: Instant): (available: bool)
    ensures available <==> forall i :: 0 <= i < |rentals| ==>
      !(rentals[i].vehicleId == vehicleId && rentals[i].status != RentalStatus.Cancelled
        && rentals[i].startDate < endDate && rentals[i].endDate > startDate)
  {
    !Any(rentals, (r: Rental) => Blocks(r, vehicleId, startDate, endDate))
  }

  /** The overlap test does not care which range is the booking. */
  lemma RangesOverlapSymmetric(s1: Instant, e1: Instant, s2: Instant, e2: Instant)
    ensures RangesOverlap(s1, e1, s2, e2) <==> RangesOverlap(s2, e2, s1, e1)
  {
  }

  /** Cancelled rentals never block; reserved, active and completed ones do
      whenever they overlap. */
  lemma OnlyCancelledRentalsNeverBlock(rentals: seq<Rental>, r: Rental, startDate: Instant, endDate: Instant)
    ensures r.status == RentalStatus.Cancelled ==>
      IsVehicleAvailable(rentals + [r], r.vehicleId, startDate, endDate) == IsVehicleAvailable(rentals, r.vehicleId, startDate, endDate)
    ensures r.status != RentalStatus.Cancelled && RangesOverlap(r.startDate, r.endDate, startDate, endDate) ==>
      !IsVehicleAvailable(rentals + [r], r.vehicleId, startDate, endDate)
  {
    assert (rentals + [r])[|rentals|] == r;
    assert forall i :: 0 <= i < |rentals| ==> (rentals + [r])[i] == rentals[i];
  }

  /** Rentals of other vehicles never block. */
  lemma OtherVehiclesNeverBlock(rentals: seq<Rental>, vehicleId: int, startDate: Instant, endDate: Instant)
    ensures IsVehicleAvailable(rentals, vehicleId, startDate, endDate)
      == IsVehicleAvailable(Filter(rentals, (r: Rental) => r.vehicleId == vehicleId), vehicleId, startDate, endDate)
  {
    var mine := Filter(rentals, (r: Rental) => r.vehicleId == vehicleId);
    if IsVehicleAvailable(rentals, vehicleId, startDate, endDate) {
      forall i | 0 <= i < |mine| ensures !Blocks(mine[i], vehicleId, startDate, endDate) {
        assert mine[i] in rentals;
      }
    } else {
      var i :| 0 <= i < |rentals| && Blocks(rentals[i], vehicleId, startDate, endDate);
      assert rentals[i] in mine;
    }
  }

  /** A rental that ends when the range starts, or starts when it ends, does
      not conflict. */
  lemma TouchingRangesDoNotConflict(rentals: seq<Rental>, r: Rental, startDate: Instant, endDate: Instant)
    requires r.endDate == startDate || r.startDate == endDate
    requires startDate <= endDate && r.startDate <= r.endDate
    ensures IsVehicleAvailable(rentals + [r], r.vehicleId, startDate, endDate) == IsVehicleAvailable(rentals, r.vehicleId, startDate, endDate)
  {
    assert (rentals + [r])[|rentals|] == r;
    assert forall i :: 0 <= i < |rentals| ==> (rentals + [r])[i] == rentals[i];
  }

  /** Adding a rental can only take availability away. */
  lemma AddingRentalOnlyRemovesAvailability(rentals: seq<Rental>, r: Rental, vehicleId: int, startDate: Instant, endDate: Instant)
    ensures IsVehicleAvailable(rentals + [r], vehicleId, startDate, endDate) ==> IsVehicleAvailable(rentals, vehicleId, startDate, endDate)
  {
    assert forall i :: 0 <= i < |rentals| ==> (rentals + [r])[i] == rentals[i];
  }

  /** Cancelling a rental can only give availability back. */
  lemma CancellingRentalOnlyRestoresAvailability(rentals: seq<Rental>, k: nat, vehicleId: int, startDate: Instant, endDate: Instant)
    requires k < |rentals|
    ensures IsVehicleAvailable(rentals, vehicleId, startDate, endDate)
      ==> IsVehicleAvailable(rentals[k := rentals[k].(status := RentalStatus.Cancelled)], vehicleId, startDate, endDate)
  {
  }

  /** `GetActiveRentalsAsync`: exactly the active rentals, in table order. */
  function GetActiveRentals(rentals: seq<Rental>): (active: seq<Rental>)
    ensures forall r :: r in active ==> r in rentals && r.status == RentalStatus.Active
    ensures forall r :: r in rentals && r.status == RentalStatus.Active ==> r in active
    ensures forall r :: multiset(active)[r] == if r.status == RentalStatus.Active then multiset(rentals)[r] else 0
  {
    var isActive := (r: Rental) => r.status == RentalStatus.Active;
    FilterMultiplicity(rentals, isActive);
    Filter(rentals, isActive)
  }

  function StartKey(r: Rental): real { r.startDate as real }

  /** The rentals of one customer, in list order. */
  function OfCustomer(rentals: seq<Rental>, customerId: int): seq<Rental>
  {
    Filter(rentals, (r: Rental) => r.customerId == customerId)
  }

  /** `GetRentalsByCustomerAsync`: exactly that customer's rentals, each as
      often as it is stored, latest start first. */
  function GetRentalsByCustomer(rentals: seq<Rental>, customerId: int): (result: seq<Rental>)
    ensures forall r :: r in result ==> r in rentals && r.customerId == customerId
    ensures forall r :: r in rentals && r.customerId == customerId ==> r in result
    ensures forall i, j :: 0 <= i < j < |result| ==> result[i].startDate >= result[j].startDate
    ensures multiset(result) == multiset(OfCustomer(rentals, customerId))
  {
    var mine := OfCustomer(rentals, customerId);
    var sorted := SortDesc(mine, StartKey);
    SameMembers(sorted, mine);
    assert forall i, j :: 0 <= i < j < |sorted| ==> StartKey(sorted[i]) >= StartKey(sorted[j]);
    sorted
  }

  /** The rentals of one vehicle, in list order. */
  function OfVehicle(rentals: seq<Rental>, vehicleId: int): seq<Rental>
  {
    Filter(rentals, (r: Rental) => r.vehicleId == vehicleId)
  }

  /** `GetRentalsByVehicleAsync`: exactly that vehicle's rentals, each as
      often as it is stored, latest start first. */
  function GetRentalsByVehicle(rentals: seq<Rental>, vehicleId: int): (result: seq<Rental>)
    ensures forall r :: r in result ==> r in rentals && r.vehicleId == vehicleId
    ensures forall r :: r in rentals && r.vehicleId == vehicleId ==> r in result
    ensures forall i, j :: 0 <= i < j < |result| ==> result[i].startDate >= result[j].startDate
    ensures multiset(result) == multiset(OfVehicle(rentals, vehicleId))
  {
    var mine := OfVehicle(rentals, vehicleId);
    var sorted := SortDesc(mine, StartKey);
    SameMembers(sorted, mine);
    assert forall i, j :: 0 <= i < j < |sorted| ==> StartKey(sorted[i]) >= StartKey(sorted[j]);
    sorted
  }

  /** A vehicle is available over a range exactly when its own rental list
      holds nothing blocking it. */
  lemma AvailabilityFromVehicleList(rentals: seq<Rental>, vehicleId: int, startDate: Instant, endDate: Instant)
    ensures IsVehicleAvailable(rentals, vehicleId, startDate, endDate)
      <==> forall r :: r in GetRentalsByVehicle(rentals, vehicleId) ==> !Blocks(r, vehicleId, startDate, endDate)
  {
    var list := GetRentalsByVehicle(rentals, vehicleId);
    if !IsVehicleAvailable(rentals, vehicleId, startDate, endDate) {
      var i :| 0 <= i < |rentals| && Blocks(rentals[i], vehicleId, startDate, endDate);
      assert rentals[i] in list;
    }
  }
}
