/** The rental service: booking a vehicle, completing and cancelling a
    rental, and quoting a price. Exceptions become `Failure` results. */
module RentalService {
  import opened Wrappers
  import opened Time
  import opened Entities
  import opened Store
  import Pricing
  import PricingStrategyFactory
  import RentalRepository

  /** The exception a service call throws: `InvalidOperationException` or
      `ArgumentException`, with its message. */
  datatype ServiceError = InvalidOperation(message: string) | Argument(message: string)

  const NotAvailableMessage := "Vehicle is not available for the selected dates."
  const VehicleNotFoundMessage := "Vehicle not found."
  const CustomerNotFoundMessage := "Customer not found."
  const RentalNotFoundMessage := "Rental not found."

  /** No two non-cancelled rentals of one vehicle overlap. */
  ghost predicate NoDoubleBooking(rentals: seq<Rental>)
  {
    forall i, j :: 0 <= i < |rentals| && 0 <= j < |rentals| && i != j && rentals[i].status != RentalStatus.Cancelled ==>
      !RentalRepository.Blocks(rentals[j], rentals[i].vehicleId, rentals[i].startDate, rentals[i].endDate)
  }

  /** The rental a successful booking records. */
  function NewRental(id: int, customerId: int, vehicle: Vehicle, startDate: Instant, endDate: Instant, price: real, now: Instant): (r: Rental)
    ensures r.status == RentalStatus.Reserved && r.vehicleId == vehicle.id && r.customerId == customerId
    ensures r.startMileage == Some(vehicle.mileage) && r.endMileage.None? && r.actualReturnDate.None?
  {
    Rental(id, customerId, vehicle.id, startDate, endDate, None, price, RentalStatus.Reserved, Some(vehicle.mileage), None, now)
  }

  /** The rental as completing it leaves it. */
  function Completed(r: Rental, endMileage: int, now: Instant): (c: Rental)
    ensures c.status == RentalStatus.Completed && c.endMileage == Some(endMileage) && c.actualReturnDate == Some(now)
    ensures c.(status := r.status, endMileage := r.endMileage, actualReturnDate := r.actualReturnDate) == r
  {
    r.(status := RentalStatus.Completed, actualReturnDate := Some(now), endMileage := Some(endMileage))
  }

  /** A booking that passed the availability test keeps the table free of
      double bookings. */
  lemma BookingPreservesNoDoubleBooking(rentals: seq<Rental>, r: Rental)
    requires NoDoubleBooking(rentals)
    requires RentalRepository.IsVehicleAvailable(rentals, r.vehicleId, r.startDate, r.endDate)
    ensures NoDoubleBooking(rentals + [r])
  {
    var s := rentals + [r];
    forall i, j | 0 <= i < |s| && 0 <= j < |s| && i != j && s[i].status != RentalStatus.Cancelled
      ensures !RentalRepository.Blocks(s[j], s[i].vehicleId, s[i].startDate, s[i].endDate)
    {
      if i == |rentals| {
        assert s[j] == rentals[j];
      } else if j == |rentals| {
        assert s[i] == rentals[i];
      } else {
        assert s[i] == rentals[i] && s[j] == rentals[j];
      }
    }
  }

  /** Cancelling a rental keeps the table free of double bookings. */
  lemma CancellingPreservesNoDoubleBooking(rentals: seq<Rental>, k: nat)
    requires k < |rentals| && NoDoubleBooking(rentals)
    ensures NoDoubleBooking(rentals[k := rentals[k].(status := RentalStatus.Cancelled)])
  {
  }

  /** Completing a rental that is not cancelled keeps the table free of
      double bookings. */
  lemma CompletingPreservesNoDoubleBooking(rentals: seq<Rental>, k: nat, endMileage: int, now: Instant)
    requires k < |rentals| && NoDoubleBooking(rentals)
    requires rentals[k].status != RentalStatus.Cancelled
    ensures NoDoubleBooking(rentals[k := Completed(rentals[k], endMileage, now)])
  {
  }

  /** Completing has no status guard, so it revives a cancelled rental: a
      rental cancelled and then re-booked by someone else ends up doubly
      booked once the cancelled one is completed. */
  lemma CompletingCancelledRentalCanDoubleBook()
    ensures var old1 := Rental(1, 10, 5, 0, 3 * TicksPerDay, None, 150.0, RentalStatus.Cancelled, Some(0), None, 0);
            var new2 := Rental(2, 20, 5, 0, 3 * TicksPerDay, None, 150.0, RentalStatus.Reserved, Some(0), None, 0);
            NoDoubleBooking([old1, new2])
            && !NoDoubleBooking([old1, new2][0 := Completed(old1, 100, 0)])
  {
    var old1 := Rental(1, 10, 5, 0, 3 * TicksPerDay, None, 150.0, RentalStatus.Cancelled, Some(0), None, 0);
    var new2 := Rental(2, 20, 5, 0, 3 * TicksPerDay, None, 150.0, RentalStatus.Reserved, Some(0), None, 0);
    var after := [old1, new2][0 := Completed(old1, 100, 0)];
    assert after[0].status == RentalStatus.Completed && after[1] == new2;
  }

  /** `CalculatePriceAsync`: the price the named strategy quotes for the
      vehicle's daily rate and the customer's tier. It writes nothing. */
  method CalculatePrice(db: Database, vehicleId: int, customerId: int, startDate: Instant, endDate: Instant, pricingStrategy: string)
    returns (result: Result<real, ServiceError>)
    ensures VehicleIndex(db.vehicles, vehicleId).None? ==> result == Failure(Argument(VehicleNotFoundMessage))
    ensures VehicleIndex(db.vehicles, vehicleId).Some? && CustomerIndex(db.customers, customerId).None? ==>
                  result == Failure(Argument(CustomerNotFoundMessage))
    ensures result.Success? <==> VehicleIndex(db.vehicles, vehicleId).Some? && CustomerIndex(db.customers, customerId).Some?
    ensures result.Success? ==>
              var vehicle := db.vehicles[VehicleIndex(db.vehicles, vehicleId).value];
              var customer := db.customers[CustomerIndex(db.customers, customerId).value];
              result.value == Pricing.Price(PricingStrategyFactory.CreateStrategy(pricingStrategy), vehicle.dailyRate, startDate, endDate, customer.tier)
  {
    var vk := VehicleIndex(db.vehicles, vehicleId);
    if vk.None? {
      return Failure(Argument(VehicleNotFoundMessage));
    }
    var ck := CustomerIndex(db.customers, customerId);
    if ck.None? {
      return Failure(Argument(CustomerNotFoundMessage));
    }
    var strategy := PricingStrategyFactory.CreateStrategy(pricingStrategy);
    var price := Pricing.CalculatePrice(strategy, db.vehicles[vk.value].dailyRate, startDate, endDate, db.customers[ck.value].tier);
    return Success(price);
  }

  /** `CreateRentalAsync`: checks availability, then the vehicle, then the
      customer; on success records a reserved rental priced by the named
      strategy, marks the vehicle Rented whatever its status, and commits
      once. A failure writes nothing. */
  method CreateRental(db: Database, customerId: int, vehicleId: int, startDate: Instant, endDate: Instant, pricingStrategy: string, now: Instant)
    returns (result: Result<Rental, ServiceError>)
    requires db.Valid()
    modifies db
    ensures db.Valid()
    ensures db.nextRentalId == old(db.nextRentalId) + (if result.Success? then 1 else 0)
    ensures db.nextMaintenanceId == old(db.nextMaintenanceId) && db.nextDamageId == old(db.nextDamageId)
    ensures !RentalRepository.IsVehicleAvailable(old(db.rentals), vehicleId, startDate, endDate) ==>
                  result == Failure(InvalidOperation(NotAvailableMessage))
    ensures RentalRepository.IsVehicleAvailable(old(db.rentals), vehicleId, startDate, endDate)
              && VehicleIndex(old(db.vehicles), vehicleId).None? ==>
                  result == Failure(Argument(VehicleNotFoundMessage))
    ensures RentalRepository.IsVehicleAvailable(old(db.rentals), vehicleId, startDate, endDate)
              && VehicleIndex(old(db.vehicles), vehicleId).Some? && CustomerIndex(old(db.customers), customerId).None? ==>
                  result == Failure(Argument(CustomerNotFoundMessage))
    ensures result.Success? <==> (RentalRepository.IsVehicleAvailable(old(db.rentals), vehicleId, startDate, endDate)
              && VehicleIndex(old(db.vehicles), vehicleId).Some? && CustomerIndex(old(db.customers), customerId).Some?)
    ensures result.Failure? ==> unchanged(db)
    ensures result.Success? ==>
              var k := VehicleIndex(old(db.vehicles), vehicleId).value;
              var vehicle := old(db.vehicles)[k];
              var customer := old(db.customers)[CustomerIndex(old(db.customers), customerId).value];
              var price := Pricing.Price(PricingStrategyFactory.CreateStrategy(pricingStrategy), vehicle.dailyRate, startDate, endDate, customer.tier);
              result.value == NewRental(old(db.nextRentalId), customerId, vehicle, startDate, endDate, price, now)
              && result.value.startDate == startDate && result.value.endDate == endDate && result.value.totalCost == price
              && db.rentals == old(db.rentals) + [result.value]
              && db.vehicles == old(db.vehicles)[k := vehicle.(status := VehicleStatus.Rented)]
              && RentalIndex(db.rentals, result.value.id) == Some(|old(db.rentals)|)
              && db.commits == old(db.commits) + 1
    ensures result.Success? ==>
              db.customers == old(db.customers) && db.maintenances == old(db.maintenances) && db.damages == old(db.damages)
    ensures result.Success? && startDate < endDate ==>
                  !RentalRepository.IsVehicleAvailable(db.rentals, vehicleId, startDate, endDate)
    ensures NoDoubleBooking(old(db.rentals)) ==> NoDoubleBooking(db.rentals)
  {
    if !RentalRepository.IsVehicleAvailable(db.rentals, vehicleId, startDate, endDate) {
      return Failure(InvalidOperation(NotAvailableMessage));
    }
    var vk := VehicleIndex(db.vehicles, vehicleId);
    if vk.None? {
      return Failure(Argument(VehicleNotFoundMessage));
    }
    var ck := CustomerIndex(db.customers, customerId);
    if ck.None? {
      return Failure(Argument(CustomerNotFoundMessage));
    }
    var quote := CalculatePrice(db, vehicleId, customerId, startDate, endDate, pricingStrategy);
    var vehicle := db.vehicles[vk.value];
    var rental := NewRental(db.nextRentalId, customerId, vehicle, startDate, endDate, quote.value, now);
    if NoDoubleBooking(db.rentals) {
      BookingPreservesNoDoubleBooking(db.rentals, rental);
    }
    RentalRepository.OnlyCancelledRentalsNeverBlock(db.rentals, rental, startDate, endDate);
    db.AddRental(rental);
    db.UpdateVehicleAt(vk.value, vehicle.(status := VehicleStatus.Rented));
    db.Commit();
    return Success(rental);
  }

  /** `CompleteRentalAsync`: any rental, whatever its status, becomes
      Completed with the return time and end mileage; its vehicle becomes
      Available with that mileage, with no check against the start
      mileage. A missing rental writes nothing. */
  method CompleteRental(db: Database, rentalId: int, endMileage: int, now: Instant)
    returns (result: Result<Rental, ServiceError>)
    requires db.Valid()
    modifies db
    ensures db.Valid()
    ensures db.nextRentalId == old(db.nextRentalId) && db.nextMaintenanceId == old(db.nextMaintenanceId) && db.nextDamageId == old(db.nextDamageId)
    ensures RentalIndex(old(db.rentals), rentalId).None? <==> result.Failure?
    ensures result.Failure? ==> result.error == Argument(RentalNotFoundMessage) && unchanged(db)
    ensures result.Success? ==>
              var k := RentalIndex(old(db.rentals), rentalId).value;
              var rental := old(db.rentals)[k];
              var j := VehicleIndex(old(db.vehicles), rental.vehicleId).value;
              result.value == Completed(rental, endMileage, now)
              && db.rentals == old(db.rentals)[k := result.value]
              && db.vehicles == old(db.vehicles)[j := old(db.vehicles)[j].(status := VehicleStatus.Available, mileage := endMileage)]
              && db.commits == old(db.commits) + 1
    ensures db.customers == old(db.customers) && db.maintenances == old(db.maintenances) && db.damages == old(db.damages)
  {
    var rk := RentalIndex(db.rentals, rentalId);
    if rk.None? {
      return Failure(Argument(RentalNotFoundMessage));
    }
    var k := rk.value;
    var rental := Completed(db.rentals[k], endMileage, now);
    assert db.rentals[k] in db.rentals;
    var j := VehicleIndex(db.vehicles, rental.vehicleId).value;
    db.UpdateRentalAt(k, rental);
    db.UpdateVehicleAt(j, db.vehicles[j].(status := VehicleStatus.Available, mileage := endMileage));
    db.Commit();
    return Success(rental);
  }

  /** `CancelRentalAsync`: the rental becomes Cancelled whatever its status,
      and its vehicle becomes Available whatever its status. A missing
      rental writes nothing. */
  method CancelRental(db: Database, rentalId: int)
    returns (result: Result<Rental, ServiceError>)
    requires db.Valid()
    modifies db
    ensures db.Valid()
    ensures db.nextRentalId == old(db.nextRentalId) && db.nextMaintenanceId == old(db.nextMaintenanceId) && db.nextDamageId == old(db.nextDamageId)
    ensures RentalIndex(old(db.rentals), rentalId).None? <==> result.Failure?
    ensures result.Failure? ==> result.error == Argument(RentalNotFoundMessage) && unchanged(db)
    ensures result.Success? ==>
              var k := RentalIndex(old(db.rentals), rentalId).value;
              var rental := old(db.rentals)[k];
              var j := VehicleIndex(old(db.vehicles), rental.vehicleId).value;
              result.value == rental.(status := RentalStatus.Cancelled)
              && db.rentals == old(db.rentals)[k := result.value]
              && db.vehicles == old(db.vehicles)[j := old(db.vehicles)[j].(status := VehicleStatus.Available)]
              && db.commits == old(db.commits) + 1
    ensures result.Success? ==>
              forall s, e :: RentalRepository.IsVehicleAvailable(old(db.rentals), result.value.vehicleId, s, e) ==>
                  RentalRepository.IsVehicleAvailable(db.rentals, result.value.vehicleId, s, e)
    ensures db.customers == old(db.customers) && db.maintenances == old(db.maintenances) && db.damages == old(db.damages)
    ensures NoDoubleBooking(old(db.rentals)) ==> NoDoubleBooking(db.rentals)
  {
    var rk := RentalIndex(db.rentals, rentalId);
    if rk.None? {
      return Failure(Argument(RentalNotFoundMessage));
    }
    var k := rk.value;
    var rental := db.rentals[k].(status := RentalStatus.Cancelled);
    assert db.rentals[k] in db.rentals;
    var j := VehicleIndex(db.vehicles, rental.vehicleId).value;
    if NoDoubleBooking(db.rentals) {
      CancellingPreservesNoDoubleBooking(db.rentals, k);
    }
    forall s, e | RentalRepository.IsVehicleAvailable(db.rentals, rental.vehicleId, s, e)
      ensures RentalRepository.IsVehicleAvailable(db.rentals[k := rental], rental.vehicleId, s, e)
    {
      RentalRepository.CancellingRentalOnlyRestoresAvailability(db.rentals, k, rental.vehicleId, s, e);
    }
    db.UpdateRentalAt(k, rental);
    db.UpdateVehicleAt(j, db.vehicles[j].(status := VehicleStatus.Available));
    db.Commit();
    return Success(rental);
  }
}
