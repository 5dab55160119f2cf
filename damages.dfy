/** Vehicle damage records: the repository queries, the list filter, and the
    controller actions that report, update, start repairing, repair and
    delete a damage and move its vehicle into and out of Maintenance. */
module Damages {
  import opened Wrappers
  import opened Seqs
  import opened Time
  import opened Entities
  import opened Store
  import opened Responses
  import Maintenances

  function ReportedKey(d: VehicleDamage): real { d.reportedDate as real }

  /** Sorted latest report first. */
  ghost predicate NewestFirst(ds: seq<VehicleDamage>)
  {
    forall i, j :: 0 <= i < j < |ds| ==> ds[i].reportedDate >= ds[j].reportedDate
  }

  /** `OrderByDescending(d => d.ReportedDate)` over the damages satisfying
      `p`: the shape shared by every damage query. */
  function SelectNewestFirst(ds: seq<VehicleDamage>, p: VehicleDamage -> bool): (result: seq<VehicleDamage>)
    ensures forall d :: d in result ==> d in ds && p(d)
    ensures forall d :: d in ds && p(d) ==> d in result
    ensures |result| == Count(ds, p)
    ensures NewestFirst(result)
  {
    var matching := Filter(ds, p);
    var sorted := SortDesc(matching, ReportedKey);
    SameMembers(sorted, matching);
    sorted
  }

  /** `GetDamagesByVehicleAsync`. */
  function GetDamagesByVehicle(ds: seq<VehicleDamage>, vehicleId: int): (result: seq<VehicleDamage>)
    ensures forall d :: d in result ==> d in ds && d.vehicleId == vehicleId
    ensures forall d :: d in ds && d.vehicleId == vehicleId ==> d in result
    ensures |result| == Count(ds, (d: VehicleDamage) => d.vehicleId == vehicleId)
    ensures NewestFirst(result)
  {
    SelectNewestFirst(ds, (d: VehicleDamage) => d.vehicleId == vehicleId)
  }

  /** `GetDamagesByRentalAsync`: damages linked to that rental; damages with
      no rental never match. */
  function GetDamagesByRental(ds: seq<VehicleDamage>, rentalId: int): (result: seq<VehicleDamage>)
    ensures forall d :: d in result ==> d in ds && d.rentalId == Some(rentalId)
    ensures forall d :: d in ds && d.rentalId == Some(rentalId) ==> d in result
    ensures |result| == Count(ds, (d: VehicleDamage) => d.rentalId == Some(rentalId))
    ensures NewestFirst(result)
  {
    SelectNewestFirst(ds, (d: VehicleDamage) => d.rentalId == Some(rentalId))
  }

  /** `GetDamagesBySeverityAsync`. */
  function GetDamagesBySeverity(ds: seq<VehicleDamage>, severity: DamageSeverity): (result: seq<VehicleDamage>)
    ensures forall d :: d in result ==> d in ds && d.severity == severity
    ensures forall d :: d in ds && d.severity == severity ==> d in result
    ensures |result| == Count(ds, (d: VehicleDamage) => d.severity == severity)
    ensures NewestFirst(result)
  {
    SelectNewestFirst(ds, (d: VehicleDamage) => d.severity == severity)
  }

  /** `GetDamagesByStatusAsync`. */
  function GetDamagesByStatus(ds: seq<VehicleDamage>, status: DamageStatus): (result: seq<VehicleDamage>)
    ensures forall d :: d in result ==> d in ds && d.status == status
    ensures forall d :: d in ds && d.status == status ==> d in result
    ensures |result| == Count(ds, (d: VehicleDamage) => d.status == status)
    ensures NewestFirst(result)
  {
    SelectNewestFirst(ds, (d: VehicleDamage) => d.status == status)
  }

  /** Unresolved: anything not Repaired. */
  predicate IsUnresolved(d: VehicleDamage)
  {
    d.status != DamageStatus.Repaired
  }

  /** `GetUnresolvedDamagesAsync`: Reported, UnderRepair, Unresolved and
      out-of-range statuses alike. */
  function GetUnresolvedDamages(ds: seq<VehicleDamage>): (result: seq<VehicleDamage>)
    ensures forall d :: d in result ==> d in ds && d.status != DamageStatus.Repaired
    ensures forall d :: d in ds && d.status != DamageStatus.Repaired ==> d in result
    ensures |result| == Count(ds, IsUnresolved)
    ensures NewestFirst(result)
  {
    SelectNewestFirst(ds, IsUnresolved)
  }

  /** Every damage is either unresolved or repaired, never both. */
  lemma UnresolvedAndRepairedPartition(ds: seq<VehicleDamage>)
    ensures |GetUnresolvedDamages(ds)| + |GetDamagesByStatus(ds, DamageStatus.Repaired)| == |ds|
  {
    CountPartition(ds, IsUnresolved, (d: VehicleDamage) => d.status == DamageStatus.Repaired);
  }

  /** One damage against the vehicle and rental criteria of the list filter. */
  predicate MatchesIds(d: VehicleDamage, f: DamageFilter)
  {
    (f.vehicleId.Some? ==> d.vehicleId == f.vehicleId.value)
    && (f.rentalId.Some? ==> d.rentalId == f.rentalId)
  }

  /** One damage against the severity and status criteria. */
  predicate MatchesGrades(d: VehicleDamage, f: DamageFilter)
  {
    (f.severity.Some? ==> d.severity.Code() == f.severity.value)
    && (f.status.Some? ==> d.status.Code() == f.status.value)
  }

  predicate MatchesCodes(d: VehicleDamage, f: DamageFilter)
  {
    MatchesIds(d, f) && MatchesGrades(d, f)
  }

  predicate OnOrAfterStart(d: VehicleDamage, f: DamageFilter)
  {
    f.startDate.Some? ==> d.reportedDate >= f.startDate.value
  }

  predicate OnOrBeforeEnd(d: VehicleDamage, f: DamageFilter)
  {
    f.endDate.Some? ==> d.reportedDate <= f.endDate.value
  }

  /** One damage against the date and resolution criteria. */
  predicate MatchesDates(d: VehicleDamage, f: DamageFilter)
  {
    OnOrAfterStart(d, f) && OnOrBeforeEnd(d, f) && (f.unresolvedOnly == Some(true) ==> IsUnresolved(d))
  }

  predicate MatchesFilter(d: VehicleDamage, f: DamageFilter)
  {
    MatchesCodes(d, f) && MatchesDates(d, f)
  }

  /** The vehicle and rental `Where` calls of the list endpoint. */
  function SelectByIds(ds: seq<VehicleDamage>, f: DamageFilter): (selected: seq<VehicleDamage>)
    ensures forall d :: d in selected ==> d in ds && MatchesIds(d, f)
    ensures forall d :: d in ds && MatchesIds(d, f) ==> d in selected
    ensures forall d :: multiset(selected)[d] == if MatchesIds(d, f) then multiset(ds)[d] else 0
  {
    var byVehicle := (d: VehicleDamage) => f.vehicleId == Some(d.vehicleId);
    var byRental := (d: VehicleDamage) => d.rentalId == f.rentalId;
    var s1 := Where(ds, f.vehicleId.Some?, byVehicle);
    var s2 := Where(s1, f.rentalId.Some?, byRental);
    assert forall d :: multiset(s2)[d] == if MatchesIds(d, f) then multiset(ds)[d] else 0 by {
      forall d ensures multiset(s2)[d] == if MatchesIds(d, f) then multiset(ds)[d] else 0 {
        WhereMultiplicity(ds, f.vehicleId.Some?, byVehicle, d);
        WhereMultiplicity(s1, f.rentalId.Some?, byRental, d);
      }
    }
    assert forall d :: d in s2 <==> d in ds && MatchesIds(d, f) by {
      forall d ensures d in s2 <==> d in ds && MatchesIds(d, f) {
        assert d in s2 <==> multiset(s2)[d] > 0;
        assert d in ds <==> multiset(ds)[d] > 0;
      }
    }
    s2
  }

  /** The severity and status `Where` calls of the list endpoint. */
  function SelectByGrades(ds: seq<VehicleDamage>, f: DamageFilter): (selected: seq<VehicleDamage>)
    ensures forall d :: d in selected ==> d in ds && MatchesGrades(d, f)
    ensures forall d :: d in ds && MatchesGrades(d, f) ==> d in selected
    ensures forall d :: multiset(selected)[d] == if MatchesGrades(d, f) then multiset(ds)[d] else 0
  {
    var bySeverity := (d: VehicleDamage) => f.severity == Some(d.severity.Code());
    var byStatus := (d: VehicleDamage) => f.status == Some(d.status.Code());
    var s3 := Where(ds, f.severity.Some?, bySeverity);
    var s4 := Where(s3, f.status.Some?, byStatus);
    assert forall d :: multiset(s4)[d] == if MatchesGrades(d, f) then multiset(ds)[d] else 0 by {
      forall d ensures multiset(s4)[d] == if MatchesGrades(d, f) then multiset(ds)[d] else 0 {
        WhereMultiplicity(ds, f.severity.Some?, bySeverity, d);
        WhereMultiplicity(s3, f.status.Some?, byStatus, d);
      }
    }
    assert forall d :: d in s4 <==> d in ds && MatchesGrades(d, f) by {
      forall d ensures d in s4 <==> d in ds && MatchesGrades(d, f) {
        assert d in s4 <==> multiset(s4)[d] > 0;
        assert d in ds <==> multiset(ds)[d] > 0;
      }
    }
    s4
  }

  /** The first four optional `Where` calls of the list endpoint. */
  function SelectByCodes(ds: seq<VehicleDamage>, f: DamageFilter): (selected: seq<VehicleDamage>)
    ensures forall d :: d in selected ==> d in ds && MatchesCodes(d, f)
    ensures forall d :: d in ds && MatchesCodes(d, f) ==> d in selected
    ensures forall d :: multiset(selected)[d] == if MatchesCodes(d, f) then multiset(ds)[d] else 0
  {
    SelectByGrades(SelectByIds(ds, f), f)
  }

  /** The last three optional `Where` calls of the list endpoint. */
  function SelectByDates(ds: seq<VehicleDamage>, f: DamageFilter): (selected: seq<VehicleDamage>)
    ensures forall d :: d in selected ==> d in ds && MatchesDates(d, f)
    ensures forall d :: d in ds && MatchesDates(d, f) ==> d in selected
    ensures forall d :: multiset(selected)[d] == if MatchesDates(d, f) then multiset(ds)[d] else 0
  {
    var afterStart := (d: VehicleDamage) => OnOrAfterStart(d, f);
    var beforeEnd := (d: VehicleDamage) => OnOrBeforeEnd(d, f);
    var s5 := Where(ds, f.startDate.Some?, afterStart);
    var s6 := Where(s5, f.endDate.Some?, beforeEnd);
    var s7 := Where(s6, f.unresolvedOnly == Some(true), IsUnresolved);
    assert forall d :: multiset(s7)[d] == if MatchesDates(d, f) then multiset(ds)[d] else 0 by {
      forall d ensures multiset(s7)[d] == if MatchesDates(d, f) then multiset(ds)[d] else 0 {
        WhereMultiplicity(ds, f.startDate.Some?, afterStart, d);
        WhereMultiplicity(s5, f.endDate.Some?, beforeEnd, d);
        WhereMultiplicity(s6, f.unresolvedOnly == Some(true), IsUnresolved, d);
      }
    }
    assert forall d :: d in s7 <==> d in ds && MatchesDates(d, f) by {
      forall d ensures d in s7 <==> d in ds && MatchesDates(d, f) {
        assert d in s7 <==> multiset(s7)[d] > 0;
        assert d in ds <==> multiset(ds)[d] > 0;
      }
    }
    s7
  }

  /** `GetAllDamages`: the damages matching every supplied criterion,
      latest report first; no filter, or `UnresolvedOnly` false, filters
      nothing out. */
  function GetAllDamages(ds: seq<VehicleDamage>, filter: Option<DamageFilter>): (result: seq<VehicleDamage>)
    ensures forall d :: d in result ==> d in ds && (filter.Some? ==> MatchesFilter(d, filter.value))
    ensures forall d :: d in ds && (filter.Some? ==> MatchesFilter(d, filter.value)) ==> d in result
    ensures forall d :: multiset(result)[d] == if filter.None? || MatchesFilter(d, filter.value) then multiset(ds)[d] else 0
    ensures NewestFirst(result)
  {
    var selected := if filter.Some? then SelectByDates(SelectByCodes(ds, filter.value), filter.value) else ds;
    var sorted := SortDesc(selected, ReportedKey);
    SameMembers(sorted, selected);
    sorted
  }

  /** The damage report a caller submits. */
  datatype DamageReport = DamageReport(
    vehicleId: int,
    rentalId: Option<int>,
    reportedDate: Instant,
    description: string,
    severity: int,
    repairCost: Option<real>,
    reportedBy: Option<string>,
    imageUrl: Option<string>)

  const VehicleNotFound := NotFound("Vehicle not found")
  const RentalNotFound := NotFound("Rental not found")
  const CustomerNeedsRental := BadRequest("Customers must report damage for a specific rental")

  /** The vehicle exists, a named rental exists, and only staff may omit
      the rental. */
  predicate ReportAcceptable(vehicles: seq<Vehicle>, rentals: seq<Rental>, report: DamageReport, isCustomer: bool)
  {
    VehicleIndex(vehicles, report.vehicleId).Some?
    && (report.rentalId.Some? ==> RentalIndex(rentals, report.rentalId.value).Some?)
    && (report.rentalId.None? ==> !isCustomer)
  }

  /** The checks `CreateDamage` makes before writing, in order: the vehicle
      exists, a named rental exists, and a customer names a rental. */
  function ValidateReport(vehicles: seq<Vehicle>, rentals: seq<Rental>, report: DamageReport, isCustomer: bool): (error: Option<HttpError>)
    ensures VehicleIndex(vehicles, report.vehicleId).None? ==> error == Some(VehicleNotFound)
    ensures VehicleIndex(vehicles, report.vehicleId).Some? && report.rentalId.Some? ==>
              RentalIndex(rentals, report.rentalId.value).None? ==> error == Some(RentalNotFound)
    ensures VehicleIndex(vehicles, report.vehicleId).Some? && report.rentalId.None? && isCustomer ==>
              error == Some(CustomerNeedsRental)
    ensures error.None? <==> ReportAcceptable(vehicles, rentals, report, isCustomer)
  {
    if VehicleIndex(vehicles, report.vehicleId).None? then Some(VehicleNotFound)
    else if report.rentalId.Some? then
      if RentalIndex(rentals, report.rentalId.value).None? then Some(RentalNotFound) else None
    else if isCustomer then Some(CustomerNeedsRental)
    else None
  }

  /** Staff may report a damage on any existing vehicle without a rental. */
  lemma StaffNeedNoRental(vehicles: seq<Vehicle>, rentals: seq<Rental>, report: DamageReport)
    requires VehicleIndex(vehicles, report.vehicleId).Some? && report.rentalId.None?
    ensures ValidateReport(vehicles, rentals, report, false).None?
    ensures ValidateReport(vehicles, rentals, report, true) == Some(CustomerNeedsRental)
  {
  }

  /** The repair-cost estimate for a severity code: 100, 300, 800 and 2000
      for Minor to Critical, and 100 for any other code. */
  function DefaultRepairCost(severity: int): (cost: real)
    ensures cost >= 100.0
    ensures !(0 <= severity <= 3) ==> cost == 100.0
  {
    match severity
    case 0 => 100.0
    case 1 => 300.0
    case 2 => 800.0
    case 3 => 2000.0
    case _ => 100.0
  }

  /** A more severe named grade never has a lower estimate. */
  lemma DefaultRepairCostMonotonic(a: int, b: int)
    requires 0 <= a <= b <= 3
    ensures DefaultRepairCost(a) <= DefaultRepairCost(b)
  {
  }

  /** `dto.ReportedBy ?? User.Identity?.Name ?? "Unknown"`. */
  function Reporter(supplied: Option<string>, identityName: Option<string>): (name: string)
    ensures supplied.Some? ==> name == supplied.value
    ensures supplied.None? && identityName.Some? ==> name == identityName.value
    ensures supplied.None? && identityName.None? ==> name == "Unknown"
  {
    supplied.GetOr(identityName.GetOr("Unknown"))
  }

  /** Severe: the enum compared as its integer, so any code from 2 up,
      named or not. */
  predicate IsSevere(severity: DamageSeverity)
  {
    severity.Code() >= DamageSeverity.Major.Code()
  }

  lemma SeverityThreshold()
    ensures IsSevere(DamageSeverity.Major) && IsSevere(DamageSeverity.Critical)
    ensures !IsSevere(DamageSeverity.Minor) && !IsSevere(DamageSeverity.Moderate)
    ensures IsSevere(DamageSeverityOf(7)) && !IsSevere(DamageSeverityOf(-1))
  {
  }

  /** The damage a valid report records. */
  function NewDamage(id: int, report: DamageReport, identityName: Option<string>): (d: VehicleDamage)
    ensures d.id == id && d.vehicleId == report.vehicleId && d.rentalId == report.rentalId
    ensures d.status == DamageStatus.Reported && d.repairedDate.None?
    ensures d.severity.Code() == report.severity
    ensures report.repairCost.Some? ==> d.repairCost == report.repairCost.value
    ensures report.repairCost.None? ==> d.repairCost == DefaultRepairCost(report.severity)
    ensures d.reportedBy == Some(Reporter(report.reportedBy, identityName))
  {
    VehicleDamage(id, report.vehicleId, report.rentalId, report.reportedDate, report.description,
      DamageSeverityOf(report.severity), report.repairCost.GetOr(DefaultRepairCost(report.severity)), None,
      Some(Reporter(report.reportedBy, identityName)), report.imageUrl, DamageStatus.Reported)
  }

  /** `CreateDamage`: the validation failures write nothing. Otherwise a
      Reported damage is added and committed; when it is severe and the
      vehicle Available, the vehicle goes into Maintenance with a second
      commit. */
  method CreateDamage(db: Database, report: DamageReport, isCustomer: bool, identityName: Option<string>)
    returns (result: Result<VehicleDamage, HttpError>)
    requires db.Valid()
    modifies db
    ensures db.Valid()
    ensures db.nextDamageId == old(db.nextDamageId) + (if result.Success? then 1 else 0)
    ensures db.nextRentalId == old(db.nextRentalId) && db.nextMaintenanceId == old(db.nextMaintenanceId)
    ensures result.Failure? <==> ValidateReport(old(db.vehicles), old(db.rentals), report, isCustomer).Some?
    ensures result.Failure? ==>
              result.error == ValidateReport(old(db.vehicles), old(db.rentals), report, isCustomer).value && unchanged(db)
    ensures result.Success? ==>
              var k := VehicleIndex(old(db.vehicles), report.vehicleId).value;
              var v := old(db.vehicles)[k];
              result.value == NewDamage(old(db.nextDamageId), report, identityName)
              && db.damages == old(db.damages) + [result.value]
              && (if IsSevere(result.value.severity) && v.status == VehicleStatus.Available
                  then db.vehicles == old(db.vehicles)[k := v.(status := VehicleStatus.Maintenance)] && db.commits == old(db.commits) + 2
                  else db.vehicles == old(db.vehicles) && db.commits == old(db.commits) + 1)
    ensures db.rentals == old(db.rentals) && db.maintenances == old(db.maintenances) && db.customers == old(db.customers)
  {
    var error := ValidateReport(db.vehicles, db.rentals, report, isCustomer);
    if error.Some? {
      return Failure(error.value);
    }
    var k := VehicleIndex(db.vehicles, report.vehicleId).value;
    var vehicle := db.vehicles[k];
    var damage := NewDamage(db.nextDamageId, report, identityName);
    db.AddDamage(damage);
    db.Commit();
    if damage.severity.Code() >= DamageSeverity.Major.Code() && vehicle.status == VehicleStatus.Available {
      db.UpdateVehicleAt(k, vehicle.(status := VehicleStatus.Maintenance));
      db.Commit();
    }
    return Success(damage);
  }

  /** The fields `UpdateDamage` may change; absent ones stay. */
  datatype DamageUpdate = DamageUpdate(
    description: Option<string>,
    severity: Option<int>,
    repairCost: Option<real>,
    repairedDate: Option<Instant>,
    reportedBy: Option<string>,
    imageUrl: Option<string>,
    status: Option<int>)

  /** The damage after an update: each supplied field replaced, the rest,
      the id, the vehicle, the rental and the report date kept. */
  function ApplyDamageUpdate(d: VehicleDamage, u: DamageUpdate): (r: VehicleDamage)
    ensures r.id == d.id && r.vehicleId == d.vehicleId && r.rentalId == d.rentalId && r.reportedDate == d.reportedDate
    ensures u.description.None? ==> r.description == d.description
    ensures u.severity.None? ==> r.severity == d.severity
    ensures u.repairCost.None? ==> r.repairCost == d.repairCost
    ensures u.repairedDate.None? ==> r.repairedDate == d.repairedDate
    ensures u.reportedBy.None? ==> r.reportedBy == d.reportedBy
    ensures u.imageUrl.None? ==> r.imageUrl == d.imageUrl
    ensures u.status.None? ==> r.status == d.status
    ensures u.severity.Some? ==> r.severity.Code() == u.severity.value
    ensures u.status.Some? ==> r.status.Code() == u.status.value
  {
    d.(description := u.description.GetOr(d.description),
       severity := if u.severity.Some? then DamageSeverityOf(u.severity.value) else d.severity,
       repairCost := u.repairCost.GetOr(d.repairCost),
       repairedDate := if u.repairedDate.Some? then u.repairedDate else d.repairedDate,
       reportedBy := if u.reportedBy.Some? then u.reportedBy else d.reportedBy,
       imageUrl := if u.imageUrl.Some? then u.imageUrl else d.imageUrl,
       status := if u.status.Some? then DamageStatusOf(u.status.value) else d.status)
  }

  /** Applying the same update twice is applying it once; an empty update
      changes nothing. */
  lemma ApplyDamageUpdateIdempotent(d: VehicleDamage, u: DamageUpdate)
    ensures ApplyDamageUpdate(ApplyDamageUpdate(d, u), u) == ApplyDamageUpdate(d, u)
    ensures ApplyDamageUpdate(d, DamageUpdate(None, None, None, None, None, None, None)) == d
  {
  }

  const DamageNotFound := NotFound("Damage record not found")

  /** `UpdateDamage`: only the supplied fields change; the vehicle is not
      touched, even when the severity or status changes; one commit. */
  method UpdateDamage(db: Database, id: int, u: DamageUpdate)
    returns (result: Result<VehicleDamage, HttpError>)
    requires db.Valid()
    modifies db
    ensures db.Valid()
    ensures db.nextRentalId == old(db.nextRentalId) && db.nextMaintenanceId == old(db.nextMaintenanceId) && db.nextDamageId == old(db.nextDamageId)
    ensures DamageIndex(old(db.damages), id).None? <==> result.Failure?
    ensures result.Failure? ==> result.error == DamageNotFound && unchanged(db)
    ensures result.Success? ==>
              var k := DamageIndex(old(db.damages), id).value;
              result.value == ApplyDamageUpdate(old(db.damages)[k], u)
              && db.damages == old(db.damages)[k := result.value]
              && db.commits == old(db.commits) + 1
    ensures db.vehicles == old(db.vehicles) && db.rentals == old(db.rentals) && db.maintenances == old(db.maintenances)
    ensures db.customers == old(db.customers)
  {
    var dk := DamageIndex(db.damages, id);
    if dk.None? {
      return Failure(DamageNotFound);
    }
    var updated := ApplyDamageUpdate(db.damages[dk.value], u);
    db.UpdateDamageAt(dk.value, updated);
    db.Commit();
    return Success(updated);
  }

  /** Starting a repair takes an Available vehicle out of service; a
      vehicle in any other status stays as it is. */
  function HeldForRepair(v: Vehicle): (r: Vehicle)
    ensures v.status == VehicleStatus.Available ==> r == v.(status := VehicleStatus.Maintenance)
    ensures v.status != VehicleStatus.Available ==> r == v
  {
    if v.status == VehicleStatus.Available then v.(status := VehicleStatus.Maintenance) else v
  }

  /** `StartRepair`: only a Reported damage can move to UnderRepair; its
      vehicle is held for repair; one commit. */
  method StartRepair(db: Database, id: int)
    returns (result: Result<VehicleDamage, HttpError>)
    requires db.Valid()
    modifies db
    ensures db.Valid()
    ensures db.nextRentalId == old(db.nextRentalId) && db.nextMaintenanceId == old(db.nextMaintenanceId) && db.nextDamageId == old(db.nextDamageId)
    ensures DamageIndex(old(db.damages), id).None? ==> result == Failure(DamageNotFound)
    ensures DamageIndex(old(db.damages), id).Some? ==>
              (old(db.damages)[DamageIndex(old(db.damages), id).value].status != DamageStatus.Reported <==>
               result == Failure(BadRequest("Can only start repair on reported damages")))
    ensures result.Success? <==> (DamageIndex(old(db.damages), id).Some?
              && old(db.damages)[DamageIndex(old(db.damages), id).value].status == DamageStatus.Reported)
    ensures result.Failure? ==> unchanged(db)
    ensures result.Success? ==>
              var k := DamageIndex(old(db.damages), id).value;
              var d := old(db.damages)[k];
              var j := VehicleIndex(old(db.vehicles), d.vehicleId).value;
              result.value == d.(status := DamageStatus.UnderRepair)
              && db.damages == old(db.damages)[k := result.value]
              && db.vehicles == old(db.vehicles)[j := HeldForRepair(old(db.vehicles)[j])]
              && db.commits == old(db.commits) + 1
    ensures db.rentals == old(db.rentals) && db.maintenances == old(db.maintenances) && db.customers == old(db.customers)
  {
    var dk := DamageIndex(db.damages, id);
    if dk.None? {
      return Failure(DamageNotFound);
    }
    var k := dk.value;
    var d := db.damages[k];
    if d.status != DamageStatus.Reported {
      return Failure(BadRequest("Can only start repair on reported damages"));
    }
    assert d in db.damages;
    var j := VehicleIndex(db.vehicles, d.vehicleId).value;
    var started := d.(status := DamageStatus.UnderRepair);
    db.UpdateDamageAt(k, started);
    var vehicle := db.vehicles[j];
    if vehicle.status == VehicleStatus.Available {
      db.UpdateVehicleAt(j, vehicle.(status := VehicleStatus.Maintenance));
    }
    db.Commit();
    return Success(started);
  }

  /** Another damage of the vehicle (any but `except`) is not Repaired. */
  predicate HasUnresolvedDamages(ds: seq<VehicleDamage>, vehicleId: int, except: int)
  {
    Any(ds, (d: VehicleDamage) => d.vehicleId == vehicleId && d.id != except && IsUnresolved(d))
  }

  /** What keeps a repaired vehicle in Maintenance: another unrepaired
      damage, or any Scheduled or InProgress maintenance record. */
  predicate RepairBlocked(ds: seq<VehicleDamage>, ms: seq<Maintenance>, vehicleId: int, except: int)
  {
    HasUnresolvedDamages(ds, vehicleId, except) || Maintenances.HasPendingMaintenance(ms, vehicleId, None)
  }

  /** The two release rules differ: completing the last pending maintenance
      frees a vehicle that still has an unrepaired damage, while repairing a
      damage would not free it past that maintenance. */
  lemma ReleaseRulesDisagree()
    ensures var v := Vehicle(1, "Ford", "Transit", VehicleCategory.Van, 80.0, VehicleStatus.Maintenance, 1000);
            var m := Entities.Maintenance.Maintenance(4, 1, 0, None, "brakes", 120.0, MaintenanceType.Repair, MaintenanceStatus.Completed);
            var d := VehicleDamage(9, 1, None, 0, "dent", DamageSeverity.Major, 800.0, None, None, None, DamageStatus.UnderRepair);
            Maintenances.Released(v, Maintenances.HasPendingMaintenance([m], 1, Some(4))).status == VehicleStatus.Available
            && HasUnresolvedDamages([d], 1, 10)
            && Maintenances.Released(v, RepairBlocked([d], [m], 1, 10)).status == VehicleStatus.Maintenance
  {
    var d := VehicleDamage(9, 1, None, 0, "dent", DamageSeverity.Major, 800.0, None, None, None, DamageStatus.UnderRepair);
    assert [d][0] == d;
  }

  /** `RepairDamage`: BadRequest with no change when already Repaired.
      Otherwise the damage becomes Repaired on `repairedDate`, its cost
      replaced only when an actual cost is given; a vehicle in Maintenance
      goes back to Available unless another damage is unrepaired or a
      maintenance record is pending; one commit. */
  method RepairDamage(db: Database, id: int, repairedDate: Instant, actualRepairCost: Option<real>)
    returns (result: Result<VehicleDamage, HttpError>)
    requires db.Valid()
    modifies db
    ensures db.Valid()
    ensures db.nextRentalId == old(db.nextRentalId) && db.nextMaintenanceId == old(db.nextMaintenanceId) && db.nextDamageId == old(db.nextDamageId)
    ensures DamageIndex(old(db.damages), id).None? ==> result == Failure(DamageNotFound)
    ensures DamageIndex(old(db.damages), id).Some? ==>
              (old(db.damages)[DamageIndex(old(db.damages), id).value].status == DamageStatus.Repaired <==>
               result == Failure(BadRequest("Damage is already repaired")))
    ensures result.Success? <==> (DamageIndex(old(db.damages), id).Some?
              && old(db.damages)[DamageIndex(old(db.damages), id).value].status != DamageStatus.Repaired)
    ensures result.Failure? ==> unchanged(db)
    ensures result.Success? ==>
              var k := DamageIndex(old(db.damages), id).value;
              var d := old(db.damages)[k];
              var j := VehicleIndex(old(db.vehicles), d.vehicleId).value;
              result.value == d.(repairedDate := Some(repairedDate), status := DamageStatus.Repaired,
                                 repairCost := actualRepairCost.GetOr(d.repairCost))
              && db.damages == old(db.damages)[k := result.value]
              && db.vehicles == old(db.vehicles)[j := Maintenances.Released(old(db.vehicles)[j], RepairBlocked(db.damages, db.maintenances, d.vehicleId, id))]
              && db.commits == old(db.commits) + 1
    ensures db.rentals == old(db.rentals) && db.maintenances == old(db.maintenances) && db.customers == old(db.customers)
  {
    var dk := DamageIndex(db.damages, id);
    if dk.None? {
      return Failure(DamageNotFound);
    }
    var k := dk.value;
    var d := db.damages[k];
    if d.status == DamageStatus.Repaired {
      return Failure(BadRequest("Damage is already repaired"));
    }
    assert d in db.damages;
    var j := VehicleIndex(db.vehicles, d.vehicleId).value;
    var repaired := d.(repairedDate := Some(repairedDate), status := DamageStatus.Repaired,
                       repairCost := if actualRepairCost.Some? then actualRepairCost.value else d.repairCost);
    db.UpdateDamageAt(k, repaired);
    var vehicle := db.vehicles[j];
    if vehicle.status == VehicleStatus.Maintenance {
      var hasUnresolvedDamages := HasUnresolvedDamages(db.damages, d.vehicleId, id);
      var hasPendingMaintenance := Maintenances.HasPendingMaintenance(db.maintenances, d.vehicleId, None);
      if !hasUnresolvedDamages && !hasPendingMaintenance {
        db.UpdateVehicleAt(j, vehicle.(status := VehicleStatus.Available));
      }
    }
    db.Commit();
    return Success(repaired);
  }

  /** `DeleteDamage`: the damage is removed and committed; the vehicle is
      not reconsidered. */
  method DeleteDamage(db: Database, id: int)
    returns (result: Result<(), HttpError>)
    requires db.Valid()
    modifies db
    ensures db.Valid()
    ensures db.nextRentalId == old(db.nextRentalId) && db.nextMaintenanceId == old(db.nextMaintenanceId) && db.nextDamageId == old(db.nextDamageId)
    ensures DamageIndex(old(db.damages), id).None? <==> result.Failure?
    ensures result.Failure? ==> result.error == DamageNotFound && unchanged(db)
    ensures result.Success? ==>
              var k := DamageIndex(old(db.damages), id).value;
              db.damages == old(db.damages)[..k] + old(db.damages)[k + 1..]
              && db.commits == old(db.commits) + 1
    ensures db.vehicles == old(db.vehicles) && db.rentals == old(db.rentals) && db.maintenances == old(db.maintenances)
    ensures db.customers == old(db.customers)
  {
    var dk := DamageIndex(db.damages, id);
    if dk.None? {
      return Failure(DamageNotFound);
    }
    db.RemoveDamageAt(dk.value);
    db.Commit();
    return Success(());
  }
}
