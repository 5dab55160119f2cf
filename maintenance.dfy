/** Maintenance records: the repository queries, the list filter, and the
    controller actions that schedule, update, complete, cancel and delete a
    record and move its vehicle into and out of Maintenance status. */
module Maintenances {
  import opened Wrappers
  import opened Seqs
  import opened Time
  import opened Entities
  import opened Store
  import opened Responses

  function ScheduledKey(m: Maintenance): real { m.scheduledDate as real }

  /** `GetMaintenancesByVehicleAsync`: that vehicle's records, latest
      scheduled first. */
  function GetMaintenancesByVehicle(ms: seq<Maintenance>, vehicleId: int): (result: seq<Maintenance>)
    ensures forall m :: m in result ==> m in ms && m.vehicleId == vehicleId
    ensures forall m :: m in ms && m.vehicleId == vehicleId ==> m in result
    ensures forall i, j :: 0 <= i < j < |result| ==> result[i].scheduledDate >= result[j].scheduledDate
    ensures |result| == Count(ms, (m: Maintenance) => m.vehicleId == vehicleId)
  {
    var mine := Filter(ms, (m: Maintenance) => m.vehicleId == vehicleId);
    var sorted := SortDesc(mine, ScheduledKey);
    SameMembers(sorted, mine);
    sorted
  }

  /** `GetMaintenancesByStatusAsync`. */
  function GetMaintenancesByStatus(ms: seq<Maintenance>, status: MaintenanceStatus): (result: seq<Maintenance>)
    ensures forall m :: m in result ==> m in ms && m.status == status
    ensures forall m :: m in ms && m.status == status ==> m in result
    ensures forall i, j :: 0 <= i < j < |result| ==> result[i].scheduledDate >= result[j].scheduledDate
    ensures |result| == Count(ms, (m: Maintenance) => m.status == status)
  {
    var matching := Filter(ms, (m: Maintenance) => m.status == status);
    var sorted := SortDesc(matching, ScheduledKey);
    SameMembers(sorted, matching);
    sorted
  }

  /** `GetMaintenancesByTypeAsync`. */
  function GetMaintenancesByType(ms: seq<Maintenance>, kind: MaintenanceType): (result: seq<Maintenance>)
    ensures forall m :: m in result ==> m in ms && m.kind == kind
    ensures forall m :: m in ms && m.kind == kind ==> m in result
    ensures forall i, j :: 0 <= i < j < |result| ==> result[i].scheduledDate >= result[j].scheduledDate
    ensures |result| == Count(ms, (m: Maintenance) => m.kind == kind)
  {
    var matching := Filter(ms, (m: Maintenance) => m.kind == kind);
    var sorted := SortDesc(matching, ScheduledKey);
    SameMembers(sorted, matching);
    sorted
  }

  /** Overdue: still Scheduled, for a day before today. */
  predicate IsOverdue(m: Maintenance, today: Instant)
  {
    m.status == MaintenanceStatus.Scheduled && m.scheduledDate < today
  }

  /** `GetOverdueMaintenancesAsync`: the overdue records as of the day of
      `now`, earliest first. */
  function GetOverdueMaintenances(ms: seq<Maintenance>, now: Instant): (result: seq<Maintenance>)
    ensures forall m :: m in result ==> m in ms && m.status == MaintenanceStatus.Scheduled && m.scheduledDate < StartOfDay(now)
    ensures forall m :: m in ms && IsOverdue(m, StartOfDay(now)) ==> m in result
    ensures forall i, j :: 0 <= i < j < |result| ==> result[i].scheduledDate <= result[j].scheduledDate
    ensures forall m :: multiset(result)[m] == if IsOverdue(m, StartOfDay(now)) then multiset(ms)[m] else 0
  {
    var isOverdue := (m: Maintenance) => IsOverdue(m, StartOfDay(now));
    var overdue := Filter(ms, isOverdue);
    FilterMultiplicity(ms, isOverdue);
    var sorted := SortAsc(overdue, ScheduledKey);
    SameMembers(sorted, overdue);
    sorted
  }

  /** A record in progress is never overdue, however late. */
  lemma InProgressNeverOverdue(ms: seq<Maintenance>, m: Maintenance, now: Instant)
    requires m.status == MaintenanceStatus.InProgress
    ensures m !in GetOverdueMaintenances(ms, now)
  {
  }

  /** `GetScheduledMaintenancesAsync`: the records scheduled within
      [startDate, endDate], both ends included, whatever their status,
      earliest first. */
  function GetScheduledMaintenances(ms: seq<Maintenance>, startDate: Instant, endDate: Instant): (result: seq<Maintenance>)
    ensures forall m :: m in result ==> m in ms && startDate <= m.scheduledDate <= endDate
    ensures forall m :: m in ms && startDate <= m.scheduledDate <= endDate ==> m in result
    ensures forall i, j :: 0 <= i < j < |result| ==> result[i].scheduledDate <= result[j].scheduledDate
    ensures forall m :: multiset(result)[m] == if startDate <= m.scheduledDate <= endDate then multiset(ms)[m] else 0
  {
    var inWindow := (m: Maintenance) => startDate <= m.scheduledDate <= endDate;
    var window := Filter(ms, inWindow);
    FilterMultiplicity(ms, inWindow);
    var sorted := SortAsc(window, ScheduledKey);
    SameMembers(sorted, window);
    sorted
  }

  /** The controller's defaults for the window: today to thirty days on. */
  function ScheduledWindow(startDate: Option<Instant>, endDate: Option<Instant>, now: Instant): (w: (Instant, Instant))
    ensures startDate.None? ==> w.0 == StartOfDay(now) && w.0 <= now
    ensures endDate.None? ==> w.1 - StartOfDay(now) == 30 * TicksPerDay
    ensures startDate.Some? ==> w.0 == startDate.value
    ensures endDate.Some? ==> w.1 == endDate.value
  {
    (startDate.GetOr(StartOfDay(now)), endDate.GetOr(AddDays(StartOfDay(now), 30)))
  }

  /** One record against the identity criteria of the list filter. */
  predicate MatchesCodes(m: Maintenance, f: MaintenanceFilter)
  {
    (f.vehicleId.Some? ==> m.vehicleId == f.vehicleId.value)
    && (f.kind.Some? ==> m.kind.Code() == f.kind.value)
    && (f.status.Some? ==> m.status.Code() == f.status.value)
  }

  predicate OnOrAfterStart(m: Maintenance, f: MaintenanceFilter)
  {
    f.startDate.Some? ==> m.scheduledDate >= f.startDate.value
  }

  predicate OnOrBeforeEnd(m: Maintenance, f: MaintenanceFilter)
  {
    f.endDate.Some? ==> m.scheduledDate <= f.endDate.value
  }

  /** One record against the date criteria of the list filter. */
  predicate MatchesDates(m: Maintenance, f: MaintenanceFilter, today: Instant)
  {
    OnOrAfterStart(m, f) && OnOrBeforeEnd(m, f) && (f.isOverdue == Some(true) ==> IsOverdue(m, today))
  }

  /** One record against the list filter: every supplied criterion holds. */
  predicate MatchesFilter(m: Maintenance, f: MaintenanceFilter, today: Instant)
  {
    MatchesCodes(m, f) && MatchesDates(m, f, today)
  }

  /** The first three optional `Where` calls of the list endpoint. */
  function SelectByCodes(ms: seq<Maintenance>, f: MaintenanceFilter): (selected: seq<Maintenance>)
    ensures forall m :: m in selected ==> m in ms && MatchesCodes(m, f)
    ensures forall m :: m in ms && MatchesCodes(m, f) ==> m in selected
    ensures forall m :: multiset(selected)[m] == if MatchesCodes(m, f) then multiset(ms)[m] else 0
  {
    var byVehicle := (m: Maintenance) => f.vehicleId == Some(m.vehicleId);
    var byKind := (m: Maintenance) => f.kind == Some(m.kind.Code());
    var byStatus := (m: Maintenance) => f.status == Some(m.status.Code());
    var s1 := Where(ms, f.vehicleId.Some?, byVehicle);
    var s2 := Where(s1, f.kind.Some?, byKind);
    var s3 := Where(s2, f.status.Some?, byStatus);
    assert forall m :: multiset(s3)[m] == if MatchesCodes(m, f) then multiset(ms)[m] else 0 by {
      forall m ensures multiset(s3)[m] == if MatchesCodes(m, f) then multiset(ms)[m] else 0 {
        WhereMultiplicity(ms, f.vehicleId.Some?, byVehicle, m);
        WhereMultiplicity(s1, f.kind.Some?, byKind, m);
        WhereMultiplicity(s2, f.status.Some?, byStatus, m);
      }
    }
    assert forall m :: m in s3 <==> m in ms && MatchesCodes(m, f) by {
      forall m ensures m in s3 <==> m in ms && MatchesCodes(m, f) {
        assert m in s3 <==> multiset(s3)[m] > 0;
        assert m in ms <==> multiset(ms)[m] > 0;
      }
    }
    s3
  }

  /** The last three optional `Where` calls of the list endpoint. */
  function SelectByDates(ms: seq<Maintenance>, f: MaintenanceFilter, today: Instant): (selected: seq<Maintenance>)
    ensures forall m :: m in selected ==> m in ms && MatchesDates(m, f, today)
    ensures forall m :: m in ms && MatchesDates(m, f, today) ==> m in selected
    ensures forall m :: multiset(selected)[m] == if MatchesDates(m, f, today) then multiset(ms)[m] else 0
  {
    var afterStart := (m: Maintenance) => OnOrAfterStart(m, f);
    var beforeEnd := (m: Maintenance) => OnOrBeforeEnd(m, f);
    var overdue := (m: Maintenance) => IsOverdue(m, today);
    var s4 := Where(ms, f.startDate.Some?, afterStart);
    var s5 := Where(s4, f.endDate.Some?, beforeEnd);
    var s6 := Where(s5, f.isOverdue == Some(true), overdue);
    assert forall m :: multiset(s6)[m] == if MatchesDates(m, f, today) then multiset(ms)[m] else 0 by {
      forall m ensures multiset(s6)[m] == if MatchesDates(m, f, today) then multiset(ms)[m] else 0 {
        WhereMultiplicity(ms, f.startDate.Some?, afterStart, m);
        WhereMultiplicity(s4, f.endDate.Some?, beforeEnd, m);
        WhereMultiplicity(s5, f.isOverdue == Some(true), overdue, m);
      }
    }
    assert forall m :: m in s6 <==> m in ms && MatchesDates(m, f, today) by {
      forall m ensures m in s6 <==> m in ms && MatchesDates(m, f, today) {
        assert m in s6 <==> multiset(s6)[m] > 0;
        assert m in ms <==> multiset(ms)[m] > 0;
      }
    }
    s6
  }

  /** The chain of optional `Where` calls the list endpoint applies: it
      keeps exactly the records matching every supplied criterion. */
  function SelectMaintenances(ms: seq<Maintenance>, f: MaintenanceFilter, today: Instant): (selected: seq<Maintenance>)
    ensures forall m :: m in selected ==> m in ms && MatchesFilter(m, f, today)
    ensures forall m :: m in ms && MatchesFilter(m, f, today) ==> m in selected
    ensures forall m :: multiset(selected)[m] == if MatchesFilter(m, f, today) then multiset(ms)[m] else 0
  {
    SelectByDates(SelectByCodes(ms, f), f, today)
  }

  /** `GetAllMaintenances`: the selected records, latest scheduled first; no
      filter, or `IsOverdue` false, filters nothing out. */
  function GetAllMaintenances(ms: seq<Maintenance>, filter: Option<MaintenanceFilter>, now: Instant): (result: seq<Maintenance>)
    ensures forall m :: m in result ==> m in ms && (filter.Some? ==> MatchesFilter(m, filter.value, StartOfDay(now)))
    ensures forall m :: m in ms && (filter.Some? ==> MatchesFilter(m, filter.value, StartOfDay(now))) ==> m in result
    ensures forall i, j :: 0 <= i < j < |result| ==> result[i].scheduledDate >= result[j].scheduledDate
    ensures forall m :: multiset(result)[m]
              == if filter.None? || MatchesFilter(m, filter.value, StartOfDay(now)) then multiset(ms)[m] else 0
  {
    var selected := if filter.Some? then SelectMaintenances(ms, filter.value, StartOfDay(now)) else ms;
    var sorted := SortDesc(selected, ScheduledKey);
    SameMembers(sorted, selected);
    sorted
  }

  /** Scheduling takes an Available vehicle out of service when the date is
      no later than tomorrow's midnight. */
  predicate TakesVehicleOutOfService(v: Vehicle, scheduledDate: Instant, now: Instant)
  {
    v.status == VehicleStatus.Available && scheduledDate <= AddDays(StartOfDay(now), 1)
  }

  /** Another record of the vehicle (any but `except`) is still Scheduled or
      InProgress. */
  predicate HasPendingMaintenance(ms: seq<Maintenance>, vehicleId: int, except: Option<int>)
  {
    Any(ms, (m: Maintenance) => m.vehicleId == vehicleId && except != Some(m.id)
      && (m.status == MaintenanceStatus.Scheduled || m.status == MaintenanceStatus.InProgress))
  }

  /** The release rule: a vehicle in Maintenance goes back to Available when
      nothing else is pending; any other status stays. */
  function Released(v: Vehicle, pending: bool): (r: Vehicle)
    ensures r.status != v.status <==> v.status == VehicleStatus.Maintenance && !pending
    ensures r.status != v.status ==> r.status == VehicleStatus.Available
    ensures r.(status := v.status) == v
  {
    if v.status == VehicleStatus.Maintenance && !pending then v.(status := VehicleStatus.Available) else v
  }

  /** Pending work on the vehicle is exactly a Scheduled or InProgress record
      of it other than the excluded one. */
  lemma PendingMeansScheduledOrInProgress(ms: seq<Maintenance>, vehicleId: int, id: int)
    ensures HasPendingMaintenance(ms, vehicleId, Some(id)) <==>
      exists m :: m in ms && m.vehicleId == vehicleId && m.id != id
        && (m.status == MaintenanceStatus.Scheduled || m.status == MaintenanceStatus.InProgress)
  {
    if HasPendingMaintenance(ms, vehicleId, Some(id)) {
      var i :| 0 <= i < |ms| && ms[i].vehicleId == vehicleId && Some(id) != Some(ms[i].id)
        && (ms[i].status == MaintenanceStatus.Scheduled || ms[i].status == MaintenanceStatus.InProgress);
      assert ms[i] in ms;
    }
  }

  /** A completed or cancelled record never holds its vehicle back. */
  lemma FinishedRecordsNeverPending(ms: seq<Maintenance>, vehicleId: int)
    requires forall m :: m in ms ==> m.status == MaintenanceStatus.Completed || m.status == MaintenanceStatus.Cancelled
    ensures !HasPendingMaintenance(ms, vehicleId, None)
  {
  }

  /** The fields `UpdateMaintenance` may change; absent ones stay. */
  datatype MaintenanceUpdate = MaintenanceUpdate(
    scheduledDate: Option<Instant>,
    completedDate: Option<Instant>,
    description: Option<string>,
    cost: Option<real>,
    kind: Option<int>,
    status: Option<int>)

  /** The record after an update: each supplied field replaced, the rest,
      the id and the vehicle kept. */
  function ApplyMaintenanceUpdate(m: Maintenance, u: MaintenanceUpdate): (r: Maintenance)
    ensures r.id == m.id && r.vehicleId == m.vehicleId
    ensures u.scheduledDate.None? ==> r.scheduledDate == m.scheduledDate
    ensures u.completedDate.None? ==> r.completedDate == m.completedDate
    ensures u.description.None? ==> r.description == m.description
    ensures u.cost.None? ==> r.cost == m.cost
    ensures u.kind.None? ==> r.kind == m.kind
    ensures u.status.None? ==> r.status == m.status
    ensures u.kind.Some? ==> r.kind.Code() == u.kind.value
    ensures u.status.Some? ==> r.status.Code() == u.status.value
  {
    m.(scheduledDate := u.scheduledDate.GetOr(m.scheduledDate),
       completedDate := if u.completedDate.Some? then u.completedDate else m.completedDate,
       description := u.description.GetOr(m.description),
       cost := u.cost.GetOr(m.cost),
       kind := if u.kind.Some? then MaintenanceTypeOf(u.kind.value) else m.kind,
       status := if u.status.Some? then MaintenanceStatusOf(u.status.value) else m.status)
  }

  /** Applying the same update twice is applying it once; an empty update
      changes nothing. */
  lemma ApplyMaintenanceUpdateIdempotent(m: Maintenance, u: MaintenanceUpdate)
    ensures ApplyMaintenanceUpdate(ApplyMaintenanceUpdate(m, u), u) == ApplyMaintenanceUpdate(m, u)
    ensures ApplyMaintenanceUpdate(m, MaintenanceUpdate(None, None, None, None, None, None)) == m
  {
  }

  /** `CreateMaintenance`: a missing vehicle is NotFound and writes nothing.
      Otherwise a Scheduled record is added and committed; an Available
      vehicle scheduled no later than tomorrow then goes into Maintenance
      with a second commit, and any other vehicle is left alone. */
  method CreateMaintenance(db: Database, vehicleId: int, scheduledDate: Instant, description: string, cost: real, typeCode: int, now: Instant)
    returns (result: Result<Maintenance, HttpError>)
    requires db.Valid()
    modifies db
    ensures db.Valid()
    ensures db.nextMaintenanceId == old(db.nextMaintenanceId) + (if result.Success? then 1 else 0)
    ensures db.nextRentalId == old(db.nextRentalId) && db.nextDamageId == old(db.nextDamageId)
    ensures VehicleIndex(old(db.vehicles), vehicleId).None? <==> result.Failure?
    ensures result.Failure? ==> result.error == NotFound("Vehicle not found") && unchanged(db)
    ensures result.Success? ==>
              var k := VehicleIndex(old(db.vehicles), vehicleId).value;
              var v := old(db.vehicles)[k];
              result.value == Entities.Maintenance.Maintenance(old(db.nextMaintenanceId), vehicleId, scheduledDate, None, description, cost,
                                          MaintenanceTypeOf(typeCode), MaintenanceStatus.Scheduled)
              && db.maintenances == old(db.maintenances) + [result.value]
              && (if TakesVehicleOutOfService(v, scheduledDate, now)
                  then db.vehicles == old(db.vehicles)[k := v.(status := VehicleStatus.Maintenance)] && db.commits == old(db.commits) + 2
                  else db.vehicles == old(db.vehicles) && db.commits == old(db.commits) + 1)
    ensures db.rentals == old(db.rentals) && db.damages == old(db.damages) && db.customers == old(db.customers)
  {
    var vk := VehicleIndex(db.vehicles, vehicleId);
    if vk.None? {
      return Failure(NotFound("Vehicle not found"));
    }
    var k := vk.value;
    var vehicle := db.vehicles[k];
    var maintenance := Entities.Maintenance.Maintenance(db.nextMaintenanceId, vehicleId, scheduledDate, None, description, cost,
                                   MaintenanceTypeOf(typeCode), MaintenanceStatus.Scheduled);
    db.AddMaintenance(maintenance);
    db.Commit();
    if vehicle.status == VehicleStatus.Available && scheduledDate <= AddDays(StartOfDay(now), 1) {
      db.UpdateVehicleAt(k, vehicle.(status := VehicleStatus.Maintenance));
      db.Commit();
    }
    return Success(maintenance);
  }

  /** `UpdateMaintenance`: only the supplied fields of the record change;
      the vehicle is not touched; one commit. */
  method UpdateMaintenance(db: Database, id: int, u: MaintenanceUpdate)
    returns (result: Result<Maintenance, HttpError>)
    requires db.Valid()
    modifies db
    ensures db.Valid()
    ensures db.nextRentalId == old(db.nextRentalId) && db.nextMaintenanceId == old(db.nextMaintenanceId) && db.nextDamageId == old(db.nextDamageId)
    ensures MaintenanceIndex(old(db.maintenances), id).None? <==> result.Failure?
    ensures result.Failure? ==> result.error == NotFound("Maintenance record not found") && unchanged(db)
    ensures result.Success? ==>
              var k := MaintenanceIndex(old(db.maintenances), id).value;
              result.value == ApplyMaintenanceUpdate(old(db.maintenances)[k], u)
              && db.maintenances == old(db.maintenances)[k := result.value]
              && db.commits == old(db.commits) + 1
    ensures db.vehicles == old(db.vehicles) && db.rentals == old(db.rentals) && db.damages == old(db.damages)
    ensures db.customers == old(db.customers)
  {
    var mk := MaintenanceIndex(db.maintenances, id);
    if mk.None? {
      return Failure(NotFound("Maintenance record not found"));
    }
    var updated := ApplyMaintenanceUpdate(db.maintenances[mk.value], u);
    db.UpdateMaintenanceAt(mk.value, updated);
    db.Commit();
    return Success(updated);
  }

  /** `CompleteMaintenance`: BadRequest with no change when the record is
      already Completed (a Cancelled one can still be completed). Otherwise
      it becomes Completed on `completedDate`, its cost replaced only when an
      actual cost is given, the release rule runs over the vehicle's other
      records, and one commit follows. */
  method CompleteMaintenance(db: Database, id: int, completedDate: Instant, actualCost: Option<real>)
    returns (result: Result<Maintenance, HttpError>)
    requires db.Valid()
    modifies db
    ensures db.Valid()
    ensures db.nextRentalId == old(db.nextRentalId) && db.nextMaintenanceId == old(db.nextMaintenanceId) && db.nextDamageId == old(db.nextDamageId)
    ensures MaintenanceIndex(old(db.maintenances), id).None? ==>
              result == Failure(NotFound("Maintenance record not found"))
    ensures MaintenanceIndex(old(db.maintenances), id).Some? ==>
              (old(db.maintenances)[MaintenanceIndex(old(db.maintenances), id).value].status == MaintenanceStatus.Completed <==>
               result == Failure(BadRequest("Maintenance is already completed")))
    ensures result.Success? <==> (MaintenanceIndex(old(db.maintenances), id).Some?
              && old(db.maintenances)[MaintenanceIndex(old(db.maintenances), id).value].status != MaintenanceStatus.Completed)
    ensures result.Failure? ==> unchanged(db)
    ensures result.Success? ==>
              var k := MaintenanceIndex(old(db.maintenances), id).value;
              var m := old(db.maintenances)[k];
              var j := VehicleIndex(old(db.vehicles), m.vehicleId).value;
              result.value == m.(completedDate := Some(completedDate), status := MaintenanceStatus.Completed, cost := actualCost.GetOr(m.cost))
              && db.maintenances == old(db.maintenances)[k := result.value]
              && db.vehicles == old(db.vehicles)[j := Released(old(db.vehicles)[j], HasPendingMaintenance(db.maintenances, m.vehicleId, Some(id)))]
              && db.commits == old(db.commits) + 1
    ensures db.rentals == old(db.rentals) && db.damages == old(db.damages) && db.customers == old(db.customers)
  {
    var mk := MaintenanceIndex(db.maintenances, id);
    if mk.None? {
      return Failure(NotFound("Maintenance record not found"));
    }
    var k := mk.value;
    var m := db.maintenances[k];
    if m.status == MaintenanceStatus.Completed {
      return Failure(BadRequest("Maintenance is already completed"));
    }
    assert m in db.maintenances;
    var j := VehicleIndex(db.vehicles, m.vehicleId).value;
    var completed := m.(completedDate := Some(completedDate), status := MaintenanceStatus.Completed,
                        cost := if actualCost.Some? then actualCost.value else m.cost);
    db.UpdateMaintenanceAt(k, completed);
    var vehicle := db.vehicles[j];
    if vehicle.status == VehicleStatus.Maintenance {
      var pending := HasPendingMaintenance(db.maintenances, m.vehicleId, Some(id));
      if !pending {
        db.UpdateVehicleAt(j, vehicle.(status := VehicleStatus.Available));
      }
    }
    db.Commit();
    return Success(completed);
  }

  /** `CancelMaintenance`: BadRequest only for a Completed record, so
      cancelling twice succeeds. Otherwise it becomes Cancelled, the release
      rule runs over the vehicle's other records, and one commit follows. */
  method CancelMaintenance(db: Database, id: int)
    returns (result: Result<Maintenance, HttpError>)
    requires db.Valid()
    modifies db
    ensures db.Valid()
    ensures db.nextRentalId == old(db.nextRentalId) && db.nextMaintenanceId == old(db.nextMaintenanceId) && db.nextDamageId == old(db.nextDamageId)
    ensures MaintenanceIndex(old(db.maintenances), id).None? ==>
              result == Failure(NotFound("Maintenance record not found"))
    ensures MaintenanceIndex(old(db.maintenances), id).Some? ==>
              (old(db.maintenances)[MaintenanceIndex(old(db.maintenances), id).value].status == MaintenanceStatus.Completed <==>
               result == Failure(BadRequest("Cannot cancel completed maintenance")))
    ensures result.Success? <==> (MaintenanceIndex(old(db.maintenances), id).Some?
              && old(db.maintenances)[MaintenanceIndex(old(db.maintenances), id).value].status != MaintenanceStatus.Completed)
    ensures result.Failure? ==> unchanged(db)
    ensures result.Success? ==>
              var k := MaintenanceIndex(old(db.maintenances), id).value;
              var m := old(db.maintenances)[k];
              var j := VehicleIndex(old(db.vehicles), m.vehicleId).value;
              result.value == m.(status := MaintenanceStatus.Cancelled)
              && db.maintenances == old(db.maintenances)[k := result.value]
              && db.vehicles == old(db.vehicles)[j := Released(old(db.vehicles)[j], HasPendingMaintenance(db.maintenances, m.vehicleId, Some(id)))]
              && db.commits == old(db.commits) + 1
    ensures db.rentals == old(db.rentals) && db.damages == old(db.damages) && db.customers == old(db.customers)
  {
    var mk := MaintenanceIndex(db.maintenances, id);
    if mk.None? {
      return Failure(NotFound("Maintenance record not found"));
    }
    var k := mk.value;
    var m := db.maintenances[k];
    if m.status == MaintenanceStatus.Completed {
      return Failure(BadRequest("Cannot cancel completed maintenance"));
    }
    assert m in db.maintenances;
    var j := VehicleIndex(db.vehicles, m.vehicleId).value;
    var cancelled := m.(status := MaintenanceStatus.Cancelled);
    db.UpdateMaintenanceAt(k, cancelled);
    var vehicle := db.vehicles[j];
    if vehicle.status == VehicleStatus.Maintenance {
      var pending := HasPendingMaintenance(db.maintenances, m.vehicleId, Some(id));
      if !pending {
        db.UpdateVehicleAt(j, vehicle.(status := VehicleStatus.Available));
      }
    }
    db.Commit();
    return Success(cancelled);
  }

  /** `DeleteMaintenance`: the record is removed and committed; then a
      vehicle in Maintenance with nothing Scheduled or InProgress left goes
      back to Available with a second commit. */
  method DeleteMaintenance(db: Database, id: int)
    returns (result: Result<(), HttpError>)
    requires db.Valid()
    modifies db
    ensures db.Valid()
    ensures db.nextRentalId == old(db.nextRentalId) && db.nextMaintenanceId == old(db.nextMaintenanceId) && db.nextDamageId == old(db.nextDamageId)
    ensures MaintenanceIndex(old(db.maintenances), id).None? <==> result.Failure?
    ensures result.Failure? ==> result.error == NotFound("Maintenance record not found") && unchanged(db)
    ensures result.Success? ==>
              var k := MaintenanceIndex(old(db.maintenances), id).value;
              var vehicleId := old(db.maintenances)[k].vehicleId;
              var j := VehicleIndex(old(db.vehicles), vehicleId).value;
              var released := Released(old(db.vehicles)[j], HasPendingMaintenance(db.maintenances, vehicleId, None));
              db.maintenances == old(db.maintenances)[..k] + old(db.maintenances)[k + 1..]
              && db.vehicles == old(db.vehicles)[j := released]
              && db.commits == old(db.commits) + (if released != old(db.vehicles)[j] then 2 else 1)
    ensures db.rentals == old(db.rentals) && db.damages == old(db.damages) && db.customers == old(db.customers)
  {
    var mk := MaintenanceIndex(db.maintenances, id);
    if mk.None? {
      return Failure(NotFound("Maintenance record not found"));
    }
    var k := mk.value;
    var vehicleId := db.maintenances[k].vehicleId;
    assert db.maintenances[k] in db.maintenances;
    var j := VehicleIndex(db.vehicles, vehicleId).value;
    var vehicle := db.vehicles[j];
    db.RemoveMaintenanceAt(k);
    db.Commit();
    if vehicle.status == VehicleStatus.Maintenance {
      var pending := HasPendingMaintenance(db.maintenances, vehicleId, None);
      if !pending {
        db.UpdateVehicleAt(j, vehicle.(status := VehicleStatus.Available));
        db.Commit();
      }
    }
    return Success(());
  }
}
