/** The entities of the car-rental backend, reduced to the fields the
    rental, maintenance, damage and reporting logic reads or writes. */
module Entities {
  import opened Wrappers
  import opened Time

  datatype VehicleStatus = Available | Reserved | Rented | Maintenance | Retired

  datatype VehicleCategory = Economy | Compact | Midsize | SUV | Luxury | Van

  datatype RentalStatus = Reserved | Active | Completed | Cancelled

  datatype CustomerTier = Standard | Silver | Gold | Platinum

  /** C# enums are integers: a cast from an out-of-range `int` yields a value
      with no name. `Other(code)` stands for such a value. */
  datatype MaintenanceType = Routine | Repair | Inspection | Emergency | Other(code: int)
  {
    function Code(): int {
      match this
      case Routine => 0
      case Repair => 1
      case Inspection => 2
      case Emergency => 3
      case Other(c) => c
    }
  }

  /** `(MaintenanceType)code`: the cast never fails and loses nothing. */
  function MaintenanceTypeOf(code: int): (t: MaintenanceType)
    ensures t.Code() == code
    ensures 0 <= code <= 3 <==> !t.Other?
  {
    match code
    case 0 => MaintenanceType.Routine
    case 1 => MaintenanceType.Repair
    case 2 => MaintenanceType.Inspection
    case 3 => MaintenanceType.Emergency
    case _ => MaintenanceType.Other(code)
  }

  datatype MaintenanceStatus = Scheduled | InProgress | Completed | Cancelled | Other(code: int)
  {
    function Code(): int {
      match this
      case Scheduled => 0
      case InProgress => 1
      case Completed => 2
      case Cancelled => 3
      case Other(c) => c
    }
  }

  function MaintenanceStatusOf(code: int): (s: MaintenanceStatus)
    ensures s.Code() == code
    ensures 0 <= code <= 3 <==> !s.Other?
  {
    match code
    case 0 => MaintenanceStatus.Scheduled
    case 1 => MaintenanceStatus.InProgress
    case 2 => MaintenanceStatus.Completed
    case 3 => MaintenanceStatus.Cancelled
    case _ => MaintenanceStatus.Other(code)
  }

  datatype DamageSeverity = Minor | Moderate | Major | Critical | Other(code: int)
  {
    function Code(): int {
      match this
      case Minor => 0
      case Moderate => 1
      case Major => 2
      case Critical => 3
      case Other(c) => c
    }
  }

  function DamageSeverityOf(code: int): (s: DamageSeverity)
    ensures s.Code() == code
    ensures 0 <= code <= 3 <==> !s.Other?
  {
    match code
    case 0 => DamageSeverity.Minor
    case 1 => DamageSeverity.Moderate
    case 2 => DamageSeverity.Major
    case 3 => DamageSeverity.Critical
    case _ => DamageSeverity.Other(code)
  }

  datatype DamageStatus = Reported | UnderRepair | Repaired | Unresolved | Other(code: int)
  {
    function Code(): int {
      match this
      case Reported => 0
      case UnderRepair => 1
      case Repaired => 2
      case Unresolved => 3
      case Other(c) => c
    }
  }

  function DamageStatusOf(code: int): (s: DamageStatus)
    ensures s.Code() == code
    ensures 0 <= code <= 3 <==> !s.Other?
  {
    match code
    case 0 => DamageStatus.Reported
    case 1 => DamageStatus.UnderRepair
    case 2 => DamageStatus.Repaired
    case 3 => DamageStatus.Unresolved
    case _ => DamageStatus.Other(code)
  }

  /** A named value survives the round trip through its integer code. */
  lemma NamedCodesRoundTrip(t: MaintenanceType, s: MaintenanceStatus, v: DamageSeverity, d: DamageStatus)
    requires !t.Other? && !s.Other? && !v.Other? && !d.Other?
    ensures MaintenanceTypeOf(t.Code()) == t && MaintenanceStatusOf(s.Code()) == s
    ensures DamageSeverityOf(v.Code()) == v && DamageStatusOf(d.Code()) == d
  {
  }

  datatype Vehicle = Vehicle(
    id: int,
    brand: string,
    model: string,
    category: VehicleCategory,
    dailyRate: real,
    status: VehicleStatus,
    mileage: int)

  /** The renter as the pricing strategies see it: an id and a loyalty tier. */
  datatype Renter = Renter(id: int, tier: CustomerTier)

  datatype Rental = Rental(
    id: int,
    customerId: int,
    vehicleId: int,
    startDate: Instant,
    endDate: Instant,
    actualReturnDate: Option<Instant>,
    totalCost: real,
    status: RentalStatus,
    startMileage: Option<int>,
    endMileage: Option<int>,
    createdAt: Instant)

  datatype Maintenance = Maintenance(
    id: int,
    vehicleId: int,
    scheduledDate: Instant,
    completedDate: Option<Instant>,
    description: string,
    cost: real,
    kind: MaintenanceType,
    status: MaintenanceStatus)

  datatype VehicleDamage = VehicleDamage(
    id: int,
    vehicleId: int,
    rentalId: Option<int>,
    reportedDate: Instant,
    description: string,
    severity: DamageSeverity,
    repairCost: real,
    repairedDate: Option<Instant>,
    reportedBy: Option<string>,
    imageUrl: Option<string>,
    status: DamageStatus)

  /** The maintenance list filter, shared by the web client, which encodes
      it as a query string, and the server, which applies it. */
  datatype MaintenanceFilter = MaintenanceFilter(
    vehicleId: Option<int>,
    kind: Option<int>,
    status: Option<int>,
    startDate: Option<Instant>,
    endDate: Option<Instant>,
    isOverdue: Option<bool>)

  /** The damage list filter, shared in the same way. */
  datatype DamageFilter = DamageFilter(
    vehicleId: Option<int>,
    rentalId: Option<int>,
    severity: Option<int>,
    status: Option<int>,
    startDate: Option<Instant>,
    endDate: Option<Instant>,
    unresolvedOnly: Option<bool>)
}
