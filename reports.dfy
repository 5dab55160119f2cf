/** The report service: dashboard counts and revenue, rental statistics
    over an optional period, and vehicle utilization. Every report reads
    the vehicle and rental lists and changes nothing. */
module Reports {
  import opened Wrappers
  import opened Seqs
  import opened Time
  import opened Entities

  predicate IsCompleted(r: Rental) { r.status == RentalStatus.Completed }

  function TotalCost(r: Rental): real { r.totalCost }

  /** `Count(r => r.Status == status)`. */
  function CountRentals(rs: seq<Rental>, status: RentalStatus): (n: nat)
    ensures n <= |rs|
  {
    if |rs| == 0 then 0 else (if rs[0].status == status then 1 else 0) + CountRentals(rs[1..], status)
  }

  /** `Count(v => v.Status == status)`. */
  function CountVehicles(vs: seq<Vehicle>, status: VehicleStatus): (n: nat)
    ensures n <= |vs|
  {
    if |vs| == 0 then 0 else (if vs[0].status == status then 1 else 0) + CountVehicles(vs[1..], status)
  }

  /** A rental has exactly one of the four statuses, so the four counts
      add up to the number of rentals. */
  lemma {:induction false} RentalStatusesPartition(rs: seq<Rental>)
    ensures CountRentals(rs, RentalStatus.Active) + CountRentals(rs, RentalStatus.Reserved)
            + CountRentals(rs, RentalStatus.Completed) + CountRentals(rs, RentalStatus.Cancelled) == |rs|
  {
    if |rs| > 0 {
      RentalStatusesPartition(rs[1..]);
    }
  }

  /** Likewise for the five vehicle statuses: Reserved and Retired vehicles
      are the ones the dashboard counts nowhere. */
  lemma {:induction false} VehicleStatusesPartition(vs: seq<Vehicle>)
    ensures CountVehicles(vs, VehicleStatus.Available) + CountVehicles(vs, VehicleStatus.Rented)
            + CountVehicles(vs, VehicleStatus.Maintenance) + CountVehicles(vs, VehicleStatus.Reserved)
            + CountVehicles(vs, VehicleStatus.Retired) == |vs|
  {
    if |vs| > 0 {
      VehicleStatusesPartition(vs[1..]);
    }
  }

  /** The Completed rentals, as a list, number as many as the count says. */
  lemma {:induction false} CompletedListMatchesCount(rs: seq<Rental>)
    ensures |Filter(rs, IsCompleted)| == CountRentals(rs, RentalStatus.Completed)
  {
    if |rs| > 0 {
      CompletedListMatchesCount(rs[1..]);
    }
  }

  /** Revenue: the total cost of the Completed rentals. */
  function Revenue(rs: seq<Rental>): real
  {
    Sum(Filter(rs, IsCompleted), TotalCost)
  }

  /** Only Completed rentals earn: adding any other rental leaves the revenue
      as it was, adding a Completed one adds its cost. */
  lemma RevenueCountsCompletedOnly(rs: seq<Rental>, r: Rental)
    ensures !IsCompleted(r) ==> Revenue(rs + [r]) == Revenue(rs)
    ensures IsCompleted(r) ==> Revenue(rs + [r]) == Revenue(rs) + r.totalCost
  {
    FilterAppend(rs, [r], IsCompleted);
    SumAppend(Filter(rs, IsCompleted), Filter([r], IsCompleted), TotalCost);
  }

  predicate StartedInMonthOf(r: Rental, now: Instant)
  {
    Month(r.startDate) == Month(now) && Year(r.startDate) == Year(now)
  }

  /** Revenue of the Completed rentals that started in the calendar month
      of `now`. */
  function MonthlyRevenue(rs: seq<Rental>, now: Instant): real
  {
    Sum(Filter(rs, (r: Rental) => IsCompleted(r) && StartedInMonthOf(r, now)), TotalCost)
  }

  /** With no negative costs, one month never earns more than all time. */
  lemma MonthlyRevenueAtMostTotal(rs: seq<Rental>, now: Instant)
    ensures (forall r :: r in rs ==> r.totalCost >= 0.0) ==> MonthlyRevenue(rs, now) <= Revenue(rs)
  {
    if forall r :: r in rs ==> r.totalCost >= 0.0 {
      SumFilterMonotonic(rs, (r: Rental) => IsCompleted(r) && StartedInMonthOf(r, now), IsCompleted, TotalCost);
    }
  }

  /** Vehicles of category `c`, and of the given status when one is given. */
  function CategoryCount(vs: seq<Vehicle>, c: VehicleCategory, status: Option<VehicleStatus>): (n: nat)
    ensures n <= |vs|
  {
    if |vs| == 0 then 0
    else (if vs[0].category == c && (status.Some? ==> vs[0].status == status.value) then 1 else 0)
         + CategoryCount(vs[1..], c, status)
  }

  /** No category has more Available and Rented vehicles than vehicles. */
  lemma {:induction false} CategoryCountsBounded(vs: seq<Vehicle>, c: VehicleCategory)
    ensures CategoryCount(vs, c, Some(VehicleStatus.Available)) + CategoryCount(vs, c, Some(VehicleStatus.Rented))
            <= CategoryCount(vs, c, None)
  {
    if |vs| > 0 {
      CategoryCountsBounded(vs[1..], c);
    }
  }

  lemma {:induction false} CategoryCountPositive(vs: seq<Vehicle>, c: VehicleCategory, k: nat)
    requires k < |vs| && vs[k].category == c
    ensures CategoryCount(vs, c, None) >= 1
  {
    if k > 0 {
      CategoryCountPositive(vs[1..], c, k - 1);
    }
  }

  /** One group of the vehicles-by-category breakdown. */
  datatype CategoryReport = CategoryReport(category: VehicleCategory, count: nat, available: nat, rented: nat)

  function CategoryReportOf(vs: seq<Vehicle>, c: VehicleCategory): CategoryReport
  {
    CategoryReport(c, CategoryCount(vs, c, None), CategoryCount(vs, c, Some(VehicleStatus.Available)),
      CategoryCount(vs, c, Some(VehicleStatus.Rented)))
  }

  /** `GroupBy(v => v.Category)`: one group per category present, in order
      of first occurrence, each counting its vehicles. */
  function VehiclesByCategory(vs: seq<Vehicle>): (groups: seq<CategoryReport>)
    ensures forall i, j :: 0 <= i < j < |groups| ==> groups[i].category != groups[j].category
    ensures forall v :: v in vs ==> exists i :: 0 <= i < |groups| && groups[i].category == v.category
    ensures forall i :: 0 <= i < |groups| ==> groups[i] == CategoryReportOf(vs, groups[i].category)
    ensures forall i :: 0 <= i < |groups| ==> 1 <= groups[i].count && groups[i].available + groups[i].rented <= groups[i].count
  {
    var categories := Map(vs, (v: Vehicle) => v.category);
    var keys := Distinct(categories);
    var groups := Map(keys, (c: VehicleCategory) => CategoryReportOf(vs, c));
    forall v | v in vs ensures exists i :: 0 <= i < |groups| && groups[i].category == v.category {
      var k :| 0 <= k < |vs| && vs[k] == v;
      assert categories[k] == v.category;
      assert v.category in keys;
      var j :| 0 <= j < |keys| && keys[j] == v.category;
      assert groups[j].category == v.category;
    }
    forall i | 0 <= i < |groups|
      ensures 1 <= groups[i].count && groups[i].available + groups[i].rented <= groups[i].count
    {
      var c := keys[i];
      assert c in categories;
      var k :| 0 <= k < |categories| && categories[k] == c;
      CategoryCountPositive(vs, c, k);
      CategoryCountsBounded(vs, c);
    }
    groups
  }

  /** One entry of the top-rented list. */
  datatype TopVehicle = TopVehicle(vehicleId: int, rentalCount: nat, totalRevenue: real)

  function CompletedRentalsOf(rs: seq<Rental>, vehicleId: int): seq<Rental>
  {
    Filter(rs, (r: Rental) => IsCompleted(r) && r.vehicleId == vehicleId)
  }

  /** A vehicle's Completed rentals: how many, and their total cost. */
  function TopVehicleOf(rs: seq<Rental>, vehicleId: int): TopVehicle
  {
    TopVehicle(vehicleId, |CompletedRentalsOf(rs, vehicleId)|, Sum(CompletedRentalsOf(rs, vehicleId), TotalCost))
  }

  /** The vehicles with at least one Completed rental, in order of first
      occurrence. */
  function CompletedVehicleIds(rs: seq<Rental>): (ids: seq<int>)
    ensures forall i, j :: 0 <= i < j < |ids| ==> ids[i] != ids[j]
    ensures forall id :: id in ids ==> exists r :: r in rs && IsCompleted(r) && r.vehicleId == id
    ensures forall r :: r in rs && IsCompleted(r) ==> r.vehicleId in ids
  {
    var completed := Filter(rs, IsCompleted);
    var vehicleIds := Map(completed, (r: Rental) => r.vehicleId);
    forall r | r in rs && IsCompleted(r) ensures r.vehicleId in vehicleIds {
      var k :| 0 <= k < |completed| && completed[k] == r;
      assert vehicleIds[k] == r.vehicleId;
    }
    forall id | id in vehicleIds ensures exists r :: r in rs && IsCompleted(r) && r.vehicleId == id {
      var k :| 0 <= k < |vehicleIds| && vehicleIds[k] == id;
      assert completed[k] in completed;
    }
    Distinct(vehicleIds)
  }

  /** A vehicle with a Completed rental has a positive rental count. */
  lemma CompletedVehicleCounted(rs: seq<Rental>, id: int)
    requires id in CompletedVehicleIds(rs)
    ensures TopVehicleOf(rs, id).rentalCount >= 1
  {
    var r :| r in rs && IsCompleted(r) && r.vehicleId == id;
    assert r in CompletedRentalsOf(rs, id);
  }

  function RentalCountKey(t: TopVehicle): real { t.rentalCount as real }

  const TopVehiclesShown: nat := 5

  /** An entry of the ranking: a vehicle with Completed rentals, and its
      count and revenue. */
  ghost predicate RankedEntry(rs: seq<Rental>, t: TopVehicle)
  {
    t.vehicleId in CompletedVehicleIds(rs) && t == TopVehicleOf(rs, t.vehicleId) && t.rentalCount >= 1
  }

  /** Every vehicle with Completed rentals, ranked by rental count, most
      first. */
  function RankedVehicles(rs: seq<Rental>): (ranked: seq<TopVehicle>)
    ensures |ranked| == |CompletedVehicleIds(rs)|
    ensures SortedDesc(ranked, RentalCountKey)
    ensures forall t :: t in ranked ==> RankedEntry(rs, t)
  {
    var ids := CompletedVehicleIds(rs);
    var groups := Map(ids, (id: int) => TopVehicleOf(rs, id));
    forall k | 0 <= k < |groups| ensures RankedEntry(rs, groups[k]) {
      CompletedVehicleCounted(rs, ids[k]);
    }
    var sorted := SortDesc(groups, RentalCountKey);
    SameMembers(sorted, groups);
    sorted
  }

  /** The ranking leaves no vehicle with Completed rentals out. */
  lemma RankedVehiclesComplete(rs: seq<Rental>, id: int)
    requires id in CompletedVehicleIds(rs)
    ensures TopVehicleOf(rs, id) in RankedVehicles(rs)
  {
    var ids := CompletedVehicleIds(rs);
    var groups := Map(ids, (id: int) => TopVehicleOf(rs, id));
    var k :| 0 <= k < |ids| && ids[k] == id;
    assert groups[k] == TopVehicleOf(rs, id);
    SameMembers(SortDesc(groups, RentalCountKey), groups);
  }

  /** The top-rented list: one entry per vehicle with Completed rentals,
      most rentals first, at most five; a vehicle left off has no more
      rentals than any vehicle shown. */
  function TopRentedVehicles(rs: seq<Rental>): (top: seq<TopVehicle>)
    ensures |top| == if |CompletedVehicleIds(rs)| < TopVehiclesShown then |CompletedVehicleIds(rs)| else TopVehiclesShown
    ensures SortedDesc(top, RentalCountKey)
    ensures forall t :: t in top ==> t.vehicleId in CompletedVehicleIds(rs) && t == TopVehicleOf(rs, t.vehicleId)
    ensures forall t :: t in top ==> t.rentalCount >= 1
    ensures forall id, t :: id in CompletedVehicleIds(rs) && TopVehicleOf(rs, id) !in top && t in top ==>
              t.rentalCount >= TopVehicleOf(rs, id).rentalCount
  {
    var ranked := RankedVehicles(rs);
    TakeSortedDesc(ranked, TopVehiclesShown, RentalCountKey);
    forall id | id in CompletedVehicleIds(rs) ensures TopVehicleOf(rs, id) in ranked {
      RankedVehiclesComplete(rs, id);
    }
    Take(ranked, TopVehiclesShown)
  }

  /** No vehicle is listed twice among the top-rented entries. */
  lemma TopRentedVehiclesDistinct(rs: seq<Rental>)
    ensures var top := TopRentedVehicles(rs);
            forall i, j :: 0 <= i < j < |top| ==> top[i].vehicleId != top[j].vehicleId
  {
    var ids := CompletedVehicleIds(rs);
    var groups := Map(ids, (id: int) => TopVehicleOf(rs, id));
    assert NoDuplicates(groups) by {
      forall i, j | 0 <= i < j < |groups| ensures groups[i] != groups[j] {
        assert groups[i].vehicleId == ids[i] && groups[j].vehicleId == ids[j];
      }
    }
    var ranked := RankedVehicles(rs);
    assert ranked == SortDesc(groups, RentalCountKey);
    PermutationKeepsNoDuplicates(groups, ranked);
    var top := TopRentedVehicles(rs);
    assert top == Take(ranked, TopVehiclesShown);
    forall i, j | 0 <= i < j < |top| ensures top[i].vehicleId != top[j].vehicleId {
      assert top[i] == ranked[i] && top[j] == ranked[j];
      assert ranked[i] in ranked && ranked[j] in ranked;
      assert RankedEntry(rs, ranked[i]) && RankedEntry(rs, ranked[j]);
    }
  }

  function CreatedKey(r: Rental): real { r.createdAt as real }

  const RecentRentalsShown: nat := 10

  /** The recent-rentals list: the ten rentals created last, newest first;
      nothing left off was created later than anything shown. */
  function RecentRentals(rs: seq<Rental>): (recent: seq<Rental>)
    ensures |recent| == if |rs| < RecentRentalsShown then |rs| else RecentRentalsShown
    ensures SortedDesc(recent, CreatedKey)
    ensures forall r :: r in recent ==> r in rs
    ensures multiset(recent) <= multiset(rs)
    ensures forall r, x :: r in recent && x in rs && x !in recent ==> r.createdAt >= x.createdAt
  {
    var sorted := SortDesc(rs, CreatedKey);
    SameMembers(sorted, rs);
    TakeSortedDesc(sorted, RecentRentalsShown, CreatedKey);
    Take(sorted, RecentRentalsShown)
  }

  datatype Dashboard = Dashboard(
    totalVehicles: nat,
    availableVehicles: nat,
    rentedVehicles: nat,
    underMaintenanceVehicles: nat,
    totalRentals: nat,
    activeRentals: nat,
    reservedRentals: nat,
    completedRentals: nat,
    cancelledRentals: nat,
    totalRevenue: real,
    monthlyRevenue: real,
    vehiclesByCategory: seq<CategoryReport>,
    topRentedVehicles: seq<TopVehicle>,
    recentRentals: seq<Rental>)

  /** `GetDashboardReportAsync` at instant `now`, without the customer
      count and the revenue-by-month breakdown. */
  function GetDashboardReport(vs: seq<Vehicle>, rs: seq<Rental>, now: Instant): (d: Dashboard)
    ensures d.totalVehicles == |vs| && d.totalRentals == |rs|
    ensures d.activeRentals + d.reservedRentals + d.completedRentals + d.cancelledRentals == d.totalRentals
    ensures d.availableVehicles + d.rentedVehicles + d.underMaintenanceVehicles
            + CountVehicles(vs, VehicleStatus.Reserved) + CountVehicles(vs, VehicleStatus.Retired) == d.totalVehicles
    ensures (forall r :: r in rs ==> r.totalCost >= 0.0) ==> d.monthlyRevenue <= d.totalRevenue
  {
    RentalStatusesPartition(rs);
    VehicleStatusesPartition(vs);
    MonthlyRevenueAtMostTotal(rs, now);
    Dashboard(
      |vs|,
      CountVehicles(vs, VehicleStatus.Available),
      CountVehicles(vs, VehicleStatus.Rented),
      CountVehicles(vs, VehicleStatus.Maintenance),
      |rs|,
      CountRentals(rs, RentalStatus.Active),
      CountRentals(rs, RentalStatus.Reserved),
      CountRentals(rs, RentalStatus.Completed),
      CountRentals(rs, RentalStatus.Cancelled),
      Revenue(rs),
      MonthlyRevenue(rs, now),
      VehiclesByCategory(vs),
      TopRentedVehicles(rs),
      RecentRentals(rs))
  }

  /** Within the optional bounds: starting no earlier than `start`, ending
      no later than `end`. */
  predicate InBounds(r: Rental, start: Option<Instant>, end: Option<Instant>)
  {
    (start.Some? ==> r.startDate >= start.value) && (end.Some? ==> r.endDate <= end.value)
  }

  /** The two optional `Where` calls on the period bounds. */
  function InPeriod(rs: seq<Rental>, start: Option<Instant>, end: Option<Instant>): (period: seq<Rental>)
    ensures forall r :: r in period ==> r in rs && InBounds(r, start, end)
    ensures forall r :: r in rs && InBounds(r, start, end) ==> r in period
  {
    var afterStart := Where(rs, start.Some?, (r: Rental) => InBounds(r, start, None));
    Where(afterStart, end.Some?, (r: Rental) => InBounds(r, None, end))
  }

  /** The bounds filter is one filter on their conjunction. */
  lemma InPeriodIsFilter(rs: seq<Rental>, start: Option<Instant>, end: Option<Instant>)
    ensures InPeriod(rs, start, end) == Filter(rs, (r: Rental) => InBounds(r, start, end))
  {
    var bounds := (r: Rental) => InBounds(r, start, end);
    var p := (r: Rental) => InBounds(r, start, None);
    var q := (r: Rental) => InBounds(r, None, end);
    if start.Some? && end.Some? {
      FilterFilter(rs, p, q, bounds);
    } else if start.Some? {
      FilterSame(rs, p, bounds);
    } else if end.Some? {
      FilterSame(rs, q, bounds);
    } else {
      FilterAll(rs, bounds);
    }
  }

  /** `Average` over `n` values summing to `total`, or 0 when there are
      none. */
  function Average(total: real, n: nat): (a: real)
    ensures n > 0 ==> a * (n as real) == total
    ensures n == 0 ==> a == 0.0
  {
    if n > 0 then total / (n as real) else 0.0
  }

  datatype Statistics = Statistics(
    totalRentals: nat,
    activeRentals: nat,
    completedRentals: nat,
    cancelledRentals: nat,
    totalRevenue: real,
    averageRentalCost: real)

  /** `GetRentalStatisticsAsync`: counts and revenue over the rentals within
      the bounds; the average cost is the revenue per Completed rental, or 0
      without any. */
  function GetRentalStatistics(rs: seq<Rental>, start: Option<Instant>, end: Option<Instant>): (s: Statistics)
    ensures s.activeRentals + s.completedRentals + s.cancelledRentals <= s.totalRentals <= |rs|
    ensures s.totalRentals == |Filter(rs, (r: Rental) => InBounds(r, start, end))|
    ensures s.completedRentals == 0 ==> s.averageRentalCost == 0.0 && s.totalRevenue == 0.0
    ensures s.averageRentalCost == Average(s.totalRevenue, s.completedRentals)
    ensures start.None? && end.None? ==> s.totalRentals == |rs| && s.totalRevenue == Revenue(rs)
  {
    var period := InPeriod(rs, start, end);
    InPeriodIsFilter(rs, start, end);
    RentalStatusesPartition(period);
    CompletedListMatchesCount(period);
    var completed := Filter(period, IsCompleted);
    var revenue := Sum(completed, TotalCost);
    var average := Average(revenue, |completed|);
    Statistics(
      |period|,
      CountRentals(period, RentalStatus.Active),
      |completed|,
      CountRentals(period, RentalStatus.Cancelled),
      revenue,
      average)
  }

  /** With no negative costs, narrowing the period never raises the
      revenue. */
  lemma StatisticsRevenueAtMostOverall(rs: seq<Rental>, start: Option<Instant>, end: Option<Instant>)
    requires forall r :: r in rs ==> r.totalCost >= 0.0
    ensures GetRentalStatistics(rs, start, end).totalRevenue <= Revenue(rs)
  {
    var bounds := (r: Rental) => InBounds(r, start, end);
    var both := (r: Rental) => InBounds(r, start, end) && IsCompleted(r);
    InPeriodIsFilter(rs, start, end);
    FilterFilter(rs, bounds, IsCompleted, both);
    SumFilterMonotonic(rs, both, IsCompleted, TotalCost);
  }

  /** The length of the report period in whole days, at least 1. Without
      bounds it runs from `defaultStart` (twelve months before `now`) to
      `now`. */
  function ReportPeriodDays(start: Option<Instant>, end: Option<Instant>, now: Instant, defaultStart: Instant): (days: int)
    ensures days >= 1
    ensures var span := WholeDays(end.GetOr(now) as int - start.GetOr(defaultStart) as int);
            span >= 1 ==> days == span
  {
    var span := WholeDays(end.GetOr(now) as int - start.GetOr(defaultStart) as int);
    if span < 1 then 1 else span
  }

  /** `(EndDate - StartDate).Days` summed over rentals; an inverted rental
      subtracts. */
  function RentedDays(rs: seq<Rental>): int
  {
    if |rs| == 0 then 0 else WholeDays(rs[0].endDate as int - rs[0].startDate as int) + RentedDays(rs[1..])
  }

  datatype Utilization = Utilization(
    vehicleId: int,
    totalRentals: nat,
    totalDaysRented: int,
    utilizationRate: real,
    totalRevenue: real)

  /** One vehicle's entry: its Completed rentals in the period, the days
      they cover, and those days as a percentage of the period. */
  function UtilizationOf(v: Vehicle, period: seq<Rental>, totalDays: int): (u: Utilization)
    requires totalDays >= 1
    ensures u.vehicleId == v.id
    ensures u.utilizationRate * (totalDays as real) == (u.totalDaysRented as real) * 100.0
    ensures u.totalRentals == 0 ==> u.totalDaysRented == 0 && u.utilizationRate == 0.0 && u.totalRevenue == 0.0
  {
    var mine := CompletedRentalsOf(period, v.id);
    var days := RentedDays(mine);
    Utilization(v.id, |mine|, days, (days as real) / (totalDays as real) * 100.0, Sum(mine, TotalCost))
  }

  /** The entries in vehicle order, before sorting. */
  function UtilizationEntries(vs: seq<Vehicle>, period: seq<Rental>, totalDays: int): (entries: seq<Utilization>)
    requires totalDays >= 1
    ensures |entries| == |vs|
    ensures forall i :: 0 <= i < |vs| ==> entries[i] == UtilizationOf(vs[i], period, totalDays)
  {
    Map(vs, (v: Vehicle) => UtilizationOf(v, period, totalDays))
  }

  function RateKey(u: Utilization): real { u.utilizationRate }

  /** `GetVehicleUtilizationReportAsync`: exactly one entry per vehicle,
      highest utilization first. */
  function GetVehicleUtilizationReport(vs: seq<Vehicle>, rs: seq<Rental>, start: Option<Instant>, end: Option<Instant>,
                                       now: Instant, defaultStart: Instant): (report: seq<Utilization>)
    ensures |report| == |vs|
    ensures SortedDesc(report, RateKey)
    ensures multiset(report)
            == multiset(UtilizationEntries(vs, InPeriod(rs, start, end), ReportPeriodDays(start, end, now, defaultStart)))
    ensures forall v :: v in vs ==> exists u :: u in report && u.vehicleId == v.id
    ensures forall u :: u in report ==> exists v :: v in vs && u.vehicleId == v.id
  {
    var entries := UtilizationEntries(vs, InPeriod(rs, start, end), ReportPeriodDays(start, end, now, defaultStart));
    SortedUtilization(vs, entries)
  }

  /** The entries sorted by rate, each still naming its vehicle. */
  function SortedUtilization(vs: seq<Vehicle>, entries: seq<Utilization>): (report: seq<Utilization>)
    requires |entries| == |vs|
    requires forall i :: 0 <= i < |vs| ==> entries[i].vehicleId == vs[i].id
    ensures |report| == |vs|
    ensures SortedDesc(report, RateKey)
    ensures multiset(report) == multiset(entries)
    ensures forall v :: v in vs ==> exists u :: u in report && u.vehicleId == v.id
    ensures forall u :: u in report ==> exists v :: v in vs && u.vehicleId == v.id
  {
    var report := SortDesc(entries, RateKey);
    SameMembers(report, entries);
    forall v | v in vs ensures exists u :: u in report && u.vehicleId == v.id {
      var k :| 0 <= k < |vs| && vs[k] == v;
      assert entries[k] in entries;
    }
    forall u | u in report ensures exists v :: v in vs && u.vehicleId == v.id {
      var k :| 0 <= k < |entries| && entries[k] == u;
      assert vs[k] in vs;
    }
    report
  }

  /** A vehicle with no Completed rental in the period shows zero
      utilization, wherever it sits in the report. */
  lemma IdleVehicleHasZeroUtilization(v: Vehicle, period: seq<Rental>, totalDays: int)
    requires totalDays >= 1
    requires forall r :: r in period && r.vehicleId == v.id ==> !IsCompleted(r)
    ensures UtilizationOf(v, period, totalDays).utilizationRate == 0.0
    ensures UtilizationOf(v, period, totalDays).totalRevenue == 0.0
  {
    FilterNone(period, (r: Rental) => IsCompleted(r) && r.vehicleId == v.id);
  }
}
