/** .NET `DateTime` and `TimeSpan` as far as the core uses them. An instant is
    its tick count: 100-nanosecond ticks since 0001-01-01T00:00:00 in the
    proleptic Gregorian calendar. */
module Time {

  type Instant = nat

  const TicksPerDay: nat := 864_000_000_000

  /** `TimeSpan.Days` of a span of `span` ticks: whole days, truncated toward
      zero (so a negative span of less than a day is 0 days). */
  function WholeDays(span: int): (d: int)
    ensures span >= 0 ==> 0 <= d && d * TicksPerDay <= span < (d + 1) * TicksPerDay
    ensures span < 0 ==> d <= 0 && -span - TicksPerDay < -d * TicksPerDay <= -span
  {
    if span >= 0 then span / TicksPerDay else -((-span) / TicksPerDay)
  }

  /** A span of less than one day, or a negative one, has fewer than one
      whole day; a span of at least one day has at least one. */
  lemma WholeDaysBelowOne(span: int)
    ensures WholeDays(span) < 1 <==> span < TicksPerDay
  {
  }

  /** `DateTime.Date`: midnight of the same day. */
  function StartOfDay(t: Instant): (d: Instant)
    ensures d <= t < d + TicksPerDay
    ensures d % TicksPerDay == 0
  {
    t - t % TicksPerDay
  }

  /** `AddDays(n)` for a whole number of days. */
  function AddDays(t: Instant, n: nat): (r: Instant)
    ensures r - t == n * TicksPerDay
  {
    t + n * TicksPerDay
  }

  const Sunday: nat := 0
  const Saturday: nat := 6

  /** `DayOfWeek` with Sunday = 0 ... Saturday = 6; 0001-01-01 was a Monday. */
  function DayOfWeek(t: Instant): (d: nat)
    ensures d < 7
  {
    (t / TicksPerDay + 1) % 7
  }

  predicate IsWeekend(t: Instant)
  {
    DayOfWeek(t) == Saturday || DayOfWeek(t) == Sunday
  }

  /** One day later is the next weekday. */
  lemma DayOfWeekNextDay(t: Instant)
    ensures DayOfWeek(AddDays(t, 1)) == (DayOfWeek(t) + 1) % 7
  {
    assert (t + TicksPerDay) / TicksPerDay == t / TicksPerDay + 1;
  }

  /** Days since 0001-01-01 of the instant's date. */
  function DayNumber(t: Instant): nat
  {
    t / TicksPerDay
  }

  /** A calendar date: year, month 1..12 and day of month 1..31. */
  datatype Civil = Civil(year: int, month: int, day: int)

  const DaysPerYear: nat := 365
  const DaysPer4Years: nat := 1461
  const DaysPer100Years: nat := 36524
  const DaysPer400Years: nat := 146097

  /** Days before the first of month `m` (0..12) in a year. */
  function DaysToMonth(leap: bool, m: nat): nat
    requires m <= 12
  {
    var days := [0, 31, 59, 90, 120, 151, 181, 212, 243, 273, 304, 334, 365];
    days[m] + (if leap && m >= 2 then 1 else 0)
  }

  /** The month whose days contain day-of-year `doy`, searching from `m`. */
  function MonthOfDay(leap: bool, doy: nat, m: nat): (r: nat)
    requires 1 <= m <= 12 && DaysToMonth(leap, m - 1) <= doy
    requires doy < DaysToMonth(leap, 12)
    ensures m <= r <= 12
    ensures DaysToMonth(leap, r - 1) <= doy < DaysToMonth(leap, r)
    ensures doy - DaysToMonth(leap, r - 1) < 31
    decreases 12 - m
  {
    if doy < DaysToMonth(leap, m) then m else MonthOfDay(leap, doy, m + 1)
  }

  /** Splits a day of a 400-year era into its century (0..3) and the day of
      that century; the last century of an era is one day longer. */
  function CenturyOf(n1: nat): (r: (nat, nat))
    requires n1 < DaysPer400Years
    ensures r.0 <= 3
    ensures r.1 < DaysPer100Years + (if r.0 == 3 then 1 else 0)
  {
    var y100 := if n1 / DaysPer100Years == 4 then 3 else n1 / DaysPer100Years;
    (y100, n1 - y100 * DaysPer100Years)
  }

  /** Splits a day of a century into its 4-year block (0..24) and the day of
      that block; block 24 of a century not divisible by 400 lacks its
      leap day. */
  function QuadOf(n2: nat, y100: nat): (r: (nat, nat))
    requires y100 <= 3 && n2 < DaysPer100Years + (if y100 == 3 then 1 else 0)
    ensures r.0 <= 24 && r.1 < DaysPer4Years
    ensures r.0 == 24 && y100 != 3 ==> r.1 < DaysPer4Years - 1
  {
    (n2 / DaysPer4Years, n2 % DaysPer4Years)
  }

  /** Splits a day of a 4-year block into its year (0..3) and day of year. */
  function YearOf(n3: nat): (r: (nat, nat))
    requires n3 < DaysPer4Years
    ensures r.0 <= 3 && r.1 <= 365
    ensures r.0 < 3 || n3 < DaysPer4Years - 1 ==> r.1 < 365
  {
    var y1 := if n3 / DaysPerYear == 4 then 3 else n3 / DaysPerYear;
    (y1, n3 - y1 * DaysPerYear)
  }

  /** The proleptic Gregorian date of a day number, decomposed into
      400-, 100-, 4- and 1-year blocks the way `DateTime` does it. */
  function CivilFromDayNumber(n: nat): (c: Civil)
    ensures 1 <= c.month <= 12
    ensures 1 <= c.day <= 31
    ensures c.year >= 1
  {
    var y400 := n / DaysPer400Years;
    var (y100, n2) := CenturyOf(n % DaysPer400Years);
    var (y4, n3) := QuadOf(n2, y100);
    var (y1, doy) := YearOf(n3);
    var leap := y1 == 3 && (y4 != 24 || y100 == 3);
    var m := MonthOfDay(leap, doy, 1);
    Civil(y400 * 400 + y100 * 100 + y4 * 4 + y1 + 1, m, doy - DaysToMonth(leap, m - 1) + 1)
  }

  function Year(t: Instant): int { CivilFromDayNumber(DayNumber(t)).year }
  function Month(t: Instant): int { CivilFromDayNumber(DayNumber(t)).month }
  function Day(t: Instant): int { CivilFromDayNumber(DayNumber(t)).day }
}
