/** The four pricing strategies. Each computes a price from the vehicle's
    daily rate, the rental's start and end instants and the renter's tier.
    Prices are exact decimals, here `real`. */
module Pricing {
  import opened Time
  import opened Entities

  /** The billed days: `(endDate - startDate).Days`, raised to 1 when below 1.
      Same-day, sub-day and inverted ranges all bill one day. */
  function BilledDays(startDate: Instant, endDate: Instant): (days: nat)
    ensures days >= 1
    ensures endDate - startDate < 2 * TicksPerDay ==> days == 1
    ensures endDate - startDate >= TicksPerDay ==>
              days * TicksPerDay <= endDate - startDate < (days + 1) * TicksPerDay
  {
    var days := WholeDays(endDate - startDate);
    if days < 1 then 1 else days
  }

  /** Standard pricing: the daily rate times the billed days. The renter does
      not enter into it. */
  function StandardPrice(dailyRate: real, startDate: Instant, endDate: Instant, tier: CustomerTier): (price: real)
    ensures dailyRate >= 0.0 ==> price >= dailyRate
    ensures endDate - startDate < 2 * TicksPerDay ==> price == dailyRate
  {
    dailyRate * BilledDays(startDate, endDate) as real
  }

  lemma StandardIgnoresRenter(dailyRate: real, startDate: Instant, endDate: Instant, t1: CustomerTier, t2: CustomerTier)
    ensures StandardPrice(dailyRate, startDate, endDate, t1) == StandardPrice(dailyRate, startDate, endDate, t2)
  {
  }

  /** The loyalty discount of a tier: 5% Silver, 10% Gold, 15% Platinum. */
  function LoyaltyDiscount(tier: CustomerTier): (discount: real)
    ensures 0.0 <= discount <= 0.15
    ensures discount == 0.0 <==> tier == CustomerTier.Standard
  {
    match tier
    case Silver => 0.05
    case Gold => 0.10
    case Platinum => 0.15
    case _ => 0.0
  }

  /** Tiers in increasing order of loyalty. */
  function TierRank(tier: CustomerTier): nat
  {
    match tier
    case Standard => 0
    case Silver => 1
    case Gold => 2
    case Platinum => 3
  }

  /** Loyalty pricing: the standard price less the tier's discount. A
      Standard-tier renter pays the standard price; nobody gets more than
      15% off. */
  function LoyaltyPrice(dailyRate: real, startDate: Instant, endDate: Instant, tier: CustomerTier): (price: real)
    ensures tier == CustomerTier.Standard ==> price == StandardPrice(dailyRate, startDate, endDate, tier)
    ensures dailyRate >= 0.0 ==>
              0.85 * StandardPrice(dailyRate, startDate, endDate, tier) <= price
              <= StandardPrice(dailyRate, startDate, endDate, tier)
  {
    var basePrice := StandardPrice(dailyRate, startDate, endDate, tier);
    basePrice * (1.0 - LoyaltyDiscount(tier))
  }

  /** A higher tier never gets a smaller discount. */
  lemma DiscountMonotonic(lower: CustomerTier, higher: CustomerTier)
    requires TierRank(lower) <= TierRank(higher)
    ensures LoyaltyDiscount(lower) <= LoyaltyDiscount(higher)
  {
    match higher
    case Standard =>
    case Silver =>
    case Gold =>
    case Platinum =>
  }

  /** A higher tier never pays more for the same vehicle and dates. */
  lemma LoyaltyTierMonotonic(dailyRate: real, startDate: Instant, endDate: Instant, lower: CustomerTier, higher: CustomerTier)
    requires dailyRate >= 0.0
    requires TierRank(lower) <= TierRank(higher)
    ensures LoyaltyPrice(dailyRate, startDate, endDate, higher) <= LoyaltyPrice(dailyRate, startDate, endDate, lower)
  {
    var basePrice := StandardPrice(dailyRate, startDate, endDate, lower);
    StandardIgnoresRenter(dailyRate, startDate, endDate, lower, higher);
    DiscountMonotonic(lower, higher);
    assert basePrice * (1.0 - LoyaltyDiscount(higher)) <= basePrice * (1.0 - LoyaltyDiscount(lower)) by {
      assert basePrice * (LoyaltyDiscount(higher) - LoyaltyDiscount(lower)) >= 0.0;
    }
  }

  /** High season: the start date falls in June, July, August or December. */
  predicate IsHighSeason(startDate: Instant)
  {
    var month := Month(startDate);
    (6 <= month <= 8) || month == 12
  }

  /** Seasonal pricing: the standard price, 25% higher when the rental
      starts in high season. Only the start date's month matters. */
  function SeasonalPrice(dailyRate: real, startDate: Instant, endDate: Instant, tier: CustomerTier): (price: real)
    ensures IsHighSeason(startDate) ==> price == 1.25 * StandardPrice(dailyRate, startDate, endDate, tier)
    ensures !IsHighSeason(startDate) ==> price == StandardPrice(dailyRate, startDate, endDate, tier)
    ensures dailyRate >= 0.0 ==>
              StandardPrice(dailyRate, startDate, endDate, tier) <= price
              <= 1.25 * StandardPrice(dailyRate, startDate, endDate, tier)
  {
    var basePrice := StandardPrice(dailyRate, startDate, endDate, tier);
    if IsHighSeason(startDate) then basePrice * 1.25 else basePrice
  }

  /** Moving the end date (into or out of a high-season month) never changes
      the seasonal multiplier: two rentals with the same start and the same
      billed days cost the same. */
  lemma SeasonalIgnoresEndMonth(dailyRate: real, startDate: Instant, end1: Instant, end2: Instant, tier: CustomerTier)
    requires BilledDays(startDate, end1) == BilledDays(startDate, end2)
    ensures SeasonalPrice(dailyRate, startDate, end1, tier) == SeasonalPrice(dailyRate, startDate, end2, tier)
  {
    StandardDependsOnDays(dailyRate, startDate, end1, end2, tier);
  }

  lemma StandardDependsOnDays(dailyRate: real, startDate: Instant, end1: Instant, end2: Instant, tier: CustomerTier)
    requires BilledDays(startDate, end1) == BilledDays(startDate, end2)
    ensures StandardPrice(dailyRate, startDate, end1, tier) == StandardPrice(dailyRate, startDate, end2, tier)
  {
  }

  /** 1 for Saturday and Sunday, 0 for the other weekdays. */
  function WeekendFlag(d: nat): nat
  {
    if d == Saturday || d == Sunday then 1 else 0
  }

  /** The weekend days the pricing loop counts: the instants `date`,
      `date` + 1 day, ... strictly before `endDate` that fall on a Saturday
      or a Sunday. */
  function WeekendDaysFrom(date: Instant, endDate: Instant): nat
    decreases endDate - date
  {
    if date < endDate then
      WeekendFlag(DayOfWeek(date)) + WeekendDaysFrom(AddDays(date, 1), endDate)
    else 0
  }

  /** How many times the pricing loop's body runs. */
  function LoopIterations(date: Instant, endDate: Instant): nat
  {
    if date < endDate then (endDate - date + TicksPerDay - 1) / TicksPerDay else 0
  }

  lemma {:induction false} WeekendDaysAtMostIterations(date: Instant, endDate: Instant)
    ensures WeekendDaysFrom(date, endDate) <= LoopIterations(date, endDate)
    decreases endDate - date
  {
    if date < endDate {
      WeekendDaysAtMostIterations(AddDays(date, 1), endDate);
      assert LoopIterations(date, endDate) == 1 + LoopIterations(AddDays(date, 1), endDate);
    }
  }

  /** The weekday after `d`, Saturday wrapping round to Sunday. */
  function NextWeekday(d: nat): (next: nat)
    ensures d < 7 ==> next == (d + 1) % 7
  {
    if d >= Saturday then Sunday else d + 1
  }

  /** The weekend flags of `k` consecutive weekdays starting at `d`. */
  function WeekendFlagsFrom(d: nat, k: nat): nat
    decreases k
  {
    if k == 0 then 0 else WeekendFlag(d) + WeekendFlagsFrom(NextWeekday(d), k - 1)
  }

  /** `k` iterations of the pricing loop count the weekend flags of the `k`
      weekdays they visit. */
  lemma {:induction false} WeekendDaysAhead(date: Instant, endDate: Instant, k: nat)
    requires date + k * TicksPerDay <= endDate
    ensures WeekendDaysFrom(date, endDate) == WeekendFlagsFrom(DayOfWeek(date), k) + WeekendDaysFrom(date + k * TicksPerDay, endDate)
    decreases k
  {
    if k > 0 {
      var next := AddDays(date, 1);
      assert next + (k - 1) * TicksPerDay == date + k * TicksPerDay;
      WeekendDaysAhead(next, endDate, k - 1);
      DayOfWeekNextDay(date);
    }
  }

  /** Seven consecutive weekdays hold one Saturday and one Sunday. */
  lemma TwoWeekendDaysInSeven(d: nat)
    requires d < 7
    ensures WeekendFlagsFrom(d, 7) == 2
  {
  }

  /** Any seven consecutive iterations of the pricing loop count exactly two
      weekend days. */
  lemma WeekendDaysPerWeek(date: Instant, endDate: Instant)
    requires date + 7 * TicksPerDay <= endDate
    ensures WeekendDaysFrom(date, endDate) == 2 + WeekendDaysFrom(date + 7 * TicksPerDay, endDate)
  {
    WeekendDaysAhead(date, endDate, 7);
    TwoWeekendDaysInSeven(DayOfWeek(date));
  }

  /** The weekend surcharge can cover more days than are billed: Saturday
      2024-07-06 10:00 to Sunday 2024-07-07 11:00 bills one day but counts
      two weekend days. */
  lemma WeekendDaysExceedBilledDays()
    ensures var start := 638_558_208_000_000_000 + 10 * 36_000_000_000;
            var end := 638_559_072_000_000_000 + 11 * 36_000_000_000;
            BilledDays(start, end) == 1 && WeekendDaysFrom(start, end) == 2
  {
    var start := 638_558_208_000_000_000 + 10 * 36_000_000_000;
    var end := 638_559_072_000_000_000 + 11 * 36_000_000_000;
    assert IsWeekend(start) && IsWeekend(AddDays(start, 1));
    assert WeekendDaysFrom(AddDays(start, 2), end) == 0;
  }

  /** Weekend pricing: the standard price plus 15% of the daily rate for
      every weekend day the loop counts. */
  function WeekendPrice(dailyRate: real, startDate: Instant, endDate: Instant, tier: CustomerTier): (price: real)
    ensures endDate <= startDate ==> price == StandardPrice(dailyRate, startDate, endDate, tier)
    ensures dailyRate >= 0.0 ==> price >= StandardPrice(dailyRate, startDate, endDate, tier)
  {
    var basePrice := dailyRate * BilledDays(startDate, endDate) as real;
    basePrice + dailyRate * WeekendDaysFrom(startDate, endDate) as real * 0.15
  }

  /** The weekend strategy's loop, stepping a day at a time from the start
      while before the end. */
  method CalculateWeekendPrice(dailyRate: real, startDate: Instant, endDate: Instant, tier: CustomerTier)
    returns (price: real)
    ensures price == WeekendPrice(dailyRate, startDate, endDate, tier)
  {
    var days := BilledDays(startDate, endDate);
    var basePrice := dailyRate * days as real;
    var weekendDays: nat := 0;
    var date := startDate;
    while date < endDate
      invariant weekendDays + WeekendDaysFrom(date, endDate) == WeekendDaysFrom(startDate, endDate)
      decreases endDate - date
    {
      if DayOfWeek(date) == Saturday || DayOfWeek(date) == Sunday {
        weekendDays := weekendDays + 1;
      }
      date := AddDays(date, 1);
    }
    var weekendSurcharge := dailyRate * weekendDays as real * 0.15;
    price := basePrice + weekendSurcharge;
  }

  /** The strategies the factory can hand out. */
  datatype Strategy = StandardPricing | LoyaltyPricing | SeasonalPricing | WeekendPricing
  {
    function StrategyName(): string {
      match this
      case StandardPricing => "Standard Pricing"
      case LoyaltyPricing => "Loyalty Pricing"
      case SeasonalPricing => "Seasonal Pricing"
      case WeekendPricing => "Weekend Pricing"
    }
  }

  /** The price a strategy computes; never negative for a non-negative rate,
      and never below 85% of the standard price. */
  function Price(strategy: Strategy, dailyRate: real, startDate: Instant, endDate: Instant, tier: CustomerTier): (price: real)
    ensures dailyRate >= 0.0 ==> price >= 0.85 * StandardPrice(dailyRate, startDate, endDate, tier) >= 0.0
  {
    match strategy
    case StandardPricing => StandardPrice(dailyRate, startDate, endDate, tier)
    case LoyaltyPricing => LoyaltyPrice(dailyRate, startDate, endDate, tier)
    case SeasonalPricing => SeasonalPrice(dailyRate, startDate, endDate, tier)
    case WeekendPricing => WeekendPrice(dailyRate, startDate, endDate, tier)
  }

  /** `strategy.CalculatePrice(...)`: the weekend strategy runs its loop. */
  method CalculatePrice(strategy: Strategy, dailyRate: real, startDate: Instant, endDate: Instant, tier: CustomerTier)
    returns (price: real)
    ensures price == Price(strategy, dailyRate, startDate, endDate, tier)
  {
    match strategy
    case StandardPricing => price := StandardPrice(dailyRate, startDate, endDate, tier);
    case LoyaltyPricing => price := LoyaltyPrice(dailyRate, startDate, endDate, tier);
    case SeasonalPricing => price := SeasonalPrice(dailyRate, startDate, endDate, tier);
    case WeekendPricing => price := CalculateWeekendPrice(dailyRate, startDate, endDate, tier);
  }

  /** 50 a day for three days is 150; Gold at 100 a day for two days is 180. */
  lemma WorkedStandardAndLoyaltyPrices()
    ensures StandardPrice(50.0, 0, 3 * TicksPerDay, CustomerTier.Standard) == 150.0
    ensures LoyaltyPrice(100.0, 0, 2 * TicksPerDay, CustomerTier.Gold) == 180.0
  {
  }

  /** 2024-07-01 is in July, day 182 of the leap year 2024. */
  lemma WorkedJuly()
    ensures Month(638_553_888_000_000_000) == 7
  {
    assert DayNumber(638_553_888_000_000_000) == 739067;
    assert CenturyOf(739067 % DaysPer400Years) == (0, 8582);
    assert QuadOf(8582, 0) == (5, 1277);
    assert YearOf(1277) == (3, 182);
    assert DaysToMonth(true, 6) == 182 && DaysToMonth(true, 7) == 213;
    assert MonthOfDay(true, 182, 7) == 7;
    assert MonthOfDay(true, 182, 1) == MonthOfDay(true, 182, 4);
    assert MonthOfDay(true, 182, 4) == MonthOfDay(true, 182, 7);
  }

  /** 2024-03-01 is in March, day 60 of the leap year 2024. */
  lemma WorkedMarch()
    ensures Month(638_448_480_000_000_000) == 3
  {
    assert DayNumber(638_448_480_000_000_000) == 738945;
    assert CenturyOf(738945 % DaysPer400Years) == (0, 8460);
    assert QuadOf(8460, 0) == (5, 1155);
    assert YearOf(1155) == (3, 60);
    assert MonthOfDay(true, 60, 1) == MonthOfDay(true, 60, 3);
  }

  /** 40 a day for five days is 250 from 2024-07-01 and 200 from 2024-03-01. */
  lemma WorkedSeasonalPrices()
    ensures SeasonalPrice(40.0, 638_553_888_000_000_000, 638_553_888_000_000_000 + 5 * TicksPerDay, CustomerTier.Standard) == 250.0
    ensures SeasonalPrice(40.0, 638_448_480_000_000_000, 638_448_480_000_000_000 + 5 * TicksPerDay, CustomerTier.Standard) == 200.0
  {
    var july := 638_553_888_000_000_000;
    var march := 638_448_480_000_000_000;
    WorkedJuly();
    WorkedMarch();
    assert BilledDays(july, july + 5 * TicksPerDay) == 5;
    assert BilledDays(march, march + 5 * TicksPerDay) == 5;
  }

  /** 60 a day from Friday 2024-03-08 to Monday 2024-03-11 is 198. */
  lemma WorkedWeekendPrice()
    ensures WeekendPrice(60.0, 638_454_528_000_000_000, 638_457_120_000_000_000, CustomerTier.Standard) == 198.0
  {
    var friday := 638_454_528_000_000_000;
    assert DayOfWeek(friday) == 5;
    assert WeekendDaysFrom(AddDays(friday, 3), 638_457_120_000_000_000) == 0;
  }
}
