# Car-rental backend core in Dafny

This project models the decision logic of a car-rental web application in Dafny: its ASP.NET Core backend and the query-string helpers of its Blazor client.

**Pricing.** A rental is priced by one of four strategies:
- standard: the daily rate times the billed days;
- loyalty: a tier discount of 5%, 10% or 15%;
- seasonal: a 25% surcharge when the rental starts in June, July, August or December;
- weekend: 15% of the daily rate for every Saturday or Sunday the day-stepping loop visits.

A factory picks the strategy by a case-insensitive name and falls back to standard pricing.

**Rental service.** It books a vehicle after an overlap test against the existing rentals, completes rentals, cancels them and quotes prices. It keeps a rental table and a vehicle table in step and commits through a unit of work.

**Maintenance and damages.** Two small state machines sit on top of the vehicle's status:
- a maintenance record is Scheduled, InProgress, Completed or Cancelled;
- a damage report is Reported, UnderRepair, Repaired or Unresolved.

Creating work takes a vehicle out of service. Finishing it releases the vehicle when nothing else is pending.

**Reports and client.** The reports count and sum over the rentals and the fleet. The client encodes list filters as query strings.

**Representation.**
- An instant is a .NET tick count, a `nat` of 100-nanosecond ticks since 0001-01-01.
- The weekday is `(ticks / TicksPerDay + 1) % 7`.
- The calendar date is found by the 400/100/4/1-year block decomposition that `DateTime` itself uses.
- A C# `decimal` is an exact `real`.
- Integer-backed enums that the controllers fill by casting an `int` get an `Other(code)` variant, so an out-of-range code is kept rather than rejected.

**Structure.**
- Pure code becomes functions and lemmas:
  - the strategies and the factory;
  - the repository queries;
  - the list filters;
  - the reports;
  - the enum casts.
- The database is a class `Store.Database`:
  - its fields are the five tables, the next identity values and a commit counter;
  - its methods add, update, remove and commit, each stating its whole new state;
  - it keeps the invariant that every record's vehicle exists.
- The service and controller actions are methods over it.
- Each method states every outcome:
  - every error path (a missing record, or a status that forbids the action) as a `Failure` that leaves the database unchanged;
  - on success, the new tables and the number of commits.
- Where the source departs from what one might expect, the model keeps the source's behaviour and a lemma exhibits the consequence:
  - `RentalService.CompletingCancelledRentalCanDoubleBook`;
  - `VehicleRepository.ListedDoesNotImplyBookable`;
  - `Pricing.WeekendDaysExceedBilledDays`;
  - `Damages.ReleaseRulesDisagree`.

Two small inconsistencies in the source are resolved as follows:
- `StandardPricingStrategy` takes a `Customer` while the other strategies take an `ApplicationUser`. The service writes a customer id and looks the renter up by `int`. The model abstracts the renter to an id and a `CustomerTier` (`Entities.Renter`).
- The dashboard's top-vehicle grouping keys on vehicle id, brand and model. With a consistent vehicle table this is grouping by vehicle id, which is what the model does.

Files: `wrappers.dfy` (Option/Result), `seqs.dfy` (the LINQ operators used: `Where`, `Any`, `Count`, `Sum`, `Take`, `FirstOrDefault`, a stable `OrderBy`/`OrderByDescending`), `time.dfy`, `entities.dfy`, `pricing.dfy`, `factory.dfy`, `rental_repository.dfy`, `vehicle_repository.dfy`, `store.dfy`, `responses.dfy`, `rental_service.dfy`, `maintenance.dfy`, `damages.dfy`, `reports.dfy`, `query_strings.dfy`.

## Model

| member | source | states |
|---|---|---|
| Time.WholeDays | Backend/Application/Services/PricingStrategies/StandardPricingStrategy.cs:12 | `TimeSpan.Days` truncates toward zero: for a non-negative span d whole days fit and d+1 do not; for a negative span the same bounds hold on the magnitude |
| Time.WholeDaysBelowOne | Backend/Application/Services/PricingStrategies/StandardPricingStrategy.cs:12-13 | the day count is below 1 exactly when the span is shorter than one day (negative spans included), i.e. exactly when the clamp applies |
| Time.StartOfDay | Backend/Infrastructure/Repositories/MaintenanceRepository.cs:46 | `DateTime.Date` is a midnight no later than the instant and less than a day before it |
| Time.AddDays | Backend/Application/Services/PricingStrategies/WeekendPricingStrategy.cs:19 | `AddDays(n)` moves the instant exactly n days forward |
| Time.DayOfWeek | Backend/Application/Services/PricingStrategies/WeekendPricingStrategy.cs:21 | the weekday is one of the seven values Sunday = 0 … Saturday = 6 |
| Time.DayOfWeekNextDay | Backend/Application/Services/PricingStrategies/WeekendPricingStrategy.cs:19-21 | one day later is the next weekday, Saturday wrapping to Sunday |
| Time.CivilFromDayNumber | Backend/Application/Services/PricingStrategies/SeasonalPricingStrategy.cs:18 | the calendar date of a day number has month 1..12, day 1..31 and year ≥ 1 |
| Entities.MaintenanceTypeOf | Backend/Controllers/MaintenancesController.cs:147 | the `(MaintenanceType)` cast keeps the code, and names a value exactly for codes 0..3 |
| Entities.MaintenanceStatusOf | Backend/Controllers/MaintenancesController.cs:196 | the `(MaintenanceStatus)` cast keeps the code, and names a value exactly for codes 0..3 |
| Entities.DamageSeverityOf | Backend/Controllers/VehicleDamagesController.cs:200 | the `(DamageSeverity)` cast keeps the code, and names a value exactly for codes 0..3 |
| Entities.DamageStatusOf | Backend/Controllers/VehicleDamagesController.cs:254 | the `(DamageStatus)` cast keeps the code, and names a value exactly for codes 0..3 |
| Entities.NamedCodesRoundTrip | Backend/Core/Entities/Maintenance.cs:27-41 | every named enum value survives the round trip through its integer code |
| Pricing.BilledDays | Backend/Application/Services/PricingStrategies/StandardPricingStrategy.cs:12-13 | billed days are ≥ 1, exactly 1 for any span under two days (same-day, sub-day, inverted), and otherwise the whole days in the span |
| Pricing.StandardPrice | Backend/Application/Services/PricingStrategies/StandardPricingStrategy.cs:12-15 | with a non-negative rate the price is at least one day's rate; a span under two days costs exactly one day |
| Pricing.StandardIgnoresRenter | Backend/Application/Services/PricingStrategies/StandardPricingStrategy.cs:10-16 | the standard price is the same whatever the renter |
| Pricing.LoyaltyDiscount | Backend/Application/Services/PricingStrategies/LoyaltyPricingStrategy.cs:18-24 | the discount lies in [0, 0.15] and is zero exactly for the Standard tier |
| Pricing.LoyaltyPrice | Backend/Application/Services/PricingStrategies/LoyaltyPricingStrategy.cs:12-26 | a Standard-tier renter pays the standard price; with a non-negative rate, 0.85 × standard ≤ price ≤ standard |
| Pricing.DiscountMonotonic | Backend/Application/Services/PricingStrategies/LoyaltyPricingStrategy.cs:18-24 | a higher tier never has a smaller discount |
| Pricing.LoyaltyTierMonotonic | Backend/Application/Services/PricingStrategies/LoyaltyPricingStrategy.cs:18-26 | for the same rate and dates a higher tier never pays more (Standard ≥ Silver ≥ Gold ≥ Platinum) |
| Pricing.SeasonalPrice | Backend/Application/Services/PricingStrategies/SeasonalPricingStrategy.cs:12-25 | 1.25 × standard in high season (start month 6, 7, 8 or 12), exactly standard otherwise; with a non-negative rate standard ≤ price ≤ 1.25 × standard |
| Pricing.SeasonalIgnoresEndMonth | Backend/Application/Services/PricingStrategies/SeasonalPricingStrategy.cs:18 | only the start month matters: two end dates with the same billed days give the same seasonal price |
| Pricing.StandardDependsOnDays | Backend/Application/Services/PricingStrategies/StandardPricingStrategy.cs:12-15 | the standard price depends on the dates only through the billed days |
| Pricing.WeekendDaysAtMostIterations | Backend/Application/Services/PricingStrategies/WeekendPricingStrategy.cs:18-25 | the weekend-day count never exceeds the number of loop iterations |
| Pricing.WeekendDaysAhead | Backend/Application/Services/PricingStrategies/WeekendPricingStrategy.cs:19-25 | k iterations of the loop count the weekend flags of the k consecutive weekdays they visit |
| Pricing.TwoWeekendDaysInSeven | Backend/Application/Services/PricingStrategies/WeekendPricingStrategy.cs:21 | any seven consecutive weekdays hold exactly two weekend days |
| Pricing.WeekendDaysPerWeek | Backend/Application/Services/PricingStrategies/WeekendPricingStrategy.cs:19-25 | any seven consecutive loop iterations count exactly two weekend days |
| Pricing.WeekendDaysExceedBilledDays | Backend/Application/Services/PricingStrategies/WeekendPricingStrategy.cs:12-25 | Saturday 10:00 to Sunday 11:00 bills one day but counts two weekend days |
| Pricing.WeekendPrice | Backend/Application/Services/PricingStrategies/WeekendPricingStrategy.cs:28-30 | an empty or inverted range costs exactly the standard price; with a non-negative rate the price is never below standard |
| Pricing.CalculateWeekendPrice | Backend/Application/Services/PricingStrategies/WeekendPricingStrategy.cs:10-31 | the day-stepping loop (which terminates) yields base + rate × weekend days × 0.15, weekend days being the Saturdays and Sundays among start, start+1d, … before the end |
| Pricing.Price | Backend/Application/Services/RentalService.cs:159-160 | every strategy's price is at least 85% of the standard price, and non-negative for a non-negative rate |
| Pricing.CalculatePrice | Backend/Application/Services/RentalService.cs:159-160 | running a strategy yields the price that strategy defines |
| Pricing.WorkedStandardAndLoyaltyPrices | Backend/Application/Services/PricingStrategies/LoyaltyPricingStrategy.cs:12-26 | 50 a day for three days is 150; Gold at 100 a day for two days is 180 |
| Pricing.WorkedJuly | Backend/Application/Services/PricingStrategies/SeasonalPricingStrategy.cs:18 | the calendar puts 2024-07-01 in month 7 |
| Pricing.WorkedMarch | Backend/Application/Services/PricingStrategies/SeasonalPricingStrategy.cs:18 | the calendar puts 2024-03-01 in month 3 |
| Pricing.WorkedSeasonalPrices | Backend/Application/Services/PricingStrategies/SeasonalPricingStrategy.cs:18-25 | five days at 40 cost 250 from 1 July and 200 from 1 March |
| Pricing.WorkedWeekendPrice | Backend/Application/Services/PricingStrategies/WeekendPricingStrategy.cs:18-30 | Friday to Monday at 60 a day is 3 × 60 plus 2 × 9 = 198 |
| PricingStrategyFactory.FoldCase | Backend/Application/Factories/PricingStrategyFactory.cs:12 | ordinal case folding lowers exactly the ASCII capitals |
| PricingStrategyFactory.Lookup | Backend/Application/Factories/PricingStrategyFactory.cs:23 | `TryGetValue` finds a strategy iff some registered key equals the name ignoring case, and then the one registered under that key |
| PricingStrategyFactory.CreateStrategy | Backend/Application/Factories/PricingStrategyFactory.cs:21-30 | loyalty, seasonal and weekend are selected exactly by their names in any case; any unregistered name gives standard pricing |
| PricingStrategyFactory.GetAvailableStrategies | Backend/Application/Factories/PricingStrategyFactory.cs:32-35 | exactly the four keys "standard", "loyalty", "seasonal", "weekend" in registry order, and `CreateStrategy` turns the i-th name back into the i-th registered strategy |
| PricingStrategyFactory.RegistryKeysDistinct | Backend/Application/Factories/PricingStrategyFactory.cs:12-18 | no two registered keys are equal ignoring case, so the dictionary is well formed |
| PricingStrategyFactory.NameMatchesAtMostOneKey | Backend/Application/Factories/PricingStrategyFactory.cs:12-18 | no name matches both "standard" and "seasonal", or both "loyalty" and "weekend" (the keys of equal length, the only ones a name could match together) |
| PricingStrategyFactory.UpperCaseNamesResolve | Backend/Application/Factories/PricingStrategyFactory.cs:12 | "LOYALTY" and "Weekend" resolve to their strategies |
| PricingStrategyFactory.UnknownNamesFallBack | Backend/Application/Factories/PricingStrategyFactory.cs:28-29 | "", "premium" and every name not 7 or 8 long fall back to standard pricing |
| RentalRepository.IsVehicleAvailable | Backend/Infrastructure/Repositories/RentalRepository.cs:58-65 | available iff no rental of the vehicle that is not Cancelled has StartDate < end and EndDate > start |
| RentalRepository.RangesOverlapSymmetric | Backend/Infrastructure/Repositories/RentalRepository.cs:63-64 | the overlap test is symmetric in the two ranges |
| RentalRepository.OnlyCancelledRentalsNeverBlock | Backend/Infrastructure/Repositories/RentalRepository.cs:62 | a Cancelled rental never changes availability; a Reserved, Active or Completed overlapping one makes the vehicle unavailable |
| RentalRepository.OtherVehiclesNeverBlock | Backend/Infrastructure/Repositories/RentalRepository.cs:61 | availability is decided by the vehicle's own rentals alone |
| RentalRepository.TouchingRangesDoNotConflict | Backend/Infrastructure/Repositories/RentalRepository.cs:63-64 | a rental ending when the range starts, or starting when it ends, does not block |
| RentalRepository.AddingRentalOnlyRemovesAvailability | Backend/Infrastructure/Repositories/RentalRepository.cs:60-64 | adding a rental can only turn availability from true to false |
| RentalRepository.CancellingRentalOnlyRestoresAvailability | Backend/Infrastructure/Repositories/RentalRepository.cs:60-64 | cancelling a rental can only turn availability from false to true |
| RentalRepository.GetActiveRentals | Backend/Infrastructure/Repositories/RentalRepository.cs:14-21 | exactly the Active rentals, each matching record as often as the table holds it |
| RentalRepository.GetRentalsByCustomer | Backend/Infrastructure/Repositories/RentalRepository.cs:23-31 | exactly the customer's rentals with multiplicity, latest StartDate first |
| RentalRepository.GetRentalsByVehicle | Backend/Infrastructure/Repositories/RentalRepository.cs:33-40 | exactly the vehicle's rentals with multiplicity, latest StartDate first |
| RentalRepository.AvailabilityFromVehicleList | Backend/Infrastructure/Repositories/RentalRepository.cs:33-40 | a vehicle is available iff nothing in its own rental list blocks the range |
| VehicleRepository.GetAvailableVehicles | Backend/Infrastructure/Repositories/VehicleRepository.cs:14-23 | exactly the vehicles in Available status with no Active rental where StartDate < end and EndDate > start; each matching record as often as the table holds it and no other record |
| VehicleRepository.GetVehiclesByStatus | Backend/Infrastructure/Repositories/VehicleRepository.cs:32-37 | exactly the vehicles with that status; each matching record as often as the table holds it and no other record |
| VehicleRepository.GetVehiclesByCategory | Backend/Infrastructure/Repositories/VehicleRepository.cs:25-30 | exactly the vehicles of that category; each matching record as often as the table holds it and no other record |
| VehicleRepository.BookableImpliesListed | Backend/Infrastructure/Repositories/VehicleRepository.cs:17-21 | an Available vehicle that passes the booking test is listed as available |
| VehicleRepository.ListedDoesNotImplyBookable | Backend/Infrastructure/Repositories/VehicleRepository.cs:19 | a vehicle with a Reserved rental over the range is listed yet cannot be booked: only Active rentals exclude it from the list |
| VehicleRepository.OnlyAvailableStatusListed | Backend/Infrastructure/Repositories/VehicleRepository.cs:17 | Reserved, Rented, Maintenance and Retired vehicles are never listed |
| VehicleRepository.AvailableRefinesByStatus | Backend/Infrastructure/Repositories/VehicleRepository.cs:14-37 | the available list is the Available-status list minus vehicles with an overlapping Active rental |
| Store.VehicleIndex | Backend/Application/Services/RentalService.cs:46 | the lookup finds the first vehicle with that id, and fails iff there is none |
| Store.CustomerIndex | Backend/Application/Services/RentalService.cs:52 | the lookup finds a customer with that id, and fails iff there is none |
| Store.RentalIndex | Backend/Application/Services/RentalService.cs:101 | the lookup finds the first rental with that id, and fails iff there is none |
| Store.MaintenanceIndex | Backend/Controllers/MaintenancesController.cs:173 | the lookup finds the first record with that id, and fails iff there is none |
| Store.DamageIndex | Backend/Controllers/VehicleDamagesController.cs:351 | the lookup finds the first damage with that id, and fails iff there is none |
| Store.VehicleIndexAfterUpdate | Backend/Application/Services/RentalService.cs:77 | updating a vehicle in place moves no id lookup |
| Store.RentalIndexAfterAppend | Backend/Application/Services/RentalService.cs:73 | adding a rental with a fresh id finds it at the end and moves no earlier lookup |
| Store.Database.constructor | Backend/Infrastructure/UnitOfWork/UnitOfWork.cs:14-18 | the unit of work wraps an existing context; the model's constructor builds the initial store it starts from: the given fleet and customers, empty rental, maintenance and damage tables, no commits, and the invariant established |
| Store.Database.UpdateVehicleAt | Backend/Application/Services/RentalService.cs:77 | `Update(vehicle)` replaces one vehicle, keeps every other table and the foreign keys valid |
| Store.Database.AddRental | Backend/Application/Services/RentalService.cs:73 | `AddAsync(rental)` appends it with the next identity value, changing nothing else |
| Store.Database.UpdateRentalAt | Backend/Application/Services/RentalService.cs:111 | `Update(rental)` replaces one rental, changing nothing else |
| Store.Database.AddMaintenance | Backend/Controllers/MaintenancesController.cs:151 | `AddAsync(maintenance)` appends it with the next identity value, changing nothing else |
| Store.Database.UpdateMaintenanceAt | Backend/Controllers/MaintenancesController.cs:198 | `Update(maintenance)` replaces one record, changing nothing else |
| Store.Database.RemoveMaintenanceAt | Backend/Controllers/MaintenancesController.cs:310 | `Remove(maintenance)` drops exactly that record, changing nothing else |
| Store.Database.AddDamage | Backend/Controllers/VehicleDamagesController.cs:207 | `AddAsync(damage)` appends it with the next identity value, changing nothing else |
| Store.Database.UpdateDamageAt | Backend/Controllers/VehicleDamagesController.cs:256 | `Update(damage)` replaces one damage, changing nothing else |
| Store.Database.RemoveDamageAt | Backend/Controllers/VehicleDamagesController.cs:358 | `Remove(damage)` drops exactly that damage, changing nothing else |
| Store.Database.Commit | Backend/Infrastructure/UnitOfWork/UnitOfWork.cs:34-37 | `CommitAsync` counts one commit and changes no table |
| RentalService.NewRental | Backend/Application/Services/RentalService.cs:61-71 | a new rental is Reserved, for the given customer and vehicle, with StartMileage = the vehicle's mileage and no return data |
| RentalService.Completed | Backend/Application/Services/RentalService.cs:107-109 | completing sets status Completed, the return time and the end mileage, and nothing else |
| RentalService.BookingPreservesNoDoubleBooking | Backend/Application/Services/RentalService.cs:40-44 | a booking that passed the availability test keeps non-cancelled rentals of a vehicle pairwise non-overlapping |
| RentalService.CancellingPreservesNoDoubleBooking | Backend/Application/Services/RentalService.cs:132 | cancelling keeps the table free of double bookings |
| RentalService.CompletingPreservesNoDoubleBooking | Backend/Application/Services/RentalService.cs:107 | completing a rental that is not cancelled keeps the table free of double bookings |
| RentalService.CompletingCancelledRentalCanDoubleBook | Backend/Application/Services/RentalService.cs:107 | with no status guard, completing a cancelled rental whose dates were re-booked creates a double booking |
| RentalService.CalculatePrice | Backend/Application/Services/RentalService.cs:145-161 | missing vehicle → "Vehicle not found.", then missing customer → "Customer not found."; otherwise the named strategy's price for the vehicle's rate and the customer's tier; nothing is written |
| RentalService.CreateRental | Backend/Application/Services/RentalService.cs:37-82 | unavailable → InvalidOperation before any lookup; then missing vehicle/customer → Argument; it succeeds exactly when all three checks pass; failures write nothing; success adds exactly one Reserved rental priced as quoted, sets the vehicle Rented whatever its status, commits once, leaves the vehicle unavailable for a non-empty range, and keeps the table free of double bookings; a success advances its own identity seed by one, a failure leaves it, and the other two seeds never move |
| RentalService.CompleteRental | Backend/Application/Services/RentalService.cs:99-122 | missing rental → "Rental not found." with no change; otherwise the rental, whatever its status, becomes Completed with the end mileage and return time, its vehicle becomes Available with that mileage, one commit; no identity seed moves |
| RentalService.CancelRental | Backend/Application/Services/RentalService.cs:124-143 | missing rental → "Rental not found." with no change; otherwise the rental becomes Cancelled and its vehicle Available unconditionally, one commit; availability only grows and double-booking freedom is kept; no identity seed moves |
| Maintenances.GetMaintenancesByVehicle | Backend/Infrastructure/Repositories/MaintenanceRepository.cs:17-24 | exactly the vehicle's records, as many as there are, latest ScheduledDate first |
| Maintenances.GetMaintenancesByStatus | Backend/Infrastructure/Repositories/MaintenanceRepository.cs:26-33 | exactly the records with that status, as many entries as there are matching records, latest ScheduledDate first |
| Maintenances.GetMaintenancesByType | Backend/Infrastructure/Repositories/MaintenanceRepository.cs:35-42 | exactly the records of that type, as many entries as there are matching records, latest ScheduledDate first |
| Maintenances.GetOverdueMaintenances | Backend/Infrastructure/Repositories/MaintenanceRepository.cs:44-52 | exactly the Scheduled records dated before today's midnight, each as often as the table holds it, earliest first; `IsOverdue` states the test |
| Maintenances.InProgressNeverOverdue | Backend/Infrastructure/Repositories/MaintenanceRepository.cs:49 | an InProgress record is never overdue |
| Maintenances.GetScheduledMaintenances | Backend/Infrastructure/Repositories/MaintenanceRepository.cs:54-61 | exactly the records with start ≤ ScheduledDate ≤ end, whatever their status, each as often as the table holds it, earliest first |
| Maintenances.ScheduledWindow | Backend/Controllers/MaintenancesController.cs:117-126 | the window defaults to today's midnight and thirty days after it; supplied bounds are kept |
| Maintenances.SelectByCodes | Backend/Controllers/MaintenancesController.cs:38-51 | keeps exactly the records matching every supplied vehicle, type and status code, each matching record as often as the table holds it |
| Maintenances.SelectByDates | Backend/Controllers/MaintenancesController.cs:52-61 | keeps exactly the records within the supplied date bounds, and overdue when IsOverdue is true, each matching record as often as the table holds it |
| Maintenances.SelectMaintenances | Backend/Controllers/MaintenancesController.cs:38-61 | the filter chain keeps exactly the records satisfying the conjunction of the supplied criteria, each matching record as often as the table holds it |
| Maintenances.GetAllMaintenances | Backend/Controllers/MaintenancesController.cs:32-64 | exactly the matching records (all of them without a filter), each matching record as often as the table holds it, latest ScheduledDate first |
| Maintenances.Released | Backend/Controllers/MaintenancesController.cs:231-244 | the vehicle's status changes iff it is in Maintenance with nothing pending, and then to Available; no other field changes |
| Maintenances.PendingMeansScheduledOrInProgress | Backend/Controllers/MaintenancesController.cs:236-238 | `HasPendingMaintenance` holds exactly when another record of the vehicle is Scheduled or InProgress |
| Maintenances.FinishedRecordsNeverPending | Backend/Controllers/MaintenancesController.cs:236-238 | Completed and Cancelled records never hold a vehicle back |
| Maintenances.ApplyMaintenanceUpdate | Backend/Controllers/MaintenancesController.cs:180-196 | every field not supplied is unchanged, id and vehicle always; supplied type and status codes are stored as cast |
| Maintenances.ApplyMaintenanceUpdateIdempotent | Backend/Controllers/MaintenancesController.cs:180-196 | applying an update twice equals applying it once; an empty update changes nothing |
| Maintenances.CreateMaintenance | Backend/Controllers/MaintenancesController.cs:132-164 | missing vehicle → NotFound, nothing written; otherwise a Scheduled record with the given fields is added and committed, and an Available vehicle scheduled no later than tomorrow (`TakesVehicleOutOfService`) goes to Maintenance with a second commit, any other vehicle unchanged; a success advances its own identity seed by one, a failure leaves it, and the other two seeds never move |
| Maintenances.UpdateMaintenance | Backend/Controllers/MaintenancesController.cs:170-202 | NotFound with no change iff the record is missing; otherwise only the supplied fields change, vehicles, rentals, damages and customers are untouched, one commit; no identity seed moves |
| Maintenances.CompleteMaintenance | Backend/Controllers/MaintenancesController.cs:208-249 | NotFound if missing; BadRequest with no change iff already Completed (Cancelled can be completed); it succeeds exactly for an existing record not yet Completed: Completed with the date, cost replaced only by a supplied actual cost, the release rule applied over the other records, one commit; rentals, damages and customers untouched; no identity seed moves |
| Maintenances.CancelMaintenance | Backend/Controllers/MaintenancesController.cs:255-292 | NotFound if missing; BadRequest with no change iff Completed (cancelling twice succeeds); it succeeds exactly for an existing record not Completed: Cancelled, release rule applied, one commit; rentals, damages and customers untouched; no identity seed moves |
| Maintenances.DeleteMaintenance | Backend/Controllers/MaintenancesController.cs:298-332 | missing → NotFound; otherwise the record is removed and committed, then the release rule over the remaining records, with a second commit when the vehicle is released; rentals, damages and customers untouched; no identity seed moves |
| Damages.GetDamagesByVehicle | Backend/Infrastructure/Repositories/VehicleDamageRepository.cs:17-26 | exactly the vehicle's damages, as many entries as there are matching records, latest report first |
| Damages.GetDamagesByRental | Backend/Infrastructure/Repositories/VehicleDamageRepository.cs:28-37 | exactly the rental's damages, as many entries as there are matching records, latest report first |
| Damages.GetDamagesBySeverity | Backend/Infrastructure/Repositories/VehicleDamageRepository.cs:39-47 | exactly the damages of that severity, as many entries as there are matching records, latest report first |
| Damages.GetDamagesByStatus | Backend/Infrastructure/Repositories/VehicleDamageRepository.cs:49-57 | exactly the damages with that status, as many entries as there are matching records, latest report first |
| Damages.GetUnresolvedDamages | Backend/Infrastructure/Repositories/VehicleDamageRepository.cs:59-67 | exactly the damages not Repaired (Reported, UnderRepair, Unresolved), as many entries as there are such damages, latest report first |
| Damages.UnresolvedAndRepairedPartition | Backend/Infrastructure/Repositories/VehicleDamageRepository.cs:49-67 | unresolved and Repaired damages together account for every damage exactly once |
| Damages.SelectByIds | Backend/Controllers/VehicleDamagesController.cs:41-47 | keeps exactly the damages matching the supplied vehicle and rental ids; each matching record as often as the table holds it and no other record |
| Damages.SelectByGrades | Backend/Controllers/VehicleDamagesController.cs:48-54 | keeps exactly the damages matching the supplied severity and status codes; each matching record as often as the table holds it and no other record |
| Damages.SelectByCodes | Backend/Controllers/VehicleDamagesController.cs:41-54 | keeps exactly the damages matching every supplied id and code; each matching record as often as the table holds it and no other record |
| Damages.SelectByDates | Backend/Controllers/VehicleDamagesController.cs:55-63 | keeps exactly the damages within the supplied report-date bounds, and not Repaired when UnresolvedOnly is true; each matching record as often as the table holds it and no other record |
| Damages.GetAllDamages | Backend/Controllers/VehicleDamagesController.cs:35-66 | exactly the damages satisfying the conjunction of the supplied criteria (all without a filter), each matching record as often as the table holds it and no other record, latest report first |
| Damages.ValidateReport | Backend/Controllers/VehicleDamagesController.cs:153-182 | missing vehicle → NotFound; else a named rental that does not exist → NotFound; else a customer without a rental → BadRequest; accepted exactly when all three checks pass |
| Damages.StaffNeedNoRental | Backend/Controllers/VehicleDamagesController.cs:178-182 | only a customer caller needs a rental id |
| Damages.DefaultRepairCost | Backend/Controllers/VehicleDamagesController.cs:185-192 | the default cost is at least 100, and 100 for any code outside 0..3 |
| Damages.DefaultRepairCostMonotonic | Backend/Controllers/VehicleDamagesController.cs:185-192 | a more severe named grade never has a smaller default cost |
| Damages.Reporter | Backend/Controllers/VehicleDamagesController.cs:202 | the reporter is the supplied name, else the caller's identity name, else "Unknown" |
| Damages.SeverityThreshold | Backend/Controllers/VehicleDamagesController.cs:211 | Major and Critical count as severe, and so does an unnamed code above them such as 7; Minor, Moderate and a negative code do not |
| Damages.NewDamage | Backend/Controllers/VehicleDamagesController.cs:194-205 | a new damage is Reported with the given ids and severity code, no repair date, the supplied cost else the default, and the reporter as chosen |
| Damages.CreateDamage | Backend/Controllers/VehicleDamagesController.cs:150-219 | fails iff validation fails, writing nothing; otherwise adds the new damage with one commit, and a severe damage on an Available vehicle sends it to Maintenance with a second commit; a success advances its own identity seed by one, a failure leaves it, and the other two seeds never move |
| Damages.ApplyDamageUpdate | Backend/Controllers/VehicleDamagesController.cs:235-254 | every field not supplied is unchanged, id, vehicle, rental and report date always; supplied codes are stored as cast |
| Damages.ApplyDamageUpdateIdempotent | Backend/Controllers/VehicleDamagesController.cs:235-254 | applying an update twice equals applying it once; an empty update changes nothing |
| Damages.UpdateDamage | Backend/Controllers/VehicleDamagesController.cs:225-260 | NotFound with no change iff the damage is missing; otherwise only the supplied fields change, vehicles, rentals, maintenance and customers untouched, one commit; no identity seed moves |
| Damages.HeldForRepair | Backend/Controllers/VehicleDamagesController.cs:334-338 | an Available vehicle goes to Maintenance, any other is unchanged |
| Damages.StartRepair | Backend/Controllers/VehicleDamagesController.cs:316-343 | NotFound if missing; BadRequest with no change iff the damage is not Reported; it succeeds exactly for an existing Reported damage: UnderRepair, an Available vehicle to Maintenance, one commit; rentals, maintenance and customers untouched; no identity seed moves |
| Damages.ReleaseRulesDisagree | Backend/Controllers/VehicleDamagesController.cs:289-305 | finishing maintenance releases a vehicle that still has a damage under repair, which the damage release rule would keep |
| Damages.RepairDamage | Backend/Controllers/VehicleDamagesController.cs:266-310 | NotFound if missing; BadRequest with no change iff already Repaired; it succeeds exactly for an existing damage not yet Repaired: Repaired with the date, cost replaced only by a supplied actual cost, and a vehicle in Maintenance released iff `RepairBlocked` is false: no other damage on it is un-Repaired (`HasUnresolvedDamages`) and no maintenance is Scheduled or InProgress; one commit; rentals, maintenance and customers untouched; no identity seed moves |
| Damages.DeleteDamage | Backend/Controllers/VehicleDamagesController.cs:349-362 | NotFound with no change iff the damage is missing; otherwise exactly that damage is removed, vehicles, rentals, maintenance and customers untouched, one commit; no identity seed moves |
| Reports.CountRentals | Backend/Application/Services/ReportService.cs:66-70 | a status count never exceeds the number of rentals |
| Reports.CountVehicles | Backend/Application/Services/ReportService.cs:61-64 | a status count never exceeds the fleet size |
| Reports.RentalStatusesPartition | Backend/Application/Services/ReportService.cs:66-70 | Active + Reserved + Completed + Cancelled = TotalRentals |
| Reports.VehicleStatusesPartition | Backend/Application/Services/ReportService.cs:61-64 | Available + Rented + Maintenance + Reserved + Retired = TotalVehicles, so the three dashboard counts leave Reserved and Retired out |
| Reports.CompletedListMatchesCount | Backend/Application/Services/ReportService.cs:161-167 | the completed list is as long as the Completed count |
| Reports.RevenueCountsCompletedOnly | Backend/Application/Services/ReportService.cs:73-75 | `Revenue` is the TotalCost sum over the Completed rentals: a rental adds its TotalCost iff it is Completed |
| Reports.MonthlyRevenueAtMostTotal | Backend/Application/Services/ReportService.cs:73-80 | `MonthlyRevenue` sums the Completed rentals that started in the month and year of now; with non-negative costs it is ≤ `Revenue` |
| Reports.CategoryCount | Backend/Application/Services/ReportService.cs:84-93 | a category count never exceeds the fleet size |
| Reports.CategoryCountsBounded | Backend/Application/Services/ReportService.cs:88-91 | Available + Rented in a category never exceed its count |
| Reports.CategoryCountPositive | Backend/Application/Services/ReportService.cs:85-89 | a category that has a vehicle counts at least one |
| Reports.VehiclesByCategory | Backend/Application/Services/ReportService.cs:84-93 | one group per category present, each with count ≥ 1 and Available + Rented ≤ count |
| Reports.CompletedVehicleIds | Backend/Application/Services/ReportService.cs:112-113 | exactly the ids of vehicles with a Completed rental, without repeats |
| Reports.CompletedVehicleCounted | Backend/Application/Services/ReportService.cs:119 | a grouped vehicle has a RentalCount of at least one |
| Reports.RankedVehicles | Backend/Application/Services/ReportService.cs:111-122 | one entry per vehicle with Completed rentals, its count and revenue, sorted by RentalCount descending |
| Reports.RankedVehiclesComplete | Backend/Application/Services/ReportService.cs:111-122 | every vehicle with a Completed rental appears in the ranking |
| Reports.TopRentedVehicles | Backend/Application/Services/ReportService.cs:111-124 | at most 5 entries (fewer only when fewer vehicles qualify), sorted by RentalCount descending, each a true count, and no vehicle left out ranks above one shown |
| Reports.TopRentedVehiclesDistinct | Backend/Application/Services/ReportService.cs:111-124 | no vehicle appears twice in the top-rented list, as grouping by vehicle guarantees |
| Reports.RecentRentals | Backend/Application/Services/ReportService.cs:127-141 | at most 10 rentals (fewer only when there are fewer), a sub-multiset of the table, newest CreatedAt first, none left out created later than one shown |
| Reports.GetDashboardReport | Backend/Application/Services/ReportService.cs:36-144 | totals are the table sizes, the rental status counts add up to TotalRentals, the vehicle counts plus Reserved and Retired add up to TotalVehicles, and MonthlyRevenue ≤ TotalRevenue for non-negative costs |
| Reports.InPeriod | Backend/Application/Services/ReportService.cs:151-159 | keeps exactly the rentals with StartDate ≥ start and EndDate ≤ end, each bound only when given |
| Reports.InPeriodIsFilter | Backend/Application/Services/ReportService.cs:151-159 | the two successive filters equal one filter by their conjunction |
| Reports.Average | Backend/Application/Services/ReportService.cs:170 | the average times the count is the total; 0 when there is nothing |
| Reports.GetRentalStatistics | Backend/Application/Services/ReportService.cs:146-175 | TotalRentals is the number of rentals within the bounds, and the Active, Completed and Cancelled counts fit within it; AverageRentalCost × Completed count = revenue, and both are 0 with no Completed rental; without bounds the totals are the overall ones |
| Reports.StatisticsRevenueAtMostOverall | Backend/Application/Services/ReportService.cs:161-169 | with non-negative costs the period revenue never exceeds the overall revenue |
| Reports.ReportPeriodDays | Backend/Application/Services/ReportService.cs:194-195 | the period is at least one day, and its whole days when that is at least one |
| Reports.UtilizationOf | Backend/Application/Services/ReportService.cs:199-214 | the entry is for that vehicle; rate × period days = days rented × 100; with no Completed rental in the period it has zero days, rate and revenue |
| Reports.UtilizationEntries | Backend/Application/Services/ReportService.cs:197-215 | one entry per vehicle, in fleet order |
| Reports.SortedUtilization | Backend/Application/Services/ReportService.cs:216 | a permutation of the entries, sorted by rate descending, one per vehicle |
| Reports.GetVehicleUtilizationReport | Backend/Application/Services/ReportService.cs:177-218 | exactly one entry per vehicle, a permutation of the per-vehicle entries over the period, highest rate first |
| Reports.IdleVehicleHasZeroUtilization | Backend/Application/Services/ReportService.cs:200-213 | a vehicle with no Completed rental in the period has zero rate and revenue |
| QueryStrings.DigitsHaveNoAmpersand | Frontend/Services/ApiServiceExtensions.cs:193 | a run of digits never contains the separator '&' |
| QueryStrings.DigitChar | Frontend/Services/ApiServiceExtensions.cs:193 | a digit's character is '0'..'9' with that value |
| QueryStrings.NatToString | Frontend/Services/ApiServiceExtensions.cs:193 | decimal digits, at least one, no leading zero |
| QueryStrings.NatToStringRoundTrip | Frontend/Services/ApiServiceExtensions.cs:193 | reading the digits back gives the number |
| QueryStrings.IntToString | Frontend/Services/ApiServiceExtensions.cs:193-197 | an optional minus sign then digits, never an ampersand; a minus sign iff negative |
| QueryStrings.IntToStringRoundTrip | Frontend/Services/ApiServiceExtensions.cs:193-197 | parsing the rendered integer gives it back |
| QueryStrings.BoolToString | Frontend/Services/ApiServiceExtensions.cs:203 | the rendered flag ("True"/"False") has no ampersand |
| QueryStrings.Zeros | Frontend/Services/ApiServiceExtensions.cs:199 | k zero digits |
| QueryStrings.PadLeft | Frontend/Services/ApiServiceExtensions.cs:199 | padding reaches the width, and shortens nothing |
| QueryStrings.ZerosAreZero | Frontend/Services/ApiServiceExtensions.cs:199 | a run of zeros reads as 0 |
| QueryStrings.LeadingZerosIgnored | Frontend/Services/ApiServiceExtensions.cs:199 | leading zeros do not change the value read |
| QueryStrings.PaddedRoundTrip | Frontend/Services/ApiServiceExtensions.cs:199 | a zero-padded number reads back as the number |
| QueryStrings.CivilToString | Frontend/Services/ApiServiceExtensions.cs:199 | the rendered date has no ampersand |
| QueryStrings.DateToString | Frontend/Services/ApiServiceExtensions.cs:199-201 | the rendered date of an instant has no ampersand |
| QueryStrings.CivilToStringRoundTrip | Frontend/Services/ApiServiceExtensions.cs:199-201 | yyyy-MM-dd: ten characters, dashes at 4 and 7, and the year, month and day read back from their fields |
| QueryStrings.Field.Name | Frontend/Services/ApiServiceExtensions.cs:192-203 | every parameter name is non-empty and free of ampersands |
| QueryStrings.IntSlot | Frontend/Services/ApiServiceExtensions.cs:192-197 | an integer field yields a piece iff it has a value, with ampersand-free text |
| QueryStrings.DateSlot | Frontend/Services/ApiServiceExtensions.cs:198-201 | a date field yields a piece iff it has a value, with ampersand-free text |
| QueryStrings.BoolSlot | Frontend/Services/ApiServiceExtensions.cs:202-203 | a flag field yields a piece iff it has a value, with ampersand-free text |
| QueryStrings.Present | Frontend/Services/ApiServiceExtensions.cs:190-203 | the pieces come only from set fields, and there are none iff no field is set |
| QueryStrings.PresentIsSelectedSlots | Frontend/Services/ApiServiceExtensions.cs:190-203 | the pieces are the set fields in order, one each |
| QueryStrings.PresentCountsSetSlots | Frontend/Services/ApiServiceExtensions.cs:190-203 | there are exactly as many pieces as set fields |
| QueryStrings.PresentSnoc | Frontend/Services/ApiServiceExtensions.cs:192-203 | each further `if … Add` appends its piece iff its field is set |
| QueryStrings.PresentPrefix | Frontend/Services/ApiServiceExtensions.cs:192-203 | the same, for the fields considered so far |
| QueryStrings.Join | Frontend/Services/ApiServiceExtensions.cs:205 | joining n ≥ 1 pieces adds n − 1 ampersands to those the pieces hold; no pieces join to "" |
| QueryStrings.QueryString | Frontend/Services/ApiServiceExtensions.cs:205 | "" iff there are no pieces, otherwise it starts with '?' |
| QueryStrings.SumAmpsZero | Frontend/Services/ApiServiceExtensions.cs:205 | pieces without ampersands contribute none |
| QueryStrings.AmpersandsSeparatePieces | Frontend/Services/ApiServiceExtensions.cs:205 | with ampersand-free values, the query has exactly (pieces − 1) ampersands |
| QueryStrings.MaintenanceSlots | Frontend/Services/ApiServiceExtensions.cs:188-203 | six fields, each rendering ampersand-free text |
| QueryStrings.DamageSlots | Frontend/Services/ApiServiceExtensions.cs:208-225 | seven fields, each rendering ampersand-free text |
| QueryStrings.MaintenanceSlotOrder | Frontend/Services/ApiServiceExtensions.cs:192-203 | the order is vehicleId, type, status, startDate, endDate, isOverdue, each set iff its filter field has a value |
| QueryStrings.DamageSlotOrder | Frontend/Services/ApiServiceExtensions.cs:212-225 | the order is vehicleId, rentalId, severity, status, startDate, endDate, unresolvedOnly, each set iff its filter field has a value |
| QueryStrings.SlotTextsAreSafe | Frontend/Services/ApiServiceExtensions.cs:192-203 | no piece's value contains an ampersand |
| QueryStrings.MaintenanceSlotsUnset | Frontend/Services/ApiServiceExtensions.cs:190-203 | no slot is set iff no maintenance filter field has a value |
| QueryStrings.DamageSlotsUnset | Frontend/Services/ApiServiceExtensions.cs:210-225 | no slot is set iff no damage filter field has a value |
| QueryStrings.QueryShape | Frontend/Services/ApiServiceExtensions.cs:190-205 | "" iff nothing is set; one piece per set field; ampersands = set fields − 1 |
| QueryStrings.MaintenanceQueryShape | Frontend/Services/ApiServiceExtensions.cs:188-206 | the maintenance query is "" iff no field is set, has one piece per set field, and set fields − 1 ampersands |
| QueryStrings.DamageQueryShape | Frontend/Services/ApiServiceExtensions.cs:208-228 | the damage query is "" iff no field is set, has one piece per set field, and set fields − 1 ampersands |
| QueryStrings.AddIfSet | Frontend/Services/ApiServiceExtensions.cs:192-193 | one `if (…HasValue) parameters.Add(…)` step extends the list by the field's piece iff it is set |
| QueryStrings.BuildMaintenanceQueryString | Frontend/Services/ApiServiceExtensions.cs:188-206 | the imperative builder yields "?" + the set pieces joined by "&" in the fixed order, or "" |
| QueryStrings.BuildDamageQueryString | Frontend/Services/ApiServiceExtensions.cs:208-228 | the imperative builder yields "?" + the set pieces joined by "&" in the fixed order, or "" |
| QueryStrings.MaintenancesPath | Frontend/Services/ApiServiceExtensions.cs:14-15 | a null filter requests "api/maintenances" with no query; otherwise the path plus the built query |
| QueryStrings.DamagesPath | Frontend/Services/ApiServiceExtensions.cs:103-104 | a null filter requests "api/vehicledamages" with no query; otherwise the path plus the built query |

## Left out

- HTTP plumbing is reduced to an error value: `ActionResult` wrapping, routing, DTO projections and the response bodies' message objects. `NotFound` and `BadRequest` carry the message text.
- Authorization is not modelled: the `[Authorize]` role attributes, and the ownership checks on a customer's own damages (VehicleDamagesController.cs:81-89, 122-131, 169-176). "The caller is a customer" is a boolean parameter of `Damages.CreateDamage`.
- The clock is a parameter: every `DateTime.UtcNow` is a `now` argument. `DateTime.UtcNow.AddMonths(-12)` in the utilization report is the `defaultStart` argument, because month arithmetic is not modelled.
- `decimal` is modelled as exact `real`, so there is no 28-digit rounding and no overflow. The utilization rate's decimal division is stated exactly: rate × days = days rented × 100.
- `DateTime` is not bounded to year 9999, and the `DateTimeKind` is ignored.
- Entity Framework is not modelled: change tracking, includes, transactions and the atomicity of a commit. The database is five in-memory tables with a commit counter. The two commits of `CreateMaintenance` and `CreateDamage` are counted, but a failure between them is not modelled.
- `GetByIdAsync` finds the first record with the id. The tables are not required to have unique ids, except that new records get fresh identity values.
- The null-vehicle paths are excluded by `Store.Database.Valid()`: every rental, maintenance record and damage refers to an existing vehicle. Examples are the `NullReferenceException` that `CompleteRentalAsync` would raise, and the skipped release when `maintenance.Vehicle` is null.
- Identity is not modelled: `UserManager`, roles, JWT, and the dashboard's customer count loop (ReportService.cs:42-51).
- Reports.GetDashboardReport: leaves out `TotalCustomers` and `RevenueByMonth` (ReportService.cs:96-108). Month labels are formatted as text and re-parsed with `DateTime.Parse`, which is not modelled.
- `GetMonthlyRevenueReportAsync` (ReportService.cs:220-238) is not modelled, for the same reason.
- Reports.GetRentalStatistics: leaves out `AverageRentalDuration` (ReportService.cs:171-173), which averages through `double` and truncates with an `int` cast.
- Reports.TopRentedVehicles: entries carry the vehicle id, count and revenue. The brand and model copied from the navigation property are left out.
- Reports.RecentRentals: the list holds the rentals themselves. The `RecentRentalDto` projection with customer and vehicle names is left out.
- Reports.UtilizationOf: leaves out the vehicle's brand and model.
- PricingStrategyFactory.Lookup: `OrdinalIgnoreCase` folds non-ASCII letters too, but the model folds only ASCII capitals. Every registered key is ASCII, so results can differ only for names containing non-ASCII letters that fold onto ASCII ones.
- A null strategy name is not modelled. `TryGetValue(null)` throws, and a Dafny string cannot be null.
- `ToString()` is culture-invariant in the model: digits, '-', "True"/"False" and yyyy-MM-dd with ASCII digits.
- The client's HTTP calls and its exception handling around them are not modelled. The model covers the request path a filter produces (`MaintenancesPath`, `DamagesPath`).
- These are plain passthroughs to the tables and are not modelled: `GetAllRentals`, `GetRentalById`, `GetRentalWithDetailsAsync` (RentalRepository.cs:42-49), and the single-record GET actions and history includes of both controllers.
- The enum types are taken from the entity files. DTO classes are data only.

## Findings

None claimed. Behaviour that looks surprising is kept as the source has it, and a lemma exhibits each case:
- completing a cancelled rental can double-book (`RentalService.CompletingCancelledRentalCanDoubleBook`);
- the available-vehicles list disagrees with the booking test (`VehicleRepository.ListedDoesNotImplyBookable`);
- the weekend surcharge can cover more days than are billed (`Pricing.WeekendDaysExceedBilledDays`);
- the maintenance and damage release rules disagree (`Damages.ReleaseRulesDisagree`).
