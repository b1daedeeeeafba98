# A verified model of the VRP solver's routing engine

This project models the routing engine of a vehicle routing planner for store deliveries. The planner routes a fleet from one depot to stores under capacity, time-window, blackout-interval, fleet-restriction and day-exclusion constraints. It also spreads a week of deliveries over Monday to Friday. The model is written in Dafny, and the properties below are proved about it.

The model follows the engine layer by layer.

- **Models.**
  - `TimeWindows`: closed delivery windows and forbidden intervals of the time of day.
  - `Stores`: day permission, the window for a day (a day-specific window first, else a general one) and forbidden conflicts.
  - `Vehicles`: fleet allow and forbid lists, capacity fit and headroom.
  - `Routes`: stops with running load, inserted and removed by store id with resequencing.
  - `Solutions`: a day's metrics, and the week's solutions held by the `MultiDaySolution` class.
- **Constraints.**
  - `Checker`: the quick insertion check, time feasibility and insertion cost.
  - `Validator`: the six ordered checks of `validate_route`, including the forward simulation that stamps arrival and departure times on the route.
- **Distances.** `Distance`: route length over a dictionary matrix (a missing entry counts 0), and the building of distance and time matrices.
- **Solvers.**
  - `BaseSolver`: route distance, travel time, the metric refresh and solution assembly.
  - `ClarkeWright`: single-store routes, the savings list, merging by concatenation, bounded first-improvement 2-opt and final validation.
  - `Alns` (with `AlnsDestroy` and `AlnsRepair`):
    - roulette operator selection;
    - random, worst, Shaw and time-based removal;
    - greedy and regret-k insertion;
    - the cost function;
    - the simulated-annealing loop with adaptive weights, held by the `AlnsSolver` class.
  - `MultiDay`:
    - weekly demand aggregation;
    - the threshold-based assignment of stores to weekdays, with its two scorers;
    - consolidation statistics;
    - `optimize_week`.

Code that changes state step by step is written as methods with loops. Each such method's `ensures` ties its result to a function. The lemmas then state what the source promises about that function. Examples:

- merging, destroying and repairing keep the multiset of stores;
- capacity holds after every insertion;
- the ALNS best cost never rises;
- the temperature stays within bounds;
- every store with an available weekday lands on exactly one of its days.

Routes and solutions are values, so every operation returns the updated value.

Source paths below are relative to the repository root.

## Model

| member | source | states |
|---|---|---|
| `TimeWindows.TimeWindow.DurationMinutes` | vrp_solver/models/time_window.py:27-31 | the duration is the latest minus the earliest minute; it is non-negative exactly when the window is not inverted |
| `TimeWindows.WindowIsClosed` | vrp_solver/models/time_window.py:23-25 | a window contains both of its bounds, and contains exactly the clock readings from its opening to its opening plus its duration |
| `TimeWindows.OverlapMeansCommonTime` | vrp_solver/models/time_window.py:52-59 | a forbidden interval overlaps a window exactly when some clock reading conflicts with the interval and lies in the window |
| `Stores.FirstWindowFor` | vrp_solver/models/store.py:41-43 | the first search of `get_time_window_for_day` returns an index of the window list |
| `Stores.FirstWindowForIsFirst` | vrp_solver/models/store.py:41-43 | the search finds the first window scoped to the day, and finds none exactly when no window is scoped to it |
| `Stores.WindowForDayCases` | vrp_solver/models/store.py:38-50 | the window returned is one of the store's, scoped to the day or general; none is returned exactly when every window is scoped to another day |
| `Stores.ForbiddenConflictMeansSomeInterval` | vrp_solver/models/store.py:52-65 | `has_forbidden_conflict(t)` holds exactly when some forbidden interval contains t |
| `Stores.DaySpecificWindowFirst` | vrp_solver/models/store.py:40-43 | the first window scoped to the day wins over every general window, wherever they sit in the list |
| `Stores.GeneralWindowFallback` | vrp_solver/models/store.py:45-48 | without a window scoped to the day, the first general window is returned |
| `Vehicles.Vehicle.CanServeStore` | vrp_solver/models/vehicle.py:32-43 | a forbidden store is never served; with an empty allow-list every other store is served; otherwise exactly the allowed, non-forbidden stores are |
| `Vehicles.Vehicle.GetRemainingCapacity` | vrp_solver/models/vehicle.py:49-51 | the headroom is never negative: capacity minus load while the load fits, else 0 |
| `Vehicles.RemainingCapacityIsLargestFit` | vrp_solver/models/vehicle.py:45-51 | for a load within capacity, an extra demand fits exactly when it is at most the remaining capacity |
| `Routes.StoreIds` | vrp_solver/models/route.py:85-87 | the ids are those of the stops, one per stop, in visiting order |
| `Routes.InsertIndex` | vrp_solver/models/route.py:51 | where Python's `list.insert` puts an element: the position when within the list, clamped to the list otherwise |
| `Routes.Resequenced` | vrp_solver/models/route.py:52-54 | every stop keeps its place and gets its index as sequence number |
| `Routes.WithStop` | vrp_solver/models/route.py:44-56 | `add_stop` adds exactly one stop (appended with the old length as sequence, or inserted at the clamped position with all stops renumbered), adds the store's demand to the load and changes nothing else |
| `Routes.FirstStopOf` | vrp_solver/models/route.py:60-61 | the first stop serving the id, or none exactly when no stop serves it |
| `Routes.WithoutStop` | vrp_solver/models/route.py:58-68 | `remove_stop` reports success exactly when the id is on the route; on success it deletes the first such stop, renumbers the rest and subtracts that store's demand; otherwise the route is unchanged |
| `Routes.Resequence` | vrp_solver/models/route.py:53-54 | the renumbering loop gives every stop its index |
| `Routes.AddStop` | vrp_solver/models/route.py:44-56 | the method's new route is the one `WithStop` describes |
| `Routes.RemoveStop` | vrp_solver/models/route.py:58-68 | the method's new route and return value are the ones `WithoutStop` describes |
| `Routes.UtilizationWithinCapacity` | vrp_solver/models/route.py:70-78 | with a positive capacity, utilization is at most 100 exactly when the capacity check passes |
| `Routes.CostMonotoneInDistance` | vrp_solver/models/route.py:89-97 | with a non-negative per-km cost, a longer distance never gives a lower route cost |
| `Routes.WithStopStores` | vrp_solver/models/route.py:44-56 | after `add_stop` the stores of the stops are the old ones with the new store inserted at the append or clamped position |
| `Routes.WithStopKeepsLoad` | vrp_solver/models/route.py:56 | `add_stop` keeps the load equal to the sum of the stops' demands |
| `Routes.AddedStopIsFirst` | vrp_solver/models/route.py:44-61 | a store not yet on the route is found by the search of `remove_stop` exactly where `add_stop` put it |
| `Routes.AddThenRemove` | vrp_solver/models/route.py:44-68 | adding a new store and then removing it by id succeeds and restores the store ids and the load |
| `Routes.IdsOfWithStop` | vrp_solver/models/route.py:44-56 | after `add_stop` the store ids are the old ids with the new id inserted where the stop was added |
| `Solutions.WithMetrics` | vrp_solver/models/solution.py:27-32 | `compute_metrics` sets the vehicle count to the number of routes, the total distance to the summed route distances, the total duration to the summed route minutes in hours and the total cost to the summed route costs, and leaves routes, day, unserved stores, feasibility and violations as they were |
| `Solutions.MetricsOfSolution` | vrp_solver/models/solution.py:27-32 | the stored total cost is the fleet's fixed costs plus the cost of the distance driven; with non-negative rates and distances the stored distance is non-negative and the stored cost at least the fixed costs |
| `Solutions.CostSumSplits` | vrp_solver/models/solution.py:32 | the total cost is the vehicles' fixed costs plus the cost of the distance driven |
| `Solutions.MetricsNonNegative` | vrp_solver/models/solution.py:30-32 | with non-negative costs and distances the total distance is non-negative and the total cost is at least the non-negative fixed costs |
| `Solutions.StoresServedCountsServedIds` | vrp_solver/models/solution.py:40-42 | the number of stores served is the number of stop ids listed route by route |
| `Solutions.Utilizations` | vrp_solver/models/solution.py:49 | one utilization per route, in route order |
| `Solutions.AverageUtilization` | vrp_solver/models/solution.py:34-38 | the average utilization is 0 without routes |
| `Solutions.Min` | vrp_solver/models/solution.py:53 | `min` of a non-empty list is an element no larger than any element |
| `Solutions.Max` | vrp_solver/models/solution.py:54 | `max` of a non-empty list is an element no smaller than any element |
| `Solutions.GetUtilizationStats` | vrp_solver/models/solution.py:44-57 | all zeros without routes; otherwise min and max are route utilizations that bound every route's utilization |
| `Solutions.AverageWithinMinMax` | vrp_solver/models/solution.py:44-57 | the mean utilization lies between the minimum and the maximum |
| `Solutions.AverageAtMostFull` | vrp_solver/models/solution.py:34-38 | when every route has a positive capacity it respects, the average utilization is at most 100 |
| `Solutions.DayValues` | vrp_solver/models/solution.py:104-107 | the daily solutions listed in the order their days were added, one per day |
| `Solutions.MultiDaySolution.constructor` | vrp_solver/models/solution.py:92-96 | a new multi-day solution has no days, no solutions and no statistics |
| `Solutions.MultiDaySolution.AddDaySolution` | vrp_solver/models/solution.py:98-100 | sets the day's solution; a new day goes last in the insertion order, a known day keeps its place; the statistics are unchanged |
| `Solutions.WeeklyAfterNewDay` | vrp_solver/models/solution.py:98-107 | adding a new day adds that day's distance, vehicles, cost and stores served to the weekly totals |
| `Solutions.WeeklyAfterReplacedDay` | vrp_solver/models/solution.py:98-107 | replacing a day's solution swaps the old solution's totals for the new one's in the weekly totals |
| `Distance.CalculateRouteDistance` | vrp_solver/utils/distance.py:90-112 | the loop sums the depot leg, the legs between consecutive locations and the leg back, a missing entry counting 0 |
| `Distance.LegsReversed` | vrp_solver/utils/distance.py:104-107 | over a symmetric matrix, the legs of a reversed sequence sum to the same length |
| `Distance.RouteDistanceReversed` | vrp_solver/utils/distance.py:90-112 | over a symmetric matrix, a tour and its reverse have the same length |
| `Distance.BuildRow` | vrp_solver/utils/distance.py:56-68 | the inner loop builds the row of one location: 0 for itself, the chosen formula (haversine for any unknown method) for the others |
| `Distance.BuildDistanceMatrix` | vrp_solver/utils/distance.py:47-70 | the matrix has one row and one column per location, as the row definition gives |
| `Distance.DistanceMatrixShape` | vrp_solver/utils/distance.py:55-68 | every pair of locations has an entry, the diagonal is 0, and symmetric formulas give a symmetric matrix |
| `Distance.PairDistanceSymmetric` | vrp_solver/utils/distance.py:58-66 | with both formulas symmetric, the distance between two points does not depend on their order |
| `Distance.BuildTimeMatrix` | vrp_solver/utils/distance.py:73-87 | the time matrix has the distance matrix's entries converted to minutes at the speed; a zero speed with some entry raises |
| `Distance.TimeEntry` | vrp_solver/utils/distance.py:84 | each time entry is its distance converted to minutes, a missing entry being 0 in both |
| `Distance.LegsScaled` | vrp_solver/utils/distance.py:84 | the legs over the time matrix are the legs over the distance matrix converted to minutes |
| `Distance.RouteTimeIsScaledDistance` | vrp_solver/utils/distance.py:73-112 | a tour's travel time over the built time matrix is its length converted at the speed |
| `Checker.CanAddStoreToRoute` | vrp_solver/constraints/checker.py:13-35 | the store can be added exactly when it fits, the vehicle may serve it, the day is allowed and the store has a window that day (then the reason is "OK"); the tests run in source order and the first failing one gives the reason: capacity exactly when the demand would exceed the capacity, fleet restriction exactly when it fits but the vehicle may not serve the store, day not available exactly when both pass but the store excludes the day, and no time window exactly when the first three pass but the store has no window that day |
| `Checker.TimeFeasibleCases` | vrp_solver/constraints/checker.py:38-55 | an early arrival may wait; a late arrival at a proper window is refused; inside the window, or without one, the arrival is feasible exactly when no forbidden interval contains it |
| `Checker.CalculateInsertionCost` | vrp_solver/constraints/checker.py:58-114 | the cost is defined except for a negative position that indexes before the start of the stop list |
| `Checker.LegsInsert` | vrp_solver/constraints/checker.py:102-114 | inserting inside a sequence replaces one leg by the two legs through the new location |
| `Checker.GrowthAtFront` | vrp_solver/constraints/checker.py:78-88 | inserting at the front replaces the depot's first leg by two legs |
| `Checker.GrowthAtBack` | vrp_solver/constraints/checker.py:90-100 | appending replaces the leg back to the depot by two legs |
| `Checker.GrowthInside` | vrp_solver/constraints/checker.py:102-114 | inserting strictly inside replaces the leg between the neighbours by two legs |
| `Checker.InsertionCostIsTourGrowth` | vrp_solver/constraints/checker.py:58-114 | the insertion cost is how much longer the tour gets by the insertion that `list.insert` would make |
| `BaseSolver.NewContext` | vrp_solver/solvers/base_solver.py:13-29 | a missing time matrix becomes an empty one |
| `BaseSolver.CalculateRouteDistance` | vrp_solver/solvers/base_solver.py:39-57 | the route's distance is the tour length over its store ids from and back to the depot; 0 without stops |
| `BaseSolver.CalculateRouteTime` | vrp_solver/solvers/base_solver.py:76-94 | the travel time is the tour length over the time matrix; 0 without stops or without a time matrix |
| `BaseSolver.TravelTimeIsDistanceAtSpeed` | vrp_solver/solvers/base_solver.py:76-94 | over a time matrix built from the distances, the travel time is the distance converted at that speed |
| `BaseSolver.Refreshed` | vrp_solver/solvers/base_solver.py:59-74 | `_update_route_metrics` changes only distance and duration; the distance is the tour length; a route without stops keeps its duration |
| `BaseSolver.UpdateRouteMetrics` | vrp_solver/solvers/base_solver.py:59-74 | the method's new route is the one `Refreshed` describes |
| `BaseSolver.RouteDistanceNonNegative` | vrp_solver/solvers/base_solver.py:39-57 | over a non-negative matrix a route's distance is non-negative |
| `BaseSolver.RefreshedCoversService` | vrp_solver/solvers/base_solver.py:59-74 | over non-negative matrices a refreshed route's duration is at least its service time |
| `BaseSolver.TravelEstimatesAgree` | vrp_solver/solvers/base_solver.py:67-72 | a time matrix built at 40 km/h gives the same metrics as the estimate used without a time matrix |
| `BaseSolver.RefreshedAll` | vrp_solver/solvers/base_solver.py:101-102 | one refreshed route per route |
| `BaseSolver.RefreshEach` | vrp_solver/solvers/base_solver.py:101-102 | the loop refreshes every route in order |
| `BaseSolver.RefreshRoutes` | vrp_solver/solvers/base_solver.py:101-102 | the loop's routes are the refreshed routes |
| `BaseSolver.CreateSolution` | vrp_solver/solvers/base_solver.py:96-105 | `_create_solution` refreshes every route and then computes the metrics |
| `BaseSolver.RefreshedAllKeepsStops` | vrp_solver/solvers/base_solver.py:96-105 | refreshing keeps the stops served, and the total distance becomes the sum of the tour lengths |
| `Validator.TimeOfDayParts` | vrp_solver/constraints/validator.py:85 | an instant is its whole days plus its clock reading |
| `Validator.TimeOfDayShift` | vrp_solver/constraints/validator.py:85 | the clock reading of whole days plus a time of day is that time of day |
| `Validator.WaitUntilOpening` | vrp_solver/constraints/validator.py:95-101 | moving an early arrival to the window's opening hour and minute (keeping seconds) makes it strictly later and puts its clock reading in the opening minute |
| `Validator.ServeStop` | vrp_solver/constraints/validator.py:67-107 | one pass of the loop: the violation reported for the stop is the one its arrival against its window gives, and the stop is stamped with its service start and its departure after the service time |
| `Validator.ServeStopAt` | vrp_solver/constraints/validator.py:67-107 | the loop body at stop i, leaving from the departure after stop i-1, reports stop i's violation and stamps it with its start and departure |
| `Validator.CheckTimeWindows` | vrp_solver/constraints/validator.py:57-115 | `_check_time_windows` returns the violations and the stamped route the time-window pass defines |
| `Validator.RunTimeWindows` | vrp_solver/constraints/validator.py:67-107 | after the loop the clock, the violations and the stamped stops are those of all the stops served in order |
| `Validator.PassStep` | vrp_solver/constraints/validator.py:67-107 | serving stop i extends the clock, the violations and the stamped stops by that stop alone |
| `Validator.PassShape` | vrp_solver/constraints/validator.py:67-113 | at most one violation per stop, every visited stop stamped, and the clock is the last stop's departure |
| `Validator.AllStampedByPass` | vrp_solver/constraints/validator.py:79-105 | each visited stop is the route's stop at that place with arrival and departure set |
| `Validator.ViolationsPerStop` | vrp_solver/constraints/validator.py:84-92 | the pass reports at most one time-window violation per stop |
| `Validator.TravelNonNegative` | vrp_solver/constraints/validator.py:71-75 | a travel time read from a matrix without negative entries, or the 5-minute default, is never negative |
| `Validator.ServiceStartNotEarlier` | vrp_solver/constraints/validator.py:78-101 | service at a stop never starts before the clock stood at the previous departure |
| `Validator.PassTakesService` | vrp_solver/constraints/validator.py:104-107 | with non-negative travel times, the pass takes at least the service time per stop |
| `Validator.PassChronological` | vrp_solver/constraints/validator.py:78-107 | with non-negative travel times, arrivals and departures of the stamped stops never go back in time |
| `Validator.StartNotBeforeArrival` | vrp_solver/constraints/validator.py:94-101 | service never starts before arrival |
| `Validator.StartTimeWaitsForWindow` | vrp_solver/constraints/validator.py:94-101 | an arrival before the window opens waits until the opening minute; any other arrival starts at once |
| `Validator.TimeWindowDuration` | vrp_solver/constraints/validator.py:109-113 | after the pass the duration covers at least the service times, the depot return is departure plus duration, and the stops are chronological |
| `Validator.NoConflicts` | vrp_solver/constraints/validator.py:125-131 | a stop's forbidden check reports nothing exactly when no interval of its store contains the arrival's clock reading |
| `Validator.CheckForbiddenIntervals` | vrp_solver/constraints/validator.py:117-133 | the loop reports, stop by stop, one violation per conflicting interval |
| `Validator.NoForbiddenViolations` | vrp_solver/constraints/validator.py:117-133 | no forbidden violation exactly when no stop with an arrival arrives inside one of its store's intervals |
| `Validator.NoFleetViolations` | vrp_solver/constraints/validator.py:135-146 | at most one fleet violation per stop, and none exactly when the vehicle may serve every stop |
| `Validator.CheckFleetRestrictions` | vrp_solver/constraints/validator.py:135-146 | the loop reports the stops the vehicle may not serve, in order |
| `Validator.NoDayViolations` | vrp_solver/constraints/validator.py:148-162 | at most one day violation per stop, and none exactly when every stop allows the day |
| `Validator.CheckDayExclusions` | vrp_solver/constraints/validator.py:148-162 | nothing is reported for a route without a day; otherwise the stops that exclude the day, in order |
| `Validator.ValidateRoute` | vrp_solver/constraints/validator.py:15-51 | the verdict, the violations in the order the six checks run, and the route as the time-window pass leaves it |
| `Validator.CheckAfterTimeWindows` | vrp_solver/constraints/validator.py:32-49 | checks 3 to 6 appended in order: forbidden intervals, fleet, day exclusions when the route has a day, duration |
| `Validator.TimeWindowCheckKeeps` | vrp_solver/constraints/validator.py:57-115 | the pass changes only times, depot return and duration: vehicle, day, load, distance, departure and visiting order are kept |
| `Validator.ValidExactlyWhenAllHold` | vrp_solver/constraints/validator.py:15-51 | a route is valid exactly when capacity, time windows, forbidden intervals, fleet, day exclusions and duration all hold |
| `Validator.NoLaterViolations` | vrp_solver/constraints/validator.py:32-49 | checks 3 to 6 report nothing exactly when each of their conditions holds on the route the pass left |
| `Validator.CapacityUtilizationPenalty` | vrp_solver/constraints/validator.py:169-176 | the penalty is non-negative, 0 exactly at the target, and at least the deviation either way |
| `ClarkeWright.FirstCompatible` | vrp_solver/solvers/clarke_wright.py:87-92 | the index of the first vehicle that may serve the store and holds its demand; none exactly when no vehicle does |
| `ClarkeWright.FindCompatibleVehicle` | vrp_solver/solvers/clarke_wright.py:87-92 | the loop returns that first compatible vehicle, which is in the fleet; none exactly when no vehicle is compatible |
| `ClarkeWright.AppendedFacts` | vrp_solver/solvers/clarke_wright.py:184-190 | appending stores by `add_stop` keeps the old stops, adds one stop per store numbered after them, adds the stores' demand and changes nothing else |
| `ClarkeWright.AppendedIds` | vrp_solver/solvers/clarke_wright.py:184-190 | a route built by appending to an empty route holds exactly the stores, in order |
| `ClarkeWright.AddStops` | vrp_solver/solvers/clarke_wright.py:185-190 | the loop `for stop in stops: add_stop(stop.store)` appends those stores |
| `ClarkeWright.CreateInitialRoutes` | vrp_solver/solvers/clarke_wright.py:66-85 | one refreshed single-store route, leaving at the start time, for each store with a compatible vehicle, in order; other stores are skipped |
| `ClarkeWright.SingleRouteFacts` | vrp_solver/solvers/clarke_wright.py:76-78 | an initial route has the one store as stop 0, the vehicle, the store's demand as load, the day and the departure |
| `ClarkeWright.InitialRoutesServe` | vrp_solver/solvers/clarke_wright.py:66-85 | the initial routes serve exactly the stores with a compatible vehicle, one route each |
| `ClarkeWright.InitialRouteAt` | vrp_solver/solvers/clarke_wright.py:70-83 | the k-th initial route is the single-store route of the k-th servable store on its first compatible vehicle |
| `ClarkeWright.PairSaving` | vrp_solver/solvers/clarke_wright.py:105-127 | the inner body for (i, j) appends a saving exactly for same-vehicle, non-empty routes with a positive saving |
| `ClarkeWright.RowSaving` | vrp_solver/solvers/clarke_wright.py:104-127 | the inner loop appends the savings of row i in order of j |
| `ClarkeWright.CollectSavings` | vrp_solver/solvers/clarke_wright.py:103-127 | the nested loops collect the savings row by row |
| `ClarkeWright.CalculateSavings` | vrp_solver/solvers/clarke_wright.py:94-132 | the list is the collected savings stably sorted by decreasing value |
| `ClarkeWright.RowSavingsHas` | vrp_solver/solvers/clarke_wright.py:104-127 | a saving is in row i up to m exactly when it is a saving of the pair (i, j) with j below m |
| `ClarkeWright.SavingsListMembers` | vrp_solver/solvers/clarke_wright.py:94-132 | the sorted list holds exactly the pairs i < j on the same vehicle, both non-empty, whose saving `d(depot,last_i) + d(depot,first_j) - d(last_i,first_j)` is positive |
| `ClarkeWright.SavingsListOrder` | vrp_solver/solvers/clarke_wright.py:130 | the savings list runs from the largest saving to the smallest |
| `ClarkeWright.RebuiltFacts` | vrp_solver/solvers/clarke_wright.py:181-193 | a route rebuilt from a list of stores holds exactly those stores numbered 0.., keeps vehicle, day and departure, has no depot return and carries their demand as load |
| `ClarkeWright.MergeTwoRoutes` | vrp_solver/solvers/clarke_wright.py:179-195 | the method's route is the merged route of the definition |
| `ClarkeWright.MergedIds` | vrp_solver/solvers/clarke_wright.py:184-190 | the merged route visits route 1's stores and then route 2's |
| `ClarkeWright.MergedRouteStores` | vrp_solver/solvers/clarke_wright.py:179-195 | the merged route visits route 1's then route 2's stores, on route 1's vehicle, day and departure, with the summed load when both loads match their stops |
| `ClarkeWright.MergeSavesDistance` | vrp_solver/solvers/clarke_wright.py:97-124 | with a symmetric leg between route 1's last store and the depot, the merged distance is the two tour lengths minus exactly the saving |
| `ClarkeWright.CanMergeRoutes` | vrp_solver/solvers/clarke_wright.py:160-177 | the merge is allowed exactly when the vehicles match, the loads fit and the validator accepts the merged route |
| `ClarkeWright.CanMergeMeans` | vrp_solver/solvers/clarke_wright.py:160-177 | an allowed merge gives a route within capacity, within its duration, whose vehicle may serve every stop and whose stores allow its day |
| `ClarkeWright.MergeEntry` | vrp_solver/solvers/clarke_wright.py:141-156 | one savings entry merges j into i when both are active and the merge is allowed, and otherwise changes nothing |
| `ClarkeWright.MergeRoutes` | vrp_solver/solvers/clarke_wright.py:134-158 | `_merge_routes` folds the entries over the routes keyed by index and returns the survivors in index order |
| `ClarkeWright.MergeStepShrinks` | vrp_solver/solvers/clarke_wright.py:150-156 | a merge that happens leaves one active route fewer, keeping i and deleting j; an entry that does not merge changes nothing |
| `ClarkeWright.MergeStepBag` | vrp_solver/solvers/clarke_wright.py:141-156 | a merge step keeps the keys among the original indices and the multiset of stores served |
| `ClarkeWright.MergeAllBag` | vrp_solver/solvers/clarke_wright.py:141-156 | all the merge steps together keep the keys and the multiset of stores served |
| `ClarkeWright.MergeKeepsStores` | vrp_solver/solvers/clarke_wright.py:134-158 | merging never loses or duplicates a store: the served ids are a permutation of those before |
| `ClarkeWright.SingleRouteSound` | vrp_solver/solvers/clarke_wright.py:70-83 | a single-store route on a compatible vehicle is within capacity and its vehicle may serve the store |
| `ClarkeWright.InitialRoutesSound` | vrp_solver/solvers/clarke_wright.py:66-85 | every initial route is within capacity with a vehicle that may serve its store |
| `ClarkeWright.MergeStepSound` | vrp_solver/solvers/clarke_wright.py:141-156 | a merge step keeps every active route within capacity and served by its vehicle |
| `ClarkeWright.MergeAllSound` | vrp_solver/solvers/clarke_wright.py:141-156 | all merge steps keep every active route sound |
| `ClarkeWright.MergedRoutesSound` | vrp_solver/solvers/clarke_wright.py:134-158 | from sound routes, merging yields only sound routes |
| `ClarkeWright.Scan` | vrp_solver/solvers/clarke_wright.py:213-214 | the pair found is in the 2-opt pass range, not before the starting pair, and satisfies the test |
| `ClarkeWright.ScanIsFirst` | vrp_solver/solvers/clarke_wright.py:213-237 | no pair between the start and the pair found satisfies the test; with none found, no pair from the start on does |
| `ClarkeWright.FirstImproving` | vrp_solver/solvers/clarke_wright.py:213-240 | the pair one 2-opt pass takes lies in the pass range |
| `ClarkeWright.FirstImprovingIsFirst` | vrp_solver/solvers/clarke_wright.py:213-240 | the pair taken improves the route and no earlier pair in scan order does; with no pair taken, no pair improves it |
| `ClarkeWright.BuildCandidate` | vrp_solver/solvers/clarke_wright.py:216-225 | the candidate is the route rebuilt from the stops with segment i..j reversed, refreshed |
| `ClarkeWright.TryPair` | vrp_solver/solvers/clarke_wright.py:216-237 | the pair is taken exactly when the candidate is shorter and valid, and then the route takes the candidate's stamped stops, distance and duration |
| `ClarkeWright.ScanRow` | vrp_solver/solvers/clarke_wright.py:214-237 | the inner loop takes the first improving pair of row i, or leaves the scan to the next row |
| `ClarkeWright.TwoOptPass` | vrp_solver/solvers/clarke_wright.py:210-240 | one pass takes the first improving pair in scan order, or leaves the route unchanged when none improves |
| `ClarkeWright.TwoOptPasses` | vrp_solver/solvers/clarke_wright.py:205-240 | the `while improved and iteration < 100` loop runs the pass until it stops improving or 100 passes are done |
| `ClarkeWright.TwoOptImprove` | vrp_solver/solvers/clarke_wright.py:197-240 | `_two_opt_improve` leaves routes under 4 stops alone and otherwise runs the passes |
| `ClarkeWright.AcceptedStops` | vrp_solver/solvers/clarke_wright.py:233-235 | taking a pair changes only stops, distance and duration, and the stores follow the reversed segment |
| `ClarkeWright.AcceptedFacts` | vrp_solver/solvers/clarke_wright.py:216-235 | taking a pair reverses the ids from i to j, keeps their multiset and changes nothing but path and metrics |
| `ClarkeWright.AcceptedServes` | vrp_solver/solvers/clarke_wright.py:228-235 | a taken candidate passed the validator, so the vehicle may serve every stop |
| `ClarkeWright.FirstImprovingImproves` | vrp_solver/solvers/clarke_wright.py:228-237 | the pair a pass takes is in range and improving |
| `ClarkeWright.PassKeeps` | vrp_solver/solvers/clarke_wright.py:209-240 | a pass that takes a pair keeps the number of stops and their ids, changes only the path and strictly shortens the route |
| `ClarkeWright.PassesKeepShape` | vrp_solver/solvers/clarke_wright.py:209-240 | any number of passes keeps the stops' ids, the first store and the rest of the route, and never lengthens it |
| `ClarkeWright.TwoOptFromFacts` | vrp_solver/solvers/clarke_wright.py:209-240 | the 2-opt loop keeps the stop count, the multiset of ids and the first store, changes only the path and never lengthens the route |
| `ClarkeWright.PassesKeepSound` | vrp_solver/solvers/clarke_wright.py:209-240 | the passes keep a sound route sound |
| `ClarkeWright.TwoOptFromSound` | vrp_solver/solvers/clarke_wright.py:209-240 | the 2-opt loop keeps a sound route sound |
| `ClarkeWright.TwoOptLocalOptimum` | vrp_solver/solvers/clarke_wright.py:209-240 | when the loop stops before 100 passes no pair improves the result, and any move made has strictly shortened the route |
| `ClarkeWright.TwoOptAll` | vrp_solver/solvers/clarke_wright.py:51-52 | one improved route per route |
| `ClarkeWright.TwoOptKeeps` | vrp_solver/solvers/clarke_wright.py:197-240 | 2-opt keeps the multiset of a route's ids and keeps a sound route sound |
| `ClarkeWright.StampedAll` | vrp_solver/solvers/clarke_wright.py:58-62 | one route per route, as the validator leaves it |
| `ClarkeWright.AllValidMeans` | vrp_solver/solvers/clarke_wright.py:58-62 | the solution stays feasible exactly when the validator accepts every route |
| `ClarkeWright.RouteCheckConsistent` | vrp_solver/constraints/validator.py:51 | the validator reports a route valid exactly when it lists no violation |
| `ClarkeWright.FailuresEmpty` | vrp_solver/solvers/clarke_wright.py:58-62 | no violation is collected exactly when every route passes |
| `ClarkeWright.RouteCheckKeepsStores` | vrp_solver/solvers/clarke_wright.py:58-59 | validating a route keeps its stores |
| `ClarkeWright.StampedAllKeeps` | vrp_solver/solvers/clarke_wright.py:58-62 | validating every route keeps the stores served and keeps each sound route sound |
| `ClarkeWright.AvailableStoresMembers` | vrp_solver/solvers/clarke_wright.py:36 | the available stores are exactly the stores that allow the day |
| `ClarkeWright.ValidatedFacts` | vrp_solver/solvers/clarke_wright.py:55-64 | the solution is for the day, lists no unserved store, counts one vehicle per route, keeps the stores served, is feasible exactly when it lists no violation, and keeps sound routes sound |
| `ClarkeWright.Solve` | vrp_solver/solvers/clarke_wright.py:22-64 | `solve` returns the solution the definition describes, with the default start at 8:00 |
| `ClarkeWright.ImproveAll` | vrp_solver/solvers/clarke_wright.py:51-52 | the loop improves every route in order |
| `ClarkeWright.ValidateRoutes` | vrp_solver/solvers/clarke_wright.py:58-62 | the loop stamps every route, clears feasibility exactly when a route fails and collects the failures' violations in route order |
| `ClarkeWright.MergedRoutesKeep` | vrp_solver/solvers/clarke_wright.py:44-48 | savings and merging keep the multiset of stores served and keep sound routes sound |
| `ClarkeWright.TwoOptAllKeeps` | vrp_solver/solvers/clarke_wright.py:51-52 | improving every route keeps the multiset of stores served and keeps sound routes sound |
| `ClarkeWright.RefreshedAllSound` | vrp_solver/solvers/clarke_wright.py:55 | refreshing the metrics keeps every route sound |
| `ClarkeWright.PlannedFacts` | vrp_solver/solvers/clarke_wright.py:42-55 | the planned routes serve each servable store exactly once and are all within capacity with a vehicle that may serve their stores |
| `ClarkeWright.ServableMembers` | vrp_solver/solvers/clarke_wright.py:70-74 | the servable stores are the given stores with a compatible vehicle |
| `ClarkeWright.SolveFacts` | vrp_solver/solvers/clarke_wright.py:22-64 | with stores available, the solution is for the day, counts one vehicle per route, is feasible exactly when it lists no violation, lists no unserved store and serves each available store with a compatible vehicle exactly once |
| `ClarkeWright.SolveEmpty` | vrp_solver/solvers/clarke_wright.py:38-39 | with no store allowing the day, the solution is empty, feasible and lists every store as unserved |
| `ClarkeWright.SolveServesAvailable` | vrp_solver/solvers/clarke_wright.py:22-64 | every store served allows the day and has a compatible vehicle |
| `ClarkeWright.SolveFeasible` | vrp_solver/solvers/clarke_wright.py:55-64 | the solution is feasible exactly when the validator accepts every planned route |
| `Alns.Reach` | vrp_solver/solvers/alns_solver.py:152-156 | the running-sum scan stops, if at all, at an index inside the weight table |
| `Alns.Roulette` | vrp_solver/solvers/alns_solver.py:147-158 | the operator chosen is always one of the table's operators, the first one when the draw is never reached |
| `Alns.ReachIsFirst` | vrp_solver/solvers/alns_solver.py:152-156 | the scan returns the first index whose cumulative weight reaches the draw, or none when no cumulative weight does |
| `Alns.RouletteIsFirstReaching` | vrp_solver/solvers/alns_solver.py:147-158 | for a draw up to the total weight, the operator chosen is the first whose cumulative weight reaches the draw |
| `Alns.SelectOperator` | vrp_solver/solvers/alns_solver.py:147-158 | the loop returns the roulette choice for the uniform draw scaled to the total weight |
| `Alns.Bump` | vrp_solver/solvers/alns_solver.py:134-136 | the table keeps its length |
| `Alns.BumpChanges` | vrp_solver/solvers/alns_solver.py:134-136 | `weights[op] += score` adds the score to the operator's weight, leaves every other weight and every name unchanged |
| `Alns.BumpKeepsWeights` | vrp_solver/solvers/alns_solver.py:134-136 | a non-negative score keeps the table naming its operators in order with weights of at least 1 |
| `Alns.InitialWeights` | vrp_solver/solvers/alns_solver.py:35-46 | every operator starts with weight 1.0, in declaration order |
| `Alns.CalculateSolutionCost` | vrp_solver/solvers/alns_solver.py:447-466 | the loop computes distance + 1000 per vehicle + 500 times the summed deviation of each route's utilization from 85% |
| `Alns.CostBounds` | vrp_solver/solvers/alns_solver.py:447-466 | the cost is at least distance + 1000 per vehicle, with equality when every route sits exactly at 85% |
| `Alns.PenaltyFacts` | vrp_solver/solvers/alns_solver.py:458-462 | the summed utilization deviation is never negative, and zero when every route is at 85% |
| `Alns.Decide` | vrp_solver/solvers/alns_solver.py:104-130 | a new best exactly when the candidate beats the best cost; better exactly when it beats the current cost but not the best |
| `Alns.EqualCostAccepted` | vrp_solver/solvers/alns_solver.py:120-126 | a candidate costing as much as the current solution is always accepted, since exp(0) = 1 exceeds any draw of `random.random()` |
| `Alns.Score` | vrp_solver/solvers/alns_solver.py:48-51 | scores are never negative, zero exactly for a rejection, and 10 for a new best |
| `Alns.CoolLowers` | vrp_solver/solvers/alns_solver.py:139 | cooling never raises the temperature nor takes it below 1, and strictly lowers it above 1/0.99 |
| `Alns.StepIs` | vrp_solver/solvers/alns_solver.py:86-142 | a loop pass taken while the counter is at most 500 is the acceptance update for the two roulette choices and the candidate built with them |
| `Alns.AdvanceKeeps` | vrp_solver/solvers/alns_solver.py:101-139 | one iteration keeps the best no costlier than the current solution and the initial one, never raises the best cost or the temperature, and never lowers a weight |
| `Alns.SearchedKeeps` | vrp_solver/solvers/alns_solver.py:78-145 | over the whole loop the best never costs more than the initial solution, the temperature stays in [1, 100], every weight stays at least 1, the counter counts the iterations run, and the loop ends early only when more than 500 iterations passed without a new best |
| `Alns.IterationsCount` | vrp_solver/solvers/alns_solver.py:86 | the iteration number advances by one per pass taken |
| `Alns.CandidateAccounts` | vrp_solver/solvers/alns_solver.py:92-93 | destroy then repair serves every store the current solution served, except exactly the stores the repair gave up |
| `Alns.AlnsAvailableMembers` | vrp_solver/solvers/alns_solver.py:66 | the stores planned are exactly those that allow the day and have a time window that day |
| `Alns.SolvedNoWorse` | vrp_solver/solvers/alns_solver.py:53-145 | with nothing to plan every store is reported unserved; otherwise the result costs no more than the Clarke-Wright solution it starts from, and the weight tables stay valid |
| `Alns.AlnsSolver.constructor` | vrp_solver/solvers/alns_solver.py:23-51 | every destroy and repair operator starts with weight 1.0 |
| `Alns.AlnsSolver.Rebuilt` | vrp_solver/solvers/alns_solver.py:92-93 | the candidate is the repair of the destroyed current solution |
| `Alns.AlnsSolver.Apply` | vrp_solver/solvers/alns_solver.py:101-139 | the solver's weights and the loop variables become the updates of the decided outcome |
| `Alns.AlnsSolver.Accept` | vrp_solver/solvers/alns_solver.py:96-139 | the costs are computed, the outcome decided and the updates made as the acceptance rule says |
| `Alns.AlnsSolver.Propose` | vrp_solver/solvers/alns_solver.py:88-93 | the two operators are the roulette choices of the iteration's draws and the candidate is built with them |
| `Alns.AlnsSolver.Iteration` | vrp_solver/solvers/alns_solver.py:96-142 | the second half of the loop body is the guarded loop step from that state |
| `Alns.AlnsSolver.Round` | vrp_solver/solvers/alns_solver.py:86-142 | one pass of the loop body is the guarded loop step |
| `Alns.AlnsSolver.Search` | vrp_solver/solvers/alns_solver.py:78-145 | the loop returns the best solution and leaves the weight tables of the state reached after at most n guarded steps |
| `Alns.AlnsSolver.Solve` | vrp_solver/solvers/alns_solver.py:53-145 | `solve` returns the solution of the definition and leaves the weight tables it describes |
| `AlnsDestroy.RouteEntries` | vrp_solver/solvers/alns_solver.py:184 | the `(route, stop)` pairs of one route, one per stop, in order |
| `AlnsDestroy.RouteKeys` | vrp_solver/solvers/alns_solver.py:184 | the (route, store id) keys of one route, one per stop, in order |
| `AlnsDestroy.Strip` | vrp_solver/solvers/alns_solver.py:193 | `route.remove_stop` keeps the number of routes |
| `AlnsDestroy.EntryKeys` | vrp_solver/solvers/alns_solver.py:184 | the keys of `all_stops` are the keys of each route in turn |
| `AlnsDestroy.EntriesPresent` | vrp_solver/solvers/alns_solver.py:184 | every entry of `all_stops` is a stop of its route |
| `AlnsDestroy.PairsRemove` | vrp_solver/solvers/alns_solver.py:193 | removing a store from its route removes exactly one (route, store) pair |
| `AlnsDestroy.ServedIdsRemove` | vrp_solver/solvers/alns_solver.py:193 | removing a store from its route removes exactly one occurrence of its id from the stores served |
| `AlnsDestroy.StripAll` | vrp_solver/solvers/alns_solver.py:191-194 | taking out the listed stops keeps the number of routes |
| `AlnsDestroy.RemoveEntry` | vrp_solver/solvers/alns_solver.py:193-194 | the method removes the entry's stop and records its store |
| `AlnsDestroy.KeepStep` | vrp_solver/solvers/alns_solver.py:193-194 | one removal moves one store id from the routes to the removed list |
| `AlnsDestroy.StripAllKeepsStores` | vrp_solver/solvers/alns_solver.py:191-194 | the stops left and the stores removed together account for every stop served before |
| `AlnsDestroy.StripAllTakesListed` | vrp_solver/solvers/alns_solver.py:191-194 | only stores of the listed entries are removed, each at most as often as listed, so no more stores than entries |
| `AlnsDestroy.StripAllRemovesAll` | vrp_solver/solvers/alns_solver.py:191-194 | when the listed entries are distinct stops, every one is removed, in list order |
| `AlnsDestroy.PrefixKeys` | vrp_solver/solvers/alns_solver.py:189-194 | any prefix of a shuffle of `all_stops` lists distinct stops |
| `AlnsDestroy.ShuffledPresent` | vrp_solver/solvers/alns_solver.py:191-194 | each entry of the shuffle is still a stop when its turn comes |
| `AlnsDestroy.NumToRemove` | vrp_solver/solvers/alns_solver.py:165 | `max(1, int(total * 0.3))`: at least 1, at most 30% of the stops unless 1, and the largest such count |
| `AlnsDestroy.RandomRemoval` | vrp_solver/solvers/alns_solver.py:181-196 | the first `min(num, stops)` entries of the shuffle are removed, all of them, and their stores are returned in order |
| `AlnsDestroy.TimeBasedRemoval` | vrp_solver/solvers/alns_solver.py:268-284 | the same removal as random removal, with the day unused |
| `AlnsDestroy.DropSavingIsTourShrink` | vrp_solver/solvers/alns_solver.py:422-445 | each case of the saving formula is exactly the shortening of the depot tour when the store is dropped |
| `AlnsDestroy.DropFront` | vrp_solver/solvers/alns_solver.py:427-431 | dropping the first store shortens the tour by depot→x + x→next − depot→next |
| `AlnsDestroy.DropBack` | vrp_solver/solvers/alns_solver.py:433-437 | dropping the last store shortens the tour by prev→x + x→depot − prev→depot |
| `AlnsDestroy.DropInside` | vrp_solver/solvers/alns_solver.py:439-445 | dropping an inner store shortens the tour by prev→x + x→next − prev→next |
| `AlnsDestroy.RemovalSavingIsTourShrink` | vrp_solver/solvers/alns_solver.py:413-445 | `_calculate_removal_saving` is the route's depot-tour length minus its length without the store |
| `AlnsDestroy.WorstEntryPresent` | vrp_solver/solvers/alns_solver.py:202-224 | the scan picks a stop exactly when some route has a stop |
| `AlnsDestroy.WorstEntryIsWorst` | vrp_solver/solvers/alns_solver.py:207-217 | the stop picked has the largest removal saving, and is the first such stop in scan order |
| `AlnsDestroy.TakeOutStep` | vrp_solver/solvers/alns_solver.py:220-222 | one round of worst removal leaves one stop fewer and records one more store |
| `AlnsDestroy.WorstRemovedFacts` | vrp_solver/solvers/alns_solver.py:198-226 | worst removal keeps the number of routes, accounts for every store served, and removes `min(num, stops)` stores |
| `AlnsDestroy.ScanRouteWorst` | vrp_solver/solvers/alns_solver.py:207-217 | the scan of one route continues the running maximum of removal savings |
| `AlnsDestroy.FindWorst` | vrp_solver/solvers/alns_solver.py:203-217 | the double loop finds the first stop of largest removal saving |
| `AlnsDestroy.WorstRoundOnce` | vrp_solver/solvers/alns_solver.py:202-224 | one round removes the worst stop, or stops the loop when there is none |
| `AlnsDestroy.WorstRounds` | vrp_solver/solvers/alns_solver.py:202-224 | the rounds are the step iterated `num` times |
| `AlnsDestroy.WorstRemoval` | vrp_solver/solvers/alns_solver.py:198-226 | `_worst_removal` returns the routes and stores of the definition |
| `AlnsDestroy.OrderPresent` | vrp_solver/solvers/alns_solver.py:257-264 | a reordering of `all_stops` lists only stops |
| `AlnsDestroy.StripPrefix` | vrp_solver/solvers/alns_solver.py:260-264 | the loop takes out the first m listed entries that are still stops |
| `AlnsDestroy.ShawRemoval` | vrp_solver/solvers/alns_solver.py:228-266 | with no stop nothing changes; otherwise the `min(num, stops)` stops most related to the seed are taken out |
| `AlnsDestroy.ShawRemovesMostRelated` | vrp_solver/solvers/alns_solver.py:237-264 | the order is a permutation of `all_stops` and every stop taken is at least as related to the seed (distance + 10 × demand difference) as every stop left |
| `AlnsDestroy.DestroyedKeepsStores` | vrp_solver/solvers/alns_solver.py:160-179 | every operator keeps the number of routes, accounts for every store served and removes at most `num_to_remove`; random, time-based and worst removal take out exactly `min(num, stops)`; an unknown operator changes nothing |
| `AlnsDestroy.EntriesCountStops` | vrp_solver/solvers/alns_solver.py:165 | `sum(len(r.stops) for r in routes)` is the number of entries of `all_stops` |
| `AlnsDestroy.ApplyDestroy` | vrp_solver/solvers/alns_solver.py:160-179 | `_apply_destroy` dispatches on the operator name and returns the routes and stores of the definition |
| `AlnsRepair.RouteSlots` | vrp_solver/solvers/alns_solver.py:320-327 | a route the checker accepts offers every position 0..len(stops) at its insertion cost; any other route offers none |
| `AlnsRepair.SlotFacts` | vrp_solver/solvers/alns_solver.py:320-327 | every candidate names an accepting route, a position within it and that position's insertion cost |
| `AlnsRepair.SlotsEmpty` | vrp_solver/solvers/alns_solver.py:320-327 | there is no candidate exactly when the checker accepts the store on no route |
| `AlnsRepair.BestSlotIsCheapest` | vrp_solver/solvers/alns_solver.py:315-331 | the best candidate is none exactly when no route accepts; else it is the first candidate of least cost |
| `AlnsRepair.NewRouteCost` | vrp_solver/solvers/alns_solver.py:336 | inserting into an empty route costs depot→store + store→depot |
| `AlnsRepair.OpenRouteServes` | vrp_solver/solvers/alns_solver.py:340-342 | a new route serves one store more |
| `AlnsRepair.InsertServes` | vrp_solver/solvers/alns_solver.py:346-347 | inserting a stop serves one store more |
| `AlnsRepair.PlaceServes` | vrp_solver/solvers/alns_solver.py:334-347 | a store placed is served once more; a store dropped changes nothing |
| `AlnsRepair.PlaceKeepsRoutes` | vrp_solver/solvers/alns_solver.py:334-347 | placing a store keeps every route within capacity and with stops |
| `AlnsRepair.GreedyInputs` | vrp_solver/solvers/alns_solver.py:320-334 | the cheapest candidate names an accepting route, and the vehicle found is compatible |
| `AlnsRepair.GreedyDropsOnlyUnplaceable` | vrp_solver/solvers/alns_solver.py:334-347 | greedy insertion drops a store exactly when no vehicle is compatible and no route accepts it |
| `AlnsRepair.GreedyStepServes` | vrp_solver/solvers/alns_solver.py:314-347 | each store is either served once more or recorded as dropped |
| `AlnsRepair.GreedyAllServes` | vrp_solver/solvers/alns_solver.py:312-349 | the routes after greedy insertion and the stores it dropped account for the stores served before plus the stores to insert |
| `AlnsRepair.GreedyAllKeepsRoutes` | vrp_solver/solvers/alns_solver.py:312-349 | greedy insertion keeps every route within capacity and with stops |
| `AlnsRepair.ChoiceOfFacts` | vrp_solver/solvers/alns_solver.py:366-385 | a store has a case exactly when it has at least k candidates; the regret is non-negative and the case inserts at the first cheapest candidate |
| `AlnsRepair.ChoiceForSome` | vrp_solver/solvers/alns_solver.py:374 | each uninserted store has a case exactly when it has at least k candidates |
| `AlnsRepair.BestChoiceExists` | vrp_solver/solvers/alns_solver.py:362-385 | there is a best case exactly when some uninserted store has k candidates |
| `AlnsRepair.BestChoiceFrom` | vrp_solver/solvers/alns_solver.py:362-385 | the best case is the case of an uninserted store, at one of its candidates |
| `AlnsRepair.BestChoiceIsMaxRegret` | vrp_solver/solvers/alns_solver.py:381-385 | no uninserted store has a larger regret than the best case |
| `AlnsRepair.RegretPickTakes` | vrp_solver/solvers/alns_solver.py:388-402 | the store a pass takes off is on the list |
| `AlnsRepair.PickServes` | vrp_solver/solvers/alns_solver.py:388-402 | a pass serves the store it takes once more, unless it gives it up |
| `AlnsRepair.IdsOfRemoveFirst` | vrp_solver/solvers/alns_solver.py:390 | `uninserted.remove(s)` takes exactly one occurrence of its id off the list |
| `AlnsRepair.AccountedMove` | vrp_solver/solvers/alns_solver.py:388-402 | taking a store off the list while serving or dropping it keeps every store accounted for |
| `AlnsRepair.RegretNextServes` | vrp_solver/solvers/alns_solver.py:355-402 | each pass removes one store from the list and keeps every store accounted for |
| `AlnsRepair.PickKeepsRoutes` | vrp_solver/solvers/alns_solver.py:388-402 | a pass keeps every route within capacity and with stops |
| `AlnsRepair.RegretAllEmpties` | vrp_solver/solvers/alns_solver.py:355 | as many passes as stores empty the list, so the `while uninserted` loop ends |
| `AlnsRepair.RegretAllServes` | vrp_solver/solvers/alns_solver.py:351-402 | the routes after regret insertion and the stores it gave up account for the stores served before plus the stores to insert |
| `AlnsRepair.RegretAllKeepsRoutes` | vrp_solver/solvers/alns_solver.py:351-402 | regret insertion keeps every route within capacity and with stops |
| `AlnsRepair.RegretPickGivesUpOnlyUnplaceable` | vrp_solver/solvers/alns_solver.py:388-402 | a pass gives up a store exactly when no store has k candidates and no vehicle serves the first store; with a best case it takes that case's store |
| `AlnsRepair.KeptRoutesServe` | vrp_solver/solvers/alns_solver.py:291 | dropping the empty routes keeps every store served, in order |
| `AlnsRepair.KeptRoutesFrom` | vrp_solver/solvers/alns_solver.py:291 | every kept route has a stop, and capacity holds when it did before |
| `AlnsRepair.KeptRoutesKept` | vrp_solver/solvers/alns_solver.py:291 | dropping the empty routes again changes nothing |
| `AlnsRepair.KeptAllNonEmpty` | vrp_solver/solvers/alns_solver.py:291 | when no route is empty, all routes are kept |
| `AlnsRepair.Repaired` | vrp_solver/solvers/alns_solver.py:286-310 | the repaired solution is for the day and lists no unserved store |
| `AlnsRepair.RepairedAccounts` | vrp_solver/solvers/alns_solver.py:286-310 | the repaired routes and the stores given up account for every store served plus every store removed |
| `AlnsRepair.RepairedSound` | vrp_solver/solvers/alns_solver.py:286-310 | every repaired route is within capacity and has a stop |
| `AlnsRepair.SlotAt` | vrp_solver/solvers/alns_solver.py:326 | the candidate at a position is that position's insertion cost |
| `AlnsRepair.ConsiderSlot` | vrp_solver/solvers/alns_solver.py:328-331 | `if cost < best_cost` keeps the first cheapest candidate |
| `AlnsRepair.ScanRouteSlots` | vrp_solver/solvers/alns_solver.py:320-331 | the scan of one route continues the running minimum |
| `AlnsRepair.FindBestSlot` | vrp_solver/solvers/alns_solver.py:315-331 | the loops find the best candidate of the definition |
| `AlnsRepair.GreedyInsertOne` | vrp_solver/solvers/alns_solver.py:315-347 | one store's body places or drops it as the definition says |
| `AlnsRepair.GreedyInsertion` | vrp_solver/solvers/alns_solver.py:312-349 | `_greedy_insertion` returns the routes of the definition |
| `AlnsRepair.RouteCandidates` | vrp_solver/solvers/alns_solver.py:366-372 | the positions one route offers are its candidates |
| `AlnsRepair.CollectSlots` | vrp_solver/solvers/alns_solver.py:364-372 | the `costs` list holds every candidate, route by route |
| `AlnsRepair.StoreChoice` | vrp_solver/solvers/alns_solver.py:364-379 | a store's case is the one of the definition |
| `AlnsRepair.StoreChoiceBy` | vrp_solver/solvers/alns_solver.py:364-379 | the case comes from the case function |
| `AlnsRepair.Consider` | vrp_solver/solvers/alns_solver.py:381-385 | `if regret > max_regret` keeps the first case of largest regret |
| `AlnsRepair.ScanChoice` | vrp_solver/solvers/alns_solver.py:362-385 | one store of the scan extends the running maximum |
| `AlnsRepair.ScanChoices` | vrp_solver/solvers/alns_solver.py:362-385 | the scan over the uninserted stores finds the first case of largest regret |
| `AlnsRepair.FindBestChoice` | vrp_solver/solvers/alns_solver.py:356-385 | the scan finds the best case of the definition |
| `AlnsRepair.RegretRound` | vrp_solver/solvers/alns_solver.py:356-402 | one pass of the loop is the regret step |
| `AlnsRepair.RegretPasses` | vrp_solver/solvers/alns_solver.py:355-402 | the `while uninserted` loop runs the step until the list is empty |
| `AlnsRepair.RegretInsertion` | vrp_solver/solvers/alns_solver.py:351-402 | `_regret_insertion` returns the routes of the definition |
| `AlnsRepair.DropEmptyRoutes` | vrp_solver/solvers/alns_solver.py:291 | the filter keeps exactly the routes with stops |
| `AlnsRepair.InsertRemoved` | vrp_solver/solvers/alns_solver.py:293-300 | the dispatch on "greedy", "regret2" and "regret3" |
| `AlnsRepair.DepartAll` | vrp_solver/solvers/alns_solver.py:303-305 | every route leaves at the start time with refreshed metrics |
| `AlnsRepair.ApplyRepair` | vrp_solver/solvers/alns_solver.py:286-310 | `_apply_repair` returns the solution of the definition |
| `MultiDay.DayNumber` | vrp_solver/consolidation/multiday_optimizer.py:20 | a day's position in `WEEKDAYS` is below 5 exactly for the five weekdays, and names that day |
| `MultiDay.DayNumberOf` | vrp_solver/consolidation/multiday_optimizer.py:20 | each weekday sits at its own position |
| `MultiDay.AllowedAmongExact` | vrp_solver/consolidation/multiday_optimizer.py:91 | the filtered list holds exactly the listed days the store allows |
| `MultiDay.AllowedAmongOrdered` | vrp_solver/consolidation/multiday_optimizer.py:91 | filtering keeps the calendar order |
| `MultiDay.WeekdaysInOrder` | vrp_solver/consolidation/multiday_optimizer.py:20 | `WEEKDAYS` runs Monday to Friday without repetition |
| `MultiDay.AvailableDaysExact` | vrp_solver/consolidation/multiday_optimizer.py:91 | `available_days` lists, in calendar order, exactly the weekdays the store allows |
| `MultiDay.WindowsByDayExact` | vrp_solver/consolidation/multiday_optimizer.py:94-98 | `time_windows` holds exactly the available days that have a window, each with its window |
| `MultiDay.CollectWindows` | vrp_solver/consolidation/multiday_optimizer.py:94-98 | the loop builds that dictionary |
| `MultiDay.IndexOfId` | vrp_solver/consolidation/multiday_optimizer.py:100 | the position found holds the id; none means no entry has it |
| `MultiDay.PutKeeps` | vrp_solver/consolidation/multiday_optimizer.py:100-106 | `weekly_demand[store.id] = ...` keeps the ids distinct, adds the id once and keeps every other record |
| `MultiDay.KeyedEntries` | vrp_solver/consolidation/multiday_optimizer.py:84-108 | one record per distinct id, each a record that was assigned |
| `MultiDay.WeeklyDemandEntries` | vrp_solver/consolidation/multiday_optimizer.py:79-108 | `weekly_demand` has exactly one record per store id, at most one per store, each made from its store |
| `MultiDay.KeyedStep` | vrp_solver/consolidation/multiday_optimizer.py:86-106 | after one more store the dictionary is the previous one with that store's record assigned |
| `MultiDay.AggregateWeeklyDemand` | vrp_solver/consolidation/multiday_optimizer.py:79-108 | the loop builds the `weekly_demand` dictionary of the definition |
| `MultiDay.MaxCapacity` | vrp_solver/consolidation/multiday_optimizer.py:134 | `max(v.capacity_cbm for v in vehicles)` is one vehicle's capacity and at least every other |
| `MultiDay.ScoredFrom` | vrp_solver/consolidation/multiday_optimizer.py:161-180 | every entry of `scores` is an available day with its score |
| `MultiDay.ScoredExact` | vrp_solver/consolidation/multiday_optimizer.py:161-180 | `scores` holds exactly the days not skipped, each with its score, in the days' order |
| `MultiDay.ScoredNone` | vrp_solver/consolidation/multiday_optimizer.py:183-186 | `scores` is empty exactly when every day is skipped |
| `MultiDay.HighestOfScored` | vrp_solver/consolidation/multiday_optimizer.py:183-184 | `max(scores.items(), key=...)` returns a scored day of highest score, the first such in order |
| `MultiDay.FirstMinAt` | vrp_solver/consolidation/multiday_optimizer.py:184 | the first maximum is at least every score and beats every earlier one |
| `MultiDay.BestSingleDayIsArgmax` | vrp_solver/consolidation/multiday_optimizer.py:155-186 | the single day chosen is an available day of highest score (1000 − load, +500 preferred, + window minutes), the earliest such; there is one exactly when some day is available |
| `MultiDay.FindBestSingleDay` | vrp_solver/consolidation/multiday_optimizer.py:155-186 | `_find_best_single_day` returns the day of the definition |
| `MultiDay.NearestWithin` | vrp_solver/consolidation/multiday_optimizer.py:226-232 | the nearest same-day store is under the bound exactly when some known distance is |
| `MultiDay.MinDistance` | vrp_solver/consolidation/multiday_optimizer.py:226-229 | the `min_dist` loop finds the nearest known distance, infinity (none) when no distance is known |
| `MultiDay.BestConsolidationDayChoice` | vrp_solver/consolidation/multiday_optimizer.py:188-241 | the consolidation day is an available day, there is one exactly when some day is available; a day that would overload the fleet is chosen only when every day would, and then it is the first; otherwise it is a fitting day of highest score, the earliest such |
| `MultiDay.ScoreConsolidationDay` | vrp_solver/consolidation/multiday_optimizer.py:199-234 | one pass of the scoring loop: skip an overloading day, else +200 loaded, +300 under 70% of fleet capacity, +500 preferred, +400 when a same-day store is within 10 km |
| `MultiDay.FindBestConsolidationDay` | vrp_solver/consolidation/multiday_optimizer.py:188-241 | `_find_best_consolidation_day` returns the day of the definition |
| `MultiDay.EmptyBuckets` | vrp_solver/consolidation/multiday_optimizer.py:119-120 | the dictionaries start on exactly the five weekdays |
| `MultiDay.ChosenDayAvailable` | vrp_solver/consolidation/multiday_optimizer.py:137-151 | whichever scorer the threshold selects picks a day exactly when the store has an available day, and picks one of them |
| `MultiDay.Appended` | vrp_solver/consolidation/multiday_optimizer.py:143-144 | appending keeps both dictionaries on the weekdays |
| `MultiDay.Place` | vrp_solver/consolidation/multiday_optimizer.py:125-151 | one pass keeps both dictionaries on the weekdays |
| `MultiDay.AppendedOnce` | vrp_solver/consolidation/multiday_optimizer.py:143 | appending a store to a weekday adds it to the week's stores exactly once |
| `MultiDay.AppendedKeeps` | vrp_solver/consolidation/multiday_optimizer.py:143-144 | appending a store to a day it allows keeps each day's load equal to its stores' demand and adds the store once |
| `MultiDay.PlaceKeeps` | vrp_solver/consolidation/multiday_optimizer.py:125-151 | one pass fails exactly when the store has an available day and the fleet is empty or has no capacity, with that error; otherwise it keeps the invariant and puts the store on one day when it has an available day |
| `MultiDay.EmptyConsistent` | vrp_solver/consolidation/multiday_optimizer.py:119-120 | the loop starts with no store and every load 0 |
| `MultiDay.Assigned` | vrp_solver/consolidation/multiday_optimizer.py:125-151 | the fold keeps both dictionaries on the weekdays |
| `MultiDay.AssignedAccounts` | vrp_solver/consolidation/multiday_optimizer.py:119-153 | the loop fails exactly when some store needs a day and the fleet is empty or has no capacity; otherwise every load is its stores' demand, every store is on a day it allows, and the stores assigned are exactly the stores of the records with an available day |
| `MultiDay.ProcessedByDemand` | vrp_solver/consolidation/multiday_optimizer.py:123 | the records are processed in non-increasing order of demand, each exactly once |
| `MultiDay.AssignmentsOf` | vrp_solver/consolidation/multiday_optimizer.py:110-153 | a successful assignment has exactly the five weekdays as keys |
| `MultiDay.PlaceStore` | vrp_solver/consolidation/multiday_optimizer.py:126-151 | the loop body places the record as the definition says |
| `MultiDay.ByDemandWeekdays` | vrp_solver/consolidation/multiday_optimizer.py:123 | sorting keeps every record's days on weekdays |
| `MultiDay.PlaceNext` | vrp_solver/consolidation/multiday_optimizer.py:125-151 | the loop body applied to the next record extends the fold by that record |
| `MultiDay.AssignStoresToDays` | vrp_solver/consolidation/multiday_optimizer.py:110-153 | `_assign_stores_to_days` returns the dictionary of the definition, or the error it raises |
| `MultiDay.AssignInOrder` | vrp_solver/consolidation/multiday_optimizer.py:125-151 | the loop over the sorted records computes the fold |
| `MultiDay.AssignedStep` | vrp_solver/consolidation/multiday_optimizer.py:125-151 | once raised the error is kept; otherwise the next record is placed |
| `MultiDay.AssignedFailureSticks` | vrp_solver/consolidation/multiday_optimizer.py:134-137 | after a raise the later records do not matter |
| `MultiDay.WeeklyRecorded` | vrp_solver/consolidation/multiday_optimizer.py:86-106 | every record's demand is its store's and its days are weekdays the store allows |
| `MultiDay.WeekAssignments` | vrp_solver/consolidation/multiday_optimizer.py:52-55 | a successful assignment has exactly the five weekdays as keys |
| `MultiDay.ByDemandPlaced` | vrp_solver/consolidation/multiday_optimizer.py:123-131 | nothing is placed exactly when no record has an available day, and every store placed comes from a record |
| `MultiDay.NothingPlaced` | vrp_solver/consolidation/multiday_optimizer.py:130-131 | no store is placed exactly when every record has no available day |
| `MultiDay.SortedRecords` | vrp_solver/consolidation/multiday_optimizer.py:79-131 | the sorted records are well formed, the stores placed come from the input, and there are no more of them than records and no more records than stores |
| `MultiDay.WeekAssignmentsFold` | vrp_solver/consolidation/multiday_optimizer.py:52-55 | steps 1 and 2 are the loop's fold over the records sorted by demand |
| `MultiDay.WeekAssignmentsAccount` | vrp_solver/consolidation/multiday_optimizer.py:52-55 | the week fails exactly when some store needs a day and the fleet is empty or has no capacity; otherwise each store on a day allows it and comes from the input, and the assigned stores are exactly those with an available day |
| `MultiDay.AllAssignedHas` | vrp_solver/consolidation/multiday_optimizer.py:246 | a store on some day is among all the assigned stores |
| `MultiDay.PercentBounds` | vrp_solver/consolidation/multiday_optimizer.py:255-260 | a part of a whole gives a percentage between 0 and 100 |
| `MultiDay.MultiDayCountBounds` | vrp_solver/consolidation/multiday_optimizer.py:249-253 | the multi-day count lies between 0 and the number of records |
| `MultiDay.PerDayCounts` | vrp_solver/consolidation/multiday_optimizer.py:262-270 | `stores_per_day` follows the weekdays and its counts add up to `stores_assigned` |
| `MultiDay.StatsBounds` | vrp_solver/consolidation/multiday_optimizer.py:243-270 | one baseline trip per record, one optimised trip per assigned store, both percentages in [0, 100], and no trip reduction exactly when every record was assigned |
| `MultiDay.StatsOfWeek` | vrp_solver/consolidation/multiday_optimizer.py:243-270 | for a successful week the optimised trips are the stores with an available day, at most the records; both percentages lie in [0, 100]; the per-day counts add up to the stores assigned |
| `MultiDay.PlannedDaysExact` | vrp_solver/consolidation/multiday_optimizer.py:60-62 | the days planned are exactly the listed days with stores |
| `MultiDay.PlannedDaysOrdered` | vrp_solver/consolidation/multiday_optimizer.py:60-62 | the days are planned in week order, each at most once |
| `MultiDay.DayPlansExact` | vrp_solver/consolidation/multiday_optimizer.py:60-72 | each planned day holds the solver's solution for that day at its start time, and no other day is present |
| `MultiDay.CalculateConsolidationStats` | vrp_solver/consolidation/multiday_optimizer.py:243-270 | `_calculate_consolidation_stats` returns the statistics of the definition |
| `MultiDay.SolveDays` | vrp_solver/consolidation/multiday_optimizer.py:58-72 | the loop records, in week order, the solver's solution for each weekday with stores, started `day_idx` days after the week's start |
| `MultiDay.PlanStep` | vrp_solver/consolidation/multiday_optimizer.py:60-72 | one more listed day is planned exactly when it has stores |
| `MultiDay.NewPlannedDay` | vrp_solver/consolidation/multiday_optimizer.py:60-68 | the weekday at `k` is not yet planned and starts `k` days after the week |
| `MultiDay.OptimizeWeek` | vrp_solver/consolidation/multiday_optimizer.py:38-77 | `optimize_week` raises what the assignment raises; otherwise it plans each weekday with stores in week order, starting each day's offset from the supplied start instant unchanged, or from 08:00 of the current day when none is supplied, and records the consolidation statistics |

## Left out

- Update in place and aliasing. Routes, stops and solutions are values, so every operation returns the new route, list or dictionary. Python's in-place edits of `Route` objects shared between lists and `copy.deepcopy` have no counterpart; a deep copy is the value itself. Mutable state is modelled as classes only where it outlives a call: `MultiDaySolution` and the ALNS weight tables.
- Dictionary order. Dictionaries whose iteration order matters are sequences in insertion order. These are `weekly_demand`, `scores`, the operator weights, `active_routes` and `daily_solutions`.
- Randomness. `random.uniform`, `random.shuffle`, `random.choice` and `random.random` become parameters:
  - a fraction of the total weight;
  - an order of the stops;
  - an index;
  - one acceptance draw per iteration.
- `math.exp`. It is a function parameter; only `exp(0) = 1` is assumed, and only where a lemma needs it.
- Clock and dates.
  - Datetimes are real minutes since midnight of the planning epoch, and `timedelta(days=k)` adds 1440·k.
  - `datetime.now()` is not modelled: the solvers' default start is 08:00 of day 0. `optimize_week` takes the current time as a parameter.
  - The parsing of "HH:MM" strings in `__post_init__` is not modelled; window bounds are whole minutes.
- Distance formulas. The haversine and Manhattan formulas need trigonometry. They are function parameters of `build_distance_matrix`.
- Floating point. Volumes, distances and minutes are exact reals. The destruction rate 0.3 is the exact fraction 3/10.
- The numpy standard deviation in `get_utilization_stats` is not part of this model, and neither is `calculate_load_balance_penalty`.
- `to_dict`, `__str__`, `__repr__` and the texts of violation messages are not part of this model. Violations are tagged data.
- The OR-Tools solver, the data loaders and the command-line scripts are not part of this model.
- The single-day solver that `optimize_week` calls is a function parameter `solve(day, start)`. The source computes `day_stores` but never passes it to the solver, so the model does not pass it either.
- The `max_iterations` bound of ALNS `solve` (5000 by default) is a parameter `n`.
- `MultiDay.CalculateConsolidationStats`: the two percentages are not rounded to two decimals (`round(..., 2)`).
- `Solutions.MultiDaySolution.ComputeWeeklyMetrics`: the rounding and the per-day breakdown of `compute_weekly_metrics` are not modelled.
- `MultiDay.FindBestSingleDay` requires a load entry for every available day, and so does `MultiDay.FindBestConsolidationDay`. Records built by `_aggregate_weekly_demand` list only weekdays, which always have an entry, so the source's `KeyError` cannot occur.
- `MultiDay.FindBestConsolidationDay` and `MultiDay.ScoreConsolidationDay` also require a non-empty fleet with a non-zero largest capacity. Their only caller has already raised otherwise; `MultiDay.Place` models that error.
- `AlnsDestroy.RemovalSavingIsTourShrink`: for a single-stop route it requires the depot-to-store and store-to-depot entries to be equal. The source doubles the outbound leg rather than summing both legs.
- `AlnsRepair`: regret-k takes any k of at least 1; the solver itself uses 2 and 3.
