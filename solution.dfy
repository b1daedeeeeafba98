/** A day's set of routes with its aggregate metrics, and the week's collection
    of daily solutions (vrp_solver/models/solution.py). A `Solution` is a value:
    `WithMetrics` is the solution with its metric fields filled in. */
module Solutions {
  import opened Common
  import opened Routes
  import Validator

  datatype Solution = Solution(
    routes: seq<Route>,
    day: string,
    unservedStores: seq<string>,
    totalDistanceKm: real,
    totalDurationHours: real,
    totalCost: real,
    numVehiclesUsed: int,
    isFeasible: bool,
    constraintViolations: seq<Validator.Violation>)

  /** `Solution(routes=..., day=..., unserved_stores=...)`: zero metrics, feasible, no violations. */
  function NewSolution(routes: seq<Route>, day: string, unserved: seq<string>): Solution
  {
    Solution(routes, day, unserved, 0.0, 0.0, 0.0, 0, true, [])
  }

  function DistanceSum(routes: seq<Route>): real
  {
    SumOf(routes, (r: Route) => r.totalDistanceKm)
  }

  function MinutesSum(routes: seq<Route>): real
  {
    SumOf(routes, (r: Route) => r.totalDurationMinutes)
  }

  function CostSum(routes: seq<Route>): real
  {
    SumOf(routes, CalculateCost)
  }

  /** `compute_metrics`: one vehicle per route, and the distances, durations (in hours)
      and route costs summed; the routes and every other field are kept. */
  function WithMetrics(s: Solution): (s': Solution)
    ensures s'.numVehiclesUsed == |s.routes|
    ensures s'.routes == s.routes && s'.day == s.day && s'.unservedStores == s.unservedStores
    ensures s'.isFeasible == s.isFeasible && s'.constraintViolations == s.constraintViolations
    ensures s'.totalDistanceKm == DistanceSum(s.routes)
    ensures s'.totalDurationHours * 60.0 == MinutesSum(s.routes)
    ensures s'.totalCost == CostSum(s.routes)
  {
    s.(numVehiclesUsed := |s.routes|, totalDistanceKm := DistanceSum(s.routes),
       totalDurationHours := MinutesSum(s.routes) / 60.0, totalCost := CostSum(s.routes))
  }

  /** The summed cost splits into the vehicles' fixed costs and the cost of the distance driven. */
  lemma {:induction false} CostSumSplits(routes: seq<Route>)
    ensures CostSum(routes)
         == SumOf(routes, (r: Route) => r.vehicle.fixedCost) + SumOf(routes, (r: Route) => r.totalDistanceKm * r.vehicle.costPerKm)
  {
    if routes != [] {
      CostSumSplits(routes[..|routes| - 1]);
    }
  }

  /** With non-negative fixed costs, per-km costs and distances, the total cost is at
      least the sum of the fixed costs and the total distance is non-negative. */
  lemma {:induction false} MetricsNonNegative(routes: seq<Route>)
    requires forall i :: 0 <= i < |routes| ==>
               routes[i].vehicle.fixedCost >= 0.0 && routes[i].vehicle.costPerKm >= 0.0 && routes[i].totalDistanceKm >= 0.0
    ensures DistanceSum(routes) >= 0.0
    ensures CostSum(routes) >= SumOf(routes, (r: Route) => r.vehicle.fixedCost) >= 0.0
  {
    if routes != [] {
      var init := routes[..|routes| - 1];
      assert forall i :: 0 <= i < |init| ==> init[i] == routes[i];
      MetricsNonNegative(init);
      var last := routes[|routes| - 1];
      assert last.totalDistanceKm * last.vehicle.costPerKm >= 0.0;
    }
  }

  /** The totals `compute_metrics` stores: the cost is the fleet's fixed costs plus the cost
      of the distance driven, and with non-negative rates and distances no total is negative. */
  lemma MetricsOfSolution(s: Solution)
    requires forall i :: 0 <= i < |s.routes| ==>
               s.routes[i].vehicle.fixedCost >= 0.0 && s.routes[i].vehicle.costPerKm >= 0.0 && s.routes[i].totalDistanceKm >= 0.0
    ensures var s' := WithMetrics(s);
            && s'.totalCost == SumOf(s.routes, (r: Route) => r.vehicle.fixedCost)
                             + SumOf(s.routes, (r: Route) => r.totalDistanceKm * r.vehicle.costPerKm)
            && s'.totalDistanceKm >= 0.0
            && s'.totalCost >= SumOf(s.routes, (r: Route) => r.vehicle.fixedCost) >= 0.0
  {
    CostSumSplits(s.routes);
    MetricsNonNegative(s.routes);
  }

  /** Every store id served by the routes, route after route. */
  function ServedIds(routes: seq<Route>): seq<string>
  {
    FlatMap(routes, StoreIds)
  }

  lemma ServedIdsSnoc(routes: seq<Route>, r: Route)
    ensures ServedIds(routes + [r]) == ServedIds(routes) + StoreIds(r)
  {
    FlatMapSnoc(routes, r, StoreIds);
  }

  lemma ServedIdsConcat(a: seq<Route>, b: seq<Route>)
    ensures ServedIds(a + b) == ServedIds(a) + ServedIds(b)
  {
    FlatMapConcat(a, b, StoreIds);
  }

  /** `get_total_stores_served`: the number of stops over all routes. */
  function TotalStoresServed(s: Solution): int
  {
    CountOf(s.routes, (r: Route) => |r.stops|)
  }

  /** The stores served are exactly the stops listed route by route. */
  lemma {:induction false} StoresServedCountsServedIds(routes: seq<Route>)
    ensures CountOf(routes, (r: Route) => |r.stops|) == |ServedIds(routes)|
  {
    if routes != [] {
      StoresServedCountsServedIds(routes[..|routes| - 1]);
    }
  }

  /** Load utilization of each route, in route order. */
  function Utilizations(routes: seq<Route>): (u: seq<real>)
    ensures |u| == |routes| && forall i :: 0 <= i < |routes| ==> u[i] == LoadUtilization(routes[i])
  {
    if routes == [] then [] else Utilizations(routes[..|routes| - 1]) + [LoadUtilization(routes[|routes| - 1])]
  }

  /** `get_average_utilization`: the mean route utilization, 0 without routes. */
  function AverageUtilization(s: Solution): (avg: real)
    ensures s.routes == [] ==> avg == 0.0
  {
    if s.routes == [] then 0.0 else SumOf(s.routes, LoadUtilization) / |s.routes| as real
  }

  /** Python's `min(xs)`: the first smallest element. */
  function Min(xs: seq<real>): (m: real)
    requires xs != []
    ensures m in xs && forall i :: 0 <= i < |xs| ==> m <= xs[i]
  {
    if |xs| == 1 then xs[0]
    else
      var m := Min(xs[..|xs| - 1]);
      assert forall i :: 0 <= i < |xs| - 1 ==> xs[..|xs| - 1][i] == xs[i];
      if xs[|xs| - 1] < m then xs[|xs| - 1] else m
  }

  /** Python's `max(xs)`: the first largest element. */
  function Max(xs: seq<real>): (m: real)
    requires xs != []
    ensures m in xs && forall i :: 0 <= i < |xs| ==> m >= xs[i]
  {
    if |xs| == 1 then xs[0]
    else
      var m := Max(xs[..|xs| - 1]);
      assert forall i :: 0 <= i < |xs| - 1 ==> xs[..|xs| - 1][i] == xs[i];
      if xs[|xs| - 1] > m then xs[|xs| - 1] else m
  }

  /** The minimum, maximum and mean of `get_utilization_stats`. */
  datatype UtilizationStats = UtilizationStats(min: real, max: real, avg: real)

  /** `get_utilization_stats` without the standard deviation: all zero without routes,
      else the smallest, largest and mean route utilization. */
  function GetUtilizationStats(s: Solution): (st: UtilizationStats)
    ensures s.routes == [] ==> st == UtilizationStats(0.0, 0.0, 0.0)
    ensures s.routes != [] ==>
              && st.min in Utilizations(s.routes) && st.max in Utilizations(s.routes)
              && (forall i :: 0 <= i < |s.routes| ==> st.min <= LoadUtilization(s.routes[i]) <= st.max)
  {
    if s.routes == [] then UtilizationStats(0.0, 0.0, 0.0)
    else
      var u := Utilizations(s.routes);
      UtilizationStats(Min(u), Max(u), AverageUtilization(s))
  }

  /** The mean utilization lies between the smallest and the largest one. */
  lemma {:induction false} AverageWithinMinMax(s: Solution)
    requires s.routes != []
    ensures var st := GetUtilizationStats(s); st.min <= st.avg <= st.max
  {
    var st := GetUtilizationStats(s);
    assert st.avg == SumOf(s.routes, LoadUtilization) / |s.routes| as real;
    MeanOfBounds(s.routes, LoadUtilization, st.min, st.max);
  }

  /** When every route has a positive capacity that its load respects, the mean
      utilization is at most 100 percent. */
  lemma {:induction false} AverageAtMostFull(s: Solution)
    requires forall i :: 0 <= i < |s.routes| ==> s.routes[i].vehicle.capacityCbm > 0.0 && IsValidCapacity(s.routes[i])
    ensures AverageUtilization(s) <= 100.0
  {
    if s.routes != [] {
      var st := GetUtilizationStats(s);
      forall i | 0 <= i < |s.routes| ensures LoadUtilization(s.routes[i]) <= 100.0 {
        UtilizationWithinCapacity(s.routes[i]);
      }
      AverageWithinMinMax(s);
      var k :| 0 <= k < |s.routes| && Utilizations(s.routes)[k] == st.max;
      assert st.max <= 100.0;
    }
  }

  /** The week's totals reported by `compute_weekly_metrics`. */
  datatype WeeklyMetrics = WeeklyMetrics(totalDistanceKm: real, totalVehiclesUsed: int, totalCost: real, totalStoresServed: int)

  /** The weekly totals over a list of daily solutions. */
  function WeeklyOf(sols: seq<Solution>): WeeklyMetrics
  {
    WeeklyMetrics(SumOf(sols, (s: Solution) => s.totalDistanceKm),
                  CountOf(sols, (s: Solution) => s.numVehiclesUsed),
                  SumOf(sols, (s: Solution) => s.totalCost),
                  CountOf(sols, TotalStoresServed))
  }

  /** The daily solutions in the order their days were first added. */
  function DayValues(days: seq<string>, daily: map<string, Solution>): (sols: seq<Solution>)
    requires forall d :: d in days ==> d in daily
    ensures |sols| == |days| && forall i :: 0 <= i < |days| ==> sols[i] == daily[days[i]]
  {
    if days == [] then [] else DayValues(days[..|days| - 1], daily) + [daily[days[|days| - 1]]]
  }

  /** The statistics `_calculate_consolidation_stats` attaches to a week's plan. */
  datatype ConsolidationStats = ConsolidationStats(
    totalStores: int,
    storesAssigned: int,
    consolidationRatePercent: real,
    baselineTrips: int,
    optimizedTrips: int,
    tripReductionPercent: real,
    storesPerDay: seq<(string, int)>)

  /** `MultiDaySolution`: a dictionary from day to solution, kept here as a map plus the
      order in which days were first inserted (the order Python iterates a dict in). */
  class MultiDaySolution {
    var dailySolutions: map<string, Solution>
    var days: seq<string>
    var consolidationStats: Option<ConsolidationStats>

    ghost predicate Valid()
      reads this
    {
      && (forall d :: d in dailySolutions <==> d in days)
      && (forall i, j :: 0 <= i < j < |days| ==> days[i] != days[j])
    }

    constructor ()
      ensures Valid() && dailySolutions == map[] && days == [] && consolidationStats == None
    {
      dailySolutions := map[];
      days := [];
      consolidationStats := None;
    }

    /** `add_day_solution`: sets the entry for `day`; a new day goes last in the order. */
    method AddDaySolution(day: string, solution: Solution)
      requires Valid()
      modifies this
      ensures Valid()
      ensures dailySolutions == old(dailySolutions)[day := solution]
      ensures days == if day in old(dailySolutions) then old(days) else old(days) + [day]
      ensures consolidationStats == old(consolidationStats)
    {
      if day !in dailySolutions {
        days := days + [day];
      }
      dailySolutions := dailySolutions[day := solution];
    }

    /** `compute_weekly_metrics` (the rounding and the per-day breakdown are not modelled). */
    function ComputeWeeklyMetrics(): WeeklyMetrics
      requires Valid()
      reads this
    {
      WeeklyOf(DayValues(days, dailySolutions))
    }
  }

  /** Adding a day that was not yet planned adds that day's totals to the week's. */
  lemma {:induction false} WeeklyAfterNewDay(days: seq<string>, daily: map<string, Solution>, day: string, s: Solution)
    requires forall d :: d in days ==> d in daily
    requires day !in days
    ensures var w, w' := WeeklyOf(DayValues(days, daily)), WeeklyOf(DayValues(days + [day], daily[day := s]));
            && w'.totalDistanceKm == w.totalDistanceKm + s.totalDistanceKm
            && w'.totalVehiclesUsed == w.totalVehiclesUsed + s.numVehiclesUsed
            && w'.totalCost == w.totalCost + s.totalCost
            && w'.totalStoresServed == w.totalStoresServed + TotalStoresServed(s)
  {
    var before := DayValues(days, daily);
    var after := DayValues(days + [day], daily[day := s]);
    assert after == before + [s];
    SumOfConcat(before, [s], (x: Solution) => x.totalDistanceKm);
    SumOfConcat(before, [s], (x: Solution) => x.totalCost);
    CountOfConcat(before, [s], (x: Solution) => x.numVehiclesUsed);
    CountOfConcat(before, [s], TotalStoresServed);
    assert [s][..0] == [];
  }

  /** Replacing a planned day's solution swaps its totals for the new solution's. */
  lemma {:induction false} WeeklyAfterReplacedDay(days: seq<string>, daily: map<string, Solution>, k: nat, s: Solution)
    requires forall d :: d in days ==> d in daily
    requires forall i, j :: 0 <= i < j < |days| ==> days[i] != days[j]
    requires k < |days|
    ensures var w, w' := WeeklyOf(DayValues(days, daily)), WeeklyOf(DayValues(days, daily[days[k] := s]));
            var old_ := daily[days[k]];
            && w'.totalDistanceKm == w.totalDistanceKm - old_.totalDistanceKm + s.totalDistanceKm
            && w'.totalVehiclesUsed == w.totalVehiclesUsed - old_.numVehiclesUsed + s.numVehiclesUsed
            && w'.totalCost == w.totalCost - old_.totalCost + s.totalCost
            && w'.totalStoresServed == w.totalStoresServed - TotalStoresServed(old_) + TotalStoresServed(s)
  {
    var before := DayValues(days, daily);
    var after := DayValues(days, daily[days[k] := s]);
    assert after == before[k := s];
    SumOfUpdate(before, k, s, (x: Solution) => x.totalDistanceKm);
    SumOfUpdate(before, k, s, (x: Solution) => x.totalCost);
    CountOfUpdate(before, k, s, (x: Solution) => x.numVehiclesUsed);
    CountOfUpdate(before, k, s, TotalStoresServed);
  }
}
