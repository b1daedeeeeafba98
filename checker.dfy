/** Quick feasibility checks used while routes are built
    (vrp_solver/constraints/checker.py). */
module Checker {
  import opened Common
  import opened TimeWindows
  import opened Stores
  import opened Vehicles
  import opened Routes
  import opened Distance

  /** The depot id the checker and the validator use, whatever the solver's own depot id is. */
  const DepotId: string := "depot"

  /** Why a store cannot join a route; `Ok` when it can. */
  datatype Reason = Ok | ExceedsCapacity | FleetRestriction | DayNotAvailable(day: string) | NoTimeWindow(day: string)

  /** `can_add_store_to_route`: capacity, then fleet restriction, then excluded day,
      then the existence of a window for the day; the first failing test gives the reason. */
  function CanAddStoreToRoute(route: Route, store: Store, day: string): (res: (bool, Reason))
    ensures res.0 <==> res.1 == Ok
    ensures res.0 <==> && route.vehicle.CanFitDemand(store.demandCbm, route.totalLoadCbm)
                       && route.vehicle.CanServeStore(store.id)
                       && store.IsDayAllowed(day)
                       && store.GetTimeWindowForDay(Some(day)).Some?
    ensures res.1 == ExceedsCapacity <==> route.totalLoadCbm + store.demandCbm > route.vehicle.capacityCbm
    ensures res.1 == FleetRestriction <==>
              route.totalLoadCbm + store.demandCbm <= route.vehicle.capacityCbm && !route.vehicle.CanServeStore(store.id)
    ensures res.1 == DayNotAvailable(day) <==>
              && route.totalLoadCbm + store.demandCbm <= route.vehicle.capacityCbm && route.vehicle.CanServeStore(store.id)
              && !store.IsDayAllowed(day)
    ensures res.1 == NoTimeWindow(day) <==>
              && route.totalLoadCbm + store.demandCbm <= route.vehicle.capacityCbm && route.vehicle.CanServeStore(store.id)
              && store.IsDayAllowed(day) && store.GetTimeWindowForDay(Some(day)).None?
    ensures res.1 in {Ok, ExceedsCapacity, FleetRestriction, DayNotAvailable(day), NoTimeWindow(day)}
  {
    if route.totalLoadCbm + store.demandCbm > route.vehicle.capacityCbm then (false, ExceedsCapacity)
    else if !route.vehicle.CanServeStore(store.id) then (false, FleetRestriction)
    else if !store.IsDayAllowed(day) then (false, DayNotAvailable(day))
    else if store.GetTimeWindowForDay(Some(day)).None? then (false, NoTimeWindow(day))
    else (true, Ok)
  }

  /** `is_time_feasible`: an arrival before the window opens is feasible (the driver waits,
      and forbidden intervals are then not consulted); one after it closes is not; otherwise,
      and when the store has no window for the day, the arrival must avoid every forbidden interval. */
  function IsTimeFeasible(arrival: Clock, store: Store, day: string): (ok: bool)
  {
    match store.GetTimeWindowForDay(Some(day))
    case Some(w) =>
      if !w.Contains(arrival) then arrival < w.earliest as real
      else !store.HasForbiddenConflict(arrival)
    case None => !store.HasForbiddenConflict(arrival)
  }

  /** The cases of `is_time_feasible`, stated against the store's restrictions. */
  lemma TimeFeasibleCases(arrival: Clock, store: Store, day: string)
    ensures var w := store.GetTimeWindowForDay(Some(day));
            && (w.Some? && arrival < w.value.earliest as real ==> IsTimeFeasible(arrival, store, day))
            && ((w.Some? && w.value.earliest <= w.value.latest && arrival > w.value.latest as real) ==>
                  !IsTimeFeasible(arrival, store, day))
            && ((w.None? || w.value.Contains(arrival)) ==>
                  (IsTimeFeasible(arrival, store, day) <==>
                   forall i :: 0 <= i < |store.forbiddenIntervals| ==> !store.forbiddenIntervals[i].ConflictsWith(arrival)))
  {
    ForbiddenConflictMeansSomeInterval(store.forbiddenIntervals, arrival);
  }

  /** Python's `stops[i]` for an index that may count from the end. */
  function PyIndex(len: nat, i: int): int
  {
    if i < 0 then len + i else i
  }

  /** `calculate_insertion_cost`: the distance added by inserting `store` before `position`.
      A negative position reads the stops from the end, as Python indexing does; one too
      negative for the list raises IndexError, the `None` result. */
  function CalculateInsertionCost(route: Route, store: Store, position: int, dm: Matrix): (cost: Option<real>)
    ensures cost.None? <==> |route.stops| > 0 && position < 1 - |route.stops|
  {
    var n := |route.stops|;
    if n == 0 then
      Some(Get(dm, DepotId, store.id) + Get(dm, store.id, DepotId))
    else if position == 0 then
      var first := route.stops[0].store.id;
      Some(Get(dm, DepotId, store.id) + Get(dm, store.id, first) - Get(dm, DepotId, first))
    else if position >= n then
      var last := route.stops[n - 1].store.id;
      Some(Get(dm, last, store.id) + Get(dm, store.id, DepotId) - Get(dm, last, DepotId))
    else if position < 1 - n then None
    else
      var prev := route.stops[PyIndex(n, position - 1)].store.id;
      var next := route.stops[PyIndex(n, position)].store.id;
      Some(Get(dm, prev, store.id) + Get(dm, store.id, next) - Get(dm, prev, next))
  }

  /** Legs of a tour with one location inserted at k, against the legs of the original tour. */
  lemma LegsInsert(ids: seq<string>, k: nat, x: string, m: Matrix)
    requires 0 < k < |ids|
    ensures Legs(InsertAt(ids, k, x), m)
         == Legs(ids, m) - Get(m, ids[k - 1], ids[k]) + Get(m, ids[k - 1], x) + Get(m, x, ids[k])
  {
    var a, b := ids[..k], ids[k..];
    assert ids == a + b;
    assert InsertAt(ids, k, x) == (a + [x]) + b;
    LegsConcat(a, b, m);
    LegsConcat(a + [x], b, m);
    LegsConcat(a, [x], m);
  }

  /** Inserting at the front of a non-empty tour replaces the depot's first leg. */
  lemma GrowthAtFront(ids: seq<string>, x: string, dm: Matrix, depot: string)
    requires |ids| > 0
    ensures RouteDistance(InsertAt(ids, 0, x), dm, depot) - RouteDistance(ids, dm, depot)
         == Get(dm, depot, x) + Get(dm, x, ids[0]) - Get(dm, depot, ids[0])
  {
    assert InsertAt(ids, 0, x) == [x] + ids;
    LegsConcat([x], ids, dm);
  }

  /** Appending to a non-empty tour replaces the last leg back to the depot. */
  lemma GrowthAtBack(ids: seq<string>, x: string, dm: Matrix, depot: string)
    requires |ids| > 0
    ensures RouteDistance(InsertAt(ids, |ids|, x), dm, depot) - RouteDistance(ids, dm, depot)
         == Get(dm, ids[|ids| - 1], x) + Get(dm, x, depot) - Get(dm, ids[|ids| - 1], depot)
  {
    assert InsertAt(ids, |ids|, x) == ids + [x];
    LegsConcat(ids, [x], dm);
  }

  /** Inserting strictly inside a tour replaces one leg by two. */
  lemma GrowthInside(ids: seq<string>, k: nat, x: string, dm: Matrix, depot: string)
    requires 0 < k < |ids|
    ensures RouteDistance(InsertAt(ids, k, x), dm, depot) - RouteDistance(ids, dm, depot)
         == Get(dm, ids[k - 1], x) + Get(dm, x, ids[k]) - Get(dm, ids[k - 1], ids[k])
  {
    var ins := InsertAt(ids, k, x);
    LegsInsert(ids, k, x, dm);
    assert ins[0] == ids[0] && ins[|ins| - 1] == ids[|ids| - 1];
  }

  /** The insertion cost is the growth of the closed tour's length when the store is
      inserted where `list.insert(position, ...)` would put it, whenever the cost is defined. */
  lemma InsertionCostIsTourGrowth(route: Route, store: Store, position: int, dm: Matrix)
    requires CalculateInsertionCost(route, store, position, dm).Some?
    ensures var ids := StoreIds(route);
            (CalculateInsertionCost(route, store, position, dm).value
             == RouteDistance(InsertAt(ids, InsertIndex(|ids|, position), store.id), dm, DepotId)
              - RouteDistance(ids, dm, DepotId))
  {
    var ids := StoreIds(route);
    var n := |ids|;
    var k := InsertIndex(n, position);
    if n == 0 {
      assert InsertAt(ids, k, store.id) == [store.id];
    } else if k == 0 {
      GrowthAtFront(ids, store.id, dm, DepotId);
    } else if k == n {
      GrowthAtBack(ids, store.id, dm, DepotId);
    } else {
      assert PyIndex(n, position - 1) == k - 1 && PyIndex(n, position) == k;
      GrowthInside(ids, k, store.id, dm, DepotId);
    }
  }
}
