/** What every solver shares (vrp_solver/solvers/base_solver.py): the problem data,
    route length and travel time over the solver's own depot id, the refresh of a
    route's distance and duration, and the assembly of a solution. */
module BaseSolver {
  import opened Common
  import opened Stores
  import opened Vehicles
  import opened Routes
  import opened Distance
  import opened Solutions

  /** Average speed assumed when the solver has no time matrix, in km/h. */
  const EstimatedSpeedKmh: real := 40.0

  /** The data a solver is built with. */
  datatype SolverContext = SolverContext(
    stores: seq<Store>,
    vehicles: seq<Vehicle>,
    distanceMatrix: Matrix,
    timeMatrix: Matrix,
    depotId: string)

  /** `BaseSolver.__init__`: a missing time matrix becomes an empty one. */
  function NewContext(stores: seq<Store>, vehicles: seq<Vehicle>, dm: Matrix, tm: Option<Matrix>, depotId: string): (ctx: SolverContext)
    ensures tm.None? ==> ctx.timeMatrix == map[]
  {
    SolverContext(stores, vehicles, dm, if tm.Some? then tm.value else map[], depotId)
  }

  /** `_calculate_route_distance`: the tour length through the route's stores, from and
      back to the solver's depot. */
  method CalculateRouteDistance(ctx: SolverContext, route: Route) returns (d: real)
    ensures d == RouteDistance(StoreIds(route), ctx.distanceMatrix, ctx.depotId)
    ensures route.stops == [] ==> d == 0.0
  {
    d := Distance.CalculateRouteDistance(StoreIds(route), ctx.distanceMatrix, ctx.depotId);
  }

  /** `_calculate_route_time`: the same tour summed over the time matrix, and 0 for an
      empty route or an empty time matrix. */
  function RouteTime(ctx: SolverContext, route: Route): real
  {
    if route.stops == [] || ctx.timeMatrix == map[] then 0.0
    else RouteDistance(StoreIds(route), ctx.timeMatrix, ctx.depotId)
  }

  method CalculateRouteTime(ctx: SolverContext, route: Route) returns (t: real)
    ensures t == RouteTime(ctx, route)
    ensures route.stops == [] || ctx.timeMatrix == map[] ==> t == 0.0
  {
    if route.stops == [] || ctx.timeMatrix == map[] {
      return 0.0;
    }
    t := Distance.CalculateRouteDistance(StoreIds(route), ctx.timeMatrix, ctx.depotId);
  }

  /** When the time matrix is the distance matrix converted at some speed, the route's
      travel time is its length driven at that speed. */
  lemma TravelTimeIsDistanceAtSpeed(ctx: SolverContext, route: Route, speedKmh: real)
    requires speedKmh != 0.0 && route.stops != []
    requires ctx.timeMatrix == TimeMatrixOf(ctx.distanceMatrix, speedKmh) != map[]
    ensures RouteTime(ctx, route) == Minutes(RouteDistance(StoreIds(route), ctx.distanceMatrix, ctx.depotId), speedKmh)
  {
    RouteTimeIsScaledDistance(StoreIds(route), ctx.distanceMatrix, ctx.depotId, speedKmh);
  }

  /** Total service time of the stops' own stores, in minutes. */
  function ServiceMinutes(stops: seq<RouteStop>): int
  {
    CountOf(stops, (s: RouteStop) => s.store.serviceTimeMinutes)
  }

  /** Travel time `_update_route_metrics` uses for a route of the given length. */
  function TravelMinutes(ctx: SolverContext, route: Route, distanceKm: real): real
  {
    if ctx.timeMatrix != map[] then RouteTime(ctx, route) else Minutes(distanceKm, EstimatedSpeedKmh)
  }

  /** The route after `_update_route_metrics`. */
  function Refreshed(ctx: SolverContext, route: Route): (r': Route)
    ensures r' == route.(totalDistanceKm := r'.totalDistanceKm, totalDurationMinutes := r'.totalDurationMinutes)
    ensures r'.totalDistanceKm == RouteDistance(StoreIds(route), ctx.distanceMatrix, ctx.depotId)
    ensures route.stops == [] ==> r' == route.(totalDistanceKm := 0.0)
  {
    var d := RouteDistance(StoreIds(route), ctx.distanceMatrix, ctx.depotId);
    if route.stops == [] then route.(totalDistanceKm := d)
    else route.(totalDistanceKm := d, totalDurationMinutes := TravelMinutes(ctx, route, d) + ServiceMinutes(route.stops) as real)
  }

  /** `_update_route_metrics`: the distance is always recomputed; the duration only for a
      route with stops, as travel time plus the stores' service times. */
  method UpdateRouteMetrics(ctx: SolverContext, route: Route) returns (r': Route)
    ensures r' == Refreshed(ctx, route)
  {
    var d := CalculateRouteDistance(ctx, route);
    r' := route.(totalDistanceKm := d);
    if route.stops != [] {
      var service := 0;
      var i := 0;
      while i < |route.stops|
        invariant 0 <= i <= |route.stops|
        invariant service == ServiceMinutes(route.stops[..i])
      {
        assert route.stops[..i + 1][..i] == route.stops[..i];
        service := service + route.stops[i].store.serviceTimeMinutes;
        i := i + 1;
      }
      assert route.stops[..i] == route.stops;
      var travel: real;
      if ctx.timeMatrix != map[] {
        travel := CalculateRouteTime(ctx, route);
      } else {
        travel := d / EstimatedSpeedKmh * 60.0;
      }
      r' := r'.(totalDurationMinutes := travel + service as real);
    }
  }

  /** A matrix without negative entries. */
  ghost predicate NonNegative(m: Matrix)
  {
    forall a, b :: Has(m, a, b) ==> m[a][b] >= 0.0
  }

  lemma {:induction false} LegsNonNegative(ids: seq<string>, m: Matrix)
    requires NonNegative(m)
    ensures Legs(ids, m) >= 0.0
  {
    if |ids| > 1 {
      LegsNonNegative(ids[..|ids| - 1], m);
    }
  }

  lemma RouteDistanceNonNegative(ids: seq<string>, m: Matrix, depot: string)
    requires NonNegative(m)
    ensures RouteDistance(ids, m, depot) >= 0.0
  {
    LegsNonNegative(ids, m);
  }

  /** With non-negative matrices, a refreshed route with stops lasts at least as long as
      its stores' service times and its length is non-negative. */
  lemma RefreshedCoversService(ctx: SolverContext, route: Route)
    requires NonNegative(ctx.distanceMatrix) && NonNegative(ctx.timeMatrix)
    requires route.stops != []
    ensures var r' := Refreshed(ctx, route);
            r'.totalDistanceKm >= 0.0 && r'.totalDurationMinutes >= ServiceMinutes(route.stops) as real
  {
    var d := RouteDistance(StoreIds(route), ctx.distanceMatrix, ctx.depotId);
    RouteDistanceNonNegative(StoreIds(route), ctx.distanceMatrix, ctx.depotId);
    RouteDistanceNonNegative(StoreIds(route), ctx.timeMatrix, ctx.depotId);
    assert TravelMinutes(ctx, route, d) >= 0.0;
  }

  /** With the time matrix built from the distances at 40 km/h, both travel estimates of
      `_update_route_metrics` give the same duration. */
  lemma TravelEstimatesAgree(ctx: SolverContext, route: Route)
    requires route.stops != []
    requires ctx.timeMatrix == TimeMatrixOf(ctx.distanceMatrix, EstimatedSpeedKmh) != map[]
    ensures Refreshed(ctx, route) == Refreshed(ctx.(timeMatrix := map[]), route)
  {
    TravelTimeIsDistanceAtSpeed(ctx, route, EstimatedSpeedKmh);
  }

  /** `_update_route_metrics` as a function value. */
  function RefreshOf(ctx: SolverContext): Route -> Route
  {
    (r: Route) => Refreshed(ctx, r)
  }

  /** Every route refreshed, in order. */
  function RefreshedAll(ctx: SolverContext, routes: seq<Route>): (rs: seq<Route>)
    ensures |rs| == |routes|
  {
    MapSeq(routes, RefreshOf(ctx))
  }

  lemma RefreshedAllAt(ctx: SolverContext, routes: seq<Route>, k: nat)
    requires k < |routes|
    ensures RefreshedAll(ctx, routes)[k] == Refreshed(ctx, routes[k])
  {
    MapSeqAt(routes, RefreshOf(ctx), k);
  }

  /** `refresh` is `_update_route_metrics`, stated on each route it is run on. */
  ghost predicate IsRefresh(ctx: SolverContext, refresh: Route -> Route)
  {
    forall r {:trigger Refreshed(ctx, r)} :: refresh(r) == Refreshed(ctx, r)
  }

  /** The `for route in routes: self._update_route_metrics(route)` loop of `_create_solution`. */
  method RefreshEach(ctx: SolverContext, routes: seq<Route>, ghost refresh: Route -> Route) returns (refreshed: seq<Route>)
    requires IsRefresh(ctx, refresh)
    ensures refreshed == MapSeq(routes, refresh)
  {
    refreshed := [];
    var i := 0;
    while i < |routes|
      invariant 0 <= i <= |routes|
      invariant refreshed == MapSeq(routes[..i], refresh)
    {
      var r' := UpdateRouteMetrics(ctx, routes[i]);
      MapSeqSnoc(routes[..i], routes[i], refresh);
      assert routes[..i + 1] == routes[..i] + [routes[i]];
      refreshed := refreshed + [r'];
      i := i + 1;
    }
    assert routes[..i] == routes;
  }

  method RefreshRoutes(ctx: SolverContext, routes: seq<Route>) returns (refreshed: seq<Route>)
    ensures refreshed == RefreshedAll(ctx, routes)
  {
    assert IsRefresh(ctx, RefreshOf(ctx));
    refreshed := RefreshEach(ctx, routes, RefreshOf(ctx));
  }

  /** `_create_solution`: refreshes every route, then computes the solution's metrics. */
  method CreateSolution(ctx: SolverContext, routes: seq<Route>, day: string) returns (s: Solution)
    ensures s == WithMetrics(NewSolution(RefreshedAll(ctx, routes), day, []))
  {
    var refreshed := RefreshRoutes(ctx, routes);
    s := WithMetrics(NewSolution(refreshed, day, []));
  }

  /** Refreshing keeps every route's stops, so the stores served are the same, and the
      total distance is the sum of the tour lengths. */
  lemma RefreshedAllKeepsStops(ctx: SolverContext, routes: seq<Route>)
    ensures ServedIds(RefreshedAll(ctx, routes)) == ServedIds(routes)
    ensures DistanceSum(RefreshedAll(ctx, routes))
         == SumOf(routes, (r: Route) => RouteDistance(StoreIds(r), ctx.distanceMatrix, ctx.depotId))
  {
    FlatMapOfMapSeq(routes, RefreshOf(ctx), StoreIds, StoreIds);
    SumOfMapSeq(routes, RefreshOf(ctx), (r: Route) => r.totalDistanceKm,
                (r: Route) => RouteDistance(StoreIds(r), ctx.distanceMatrix, ctx.depotId));
  }
}
