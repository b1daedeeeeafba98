/** The Clarke-Wright savings heuristic (vrp_solver/solvers/clarke_wright.py): one
    route per store, savings for joining the end of one route to the start of another,
    merges in order of decreasing saving while the validator accepts the merged route,
    then a bounded first-improvement 2-opt on every route. Routes are values: each step
    returns the routes it builds. */
module ClarkeWright {
  import opened Common
  import opened Stores
  import opened Vehicles
  import opened Routes
  import opened Distance
  import opened Solutions
  import opened BaseSolver
  import Validator

  /** The solver validates with a default `ConstraintValidator`, whose service time is 60 minutes. */
  const ValidationServiceMinutes: int := Validator.DefaultServiceMinutes

  /** `datetime.now().replace(hour=8, minute=0, ...)`: 08:00, as minutes of the planning day. */
  const DefaultStartMinutes: real := 480.0

  /** At most this many 2-opt passes are made over a route. */
  const MaxTwoOptPasses: nat := 100

  /** The vehicle may serve the store and carry its demand on an empty truck. */
  predicate Compatible(v: Vehicle, store: Store)
  {
    v.CanServeStore(store.id) && v.CanFitDemand(store.demandCbm, 0.0)
  }

  /** Index of the first compatible vehicle of the fleet. */
  function FirstCompatible(vehicles: seq<Vehicle>, store: Store): (k: Option<nat>)
    ensures k.Some? ==> k.value < |vehicles| && Compatible(vehicles[k.value], store)
                        && forall j :: 0 <= j < k.value ==> !Compatible(vehicles[j], store)
    ensures k.None? <==> forall j :: 0 <= j < |vehicles| ==> !Compatible(vehicles[j], store)
  {
    if vehicles == [] then None
    else if Compatible(vehicles[0], store) then Some(0)
    else match FirstCompatible(vehicles[1..], store)
         case Some(k) => Some(k + 1)
         case None =>
           assert forall j :: 1 <= j < |vehicles| ==> vehicles[j] == vehicles[1..][j - 1];
           None
  }

  function CompatibleVehicle(vehicles: seq<Vehicle>, store: Store): Option<Vehicle>
  {
    match FirstCompatible(vehicles, store)
    case Some(k) => Some(vehicles[k])
    case None => None
  }

  /** `_find_compatible_vehicle`: the first vehicle in fleet order that may serve the
      store and fits its demand, or none (the same search appears in alns_solver.py). */
  method FindCompatibleVehicle(vehicles: seq<Vehicle>, store: Store) returns (v: Option<Vehicle>)
    ensures v == CompatibleVehicle(vehicles, store)
    ensures v.Some? ==> v.value in vehicles && Compatible(v.value, store)
    ensures v.None? <==> forall j :: 0 <= j < |vehicles| ==> !Compatible(vehicles[j], store)
  {
    var i := 0;
    while i < |vehicles|
      invariant 0 <= i <= |vehicles|
      invariant forall j :: 0 <= j < i ==> !Compatible(vehicles[j], store)
    {
      if vehicles[i].CanServeStore(store.id) && vehicles[i].CanFitDemand(store.demandCbm, 0.0) {
        assert FirstCompatible(vehicles, store) == Some(i);
        return Some(vehicles[i]);
      }
      i := i + 1;
    }
    return None;
  }

  /** The route after `add_stop(s)` for each store of the list in turn. */
  function Appended(r: Route, stores: seq<Store>): Route
  {
    if stores == [] then r else WithStop(Appended(r, stores[..|stores| - 1]), stores[|stores| - 1], None)
  }

  /** Appending keeps the route's other fields and its stops, adds one fresh stop per store
      numbered by its position, and adds the stores' demand to the load. */
  lemma {:induction false} AppendedFacts(r: Route, stores: seq<Store>)
    ensures var a := Appended(r, stores);
            && a == r.(stops := a.stops, totalLoadCbm := a.totalLoadCbm)
            && |a.stops| == |r.stops| + |stores|
            && a.stops[..|r.stops|] == r.stops
            && (forall k :: 0 <= k < |stores| ==> a.stops[|r.stops| + k] == RouteStop(stores[k], None, None, |r.stops| + k))
            && a.totalLoadCbm == r.totalLoadCbm + Demand(stores)
  {
    if stores != [] {
      var init := stores[..|stores| - 1];
      AppendedFacts(r, init);
      var a0 := Appended(r, init);
      assert forall k :: 0 <= k < |init| ==> init[k] == stores[k];
      assert Appended(r, stores).stops == a0.stops + [RouteStop(stores[|stores| - 1], None, None, |a0.stops|)];
    }
  }

  /** The store ids of a route built by appending to an empty route are the stores' ids. */
  lemma AppendedIds(r: Route, stores: seq<Store>)
    requires r.stops == []
    ensures StoreIds(Appended(r, stores)) == IdsOf(stores)
    ensures StoresOf(Appended(r, stores).stops) == stores
  {
    var a := Appended(r, stores);
    AppendedFacts(r, stores);
    forall k | 0 <= k < |stores| ensures StoresOf(a.stops)[k] == stores[k] {
      assert a.stops[|r.stops| + k] == RouteStop(stores[k], None, None, |r.stops| + k);
    }
    assert StoresOf(a.stops) == stores;
    StoreIdsOfStores(a);
  }

  /** The loop `for stop in stops: route.add_stop(stop.store)`. */
  method AddStops(r: Route, stops: seq<RouteStop>) returns (r': Route)
    ensures r' == Appended(r, StoresOf(stops))
  {
    r' := r;
    var i := 0;
    while i < |stops|
      invariant 0 <= i <= |stops|
      invariant r' == Appended(r, StoresOf(stops[..i]))
    {
      assert StoresOf(stops[..i + 1])[..i] == StoresOf(stops[..i]);
      r' := AddStop(r', stops[i].store, None);
      i := i + 1;
    }
    assert stops[..i] == stops;
  }

  /** The route `_create_initial_routes` builds for one store. */
  function SingleRoute(ctx: SolverContext, v: Vehicle, store: Store, day: string, start: real): Route
  {
    Refreshed(ctx, WithStop(NewRoute(v, Some(day)).(depotDeparture := Some(start)), store, None))
  }

  /** The store itself when some vehicle of the fleet is compatible with it. */
  function ServableStore(vehicles: seq<Vehicle>): Store -> Option<Store>
  {
    (s: Store) => if CompatibleVehicle(vehicles, s).Some? then Some(s) else None
  }

  /** The stores that some vehicle of the fleet is compatible with, in order. */
  function Servable(vehicles: seq<Vehicle>, stores: seq<Store>): seq<Store>
  {
    Select(stores, ServableStore(vehicles))
  }

  /** The route `_create_initial_routes` builds for a store, on its first compatible
      vehicle, if it has one. */
  function InitialRoute(ctx: SolverContext, day: string, start: real): Store -> Option<Route>
  {
    (s: Store) =>
      match CompatibleVehicle(ctx.vehicles, s)
      case None => None
      case Some(v) => Some(SingleRoute(ctx, v, s, day, start))
  }

  function InitialRoutes(ctx: SolverContext, stores: seq<Store>, day: string, start: real): seq<Route>
  {
    Select(stores, InitialRoute(ctx, day, start))
  }

  /** `_create_initial_routes`: one single-stop route per store with a compatible
      vehicle, leaving from the depot at `start`; stores without one are skipped. */
  method CreateInitialRoutes(ctx: SolverContext, stores: seq<Store>, day: string, start: real) returns (routes: seq<Route>)
    ensures routes == InitialRoutes(ctx, stores, day, start)
  {
    routes := [];
    var i := 0;
    while i < |stores|
      invariant 0 <= i <= |stores|
      invariant routes == InitialRoutes(ctx, stores[..i], day, start)
    {
      SelectSnoc(stores[..i], stores[i], InitialRoute(ctx, day, start));
      assert stores[..i + 1] == stores[..i] + [stores[i]];
      var store := stores[i];
      var vehicle := FindCompatibleVehicle(ctx.vehicles, store);
      if vehicle.Some? {
        var route := NewRoute(vehicle.value, Some(day)).(depotDeparture := Some(start));
        route := AddStop(route, store, None);
        route := UpdateRouteMetrics(ctx, route);
        routes := routes + [route];
      }
      i := i + 1;
    }
    assert stores[..i] == stores;
  }

  /** The route built for one store holds just that store, carries its demand, and
      leaves from the depot at the given time on the given day. */
  lemma SingleRouteFacts(ctx: SolverContext, v: Vehicle, store: Store, day: string, start: real)
    ensures var r := SingleRoute(ctx, v, store, day, start);
            && r.stops == [RouteStop(store, None, None, 0)]
            && r.vehicle == v && r.totalLoadCbm == store.demandCbm
            && r.depotDeparture == Some(start) && r.day == Some(day)
  {
  }

  /** The initial routes serve exactly the stores that have a compatible vehicle, in the
      given order, one route per store. */
  lemma InitialRoutesServe(ctx: SolverContext, stores: seq<Store>, day: string, start: real)
    ensures ServedIds(InitialRoutes(ctx, stores, day, start)) == IdsOf(Servable(ctx.vehicles, stores))
    ensures |InitialRoutes(ctx, stores, day, start)| == |Servable(ctx.vehicles, stores)|
  {
    var f, g := InitialRoute(ctx, day, start), ServableStore(ctx.vehicles);
    forall x ensures f(x).Some? <==> g(x).Some? {
    }
    forall x | f(x).Some? ensures StoreIds(f(x).value) == IdSingleton(g(x).value) {
      SingleRouteFacts(ctx, CompatibleVehicle(ctx.vehicles, x).value, x, day, start);
    }
    SelectFlatMap(stores, f, g, StoreIds, IdSingleton);
    IdsOfFlat(Servable(ctx.vehicles, stores));
    SelectAlong(stores, f, g, 0);
  }

  /** The k-th initial route is the single-store route of the k-th servable store, on the
      first vehicle compatible with it. */
  lemma InitialRouteAt(ctx: SolverContext, stores: seq<Store>, day: string, start: real, k: nat)
    requires k < |Servable(ctx.vehicles, stores)| && k < |InitialRoutes(ctx, stores, day, start)|
    ensures var store := Servable(ctx.vehicles, stores)[k];
            CompatibleVehicle(ctx.vehicles, store).Some?
            && InitialRoutes(ctx, stores, day, start)[k]
               == SingleRoute(ctx, CompatibleVehicle(ctx.vehicles, store).value, store, day, start)
  {
    var f, g := InitialRoute(ctx, day, start), ServableStore(ctx.vehicles);
    forall x ensures f(x).Some? <==> g(x).Some? {
    }
    SelectAlong(stores, f, g, k);
    var i :| 0 <= i < |stores| && f(stores[i]) == Some(Select(stores, f)[k]) && g(stores[i]) == Some(Select(stores, g)[k]);
  }

  /** A store's id as a one-element list. */
  function IdSingleton(s: Store): seq<string>
  {
    [s.id]
  }

  lemma {:induction false} IdsOfFlat(stores: seq<Store>)
    ensures IdsOf(stores) == FlatMap(stores, IdSingleton)
  {
    if stores != [] {
      IdsOfFlat(stores[..|stores| - 1]);
      assert IdsOf(stores) == IdsOf(stores[..|stores| - 1]) + [stores[|stores| - 1].id];
    }
  }

  /** An entry `(i, j, savings)` of the savings list: joining route j after route i. */
  datatype Saving = Saving(i: nat, j: nat, value: real)

  /** Savings(i, j) = dist(depot, last of i) + dist(depot, first of j) - dist(last of i,
      first of j); missing matrix entries read as 0. */
  function SavingOf(ctx: SolverContext, ri: Route, rj: Route): real
    requires ri.stops != [] && rj.stops != []
  {
    var last, first := ri.stops[|ri.stops| - 1].store.id, rj.stops[0].store.id;
    Get(ctx.distanceMatrix, ctx.depotId, last) + Get(ctx.distanceMatrix, ctx.depotId, first)
      - Get(ctx.distanceMatrix, last, first)
  }

  /** The pair enters the savings list: i before j, the same vehicle, both routes with
      stops, and a positive saving. */
  predicate IsSaving(ctx: SolverContext, routes: seq<Route>, s: Saving)
  {
    && s.i < s.j < |routes|
    && routes[s.i].vehicle.id == routes[s.j].vehicle.id
    && routes[s.i].stops != [] && routes[s.j].stops != []
    && s.value == SavingOf(ctx, routes[s.i], routes[s.j])
    && s.value > 0.0
  }

  function PairSavings(ctx: SolverContext, routes: seq<Route>, i: nat, j: nat): seq<Saving>
    requires i < j < |routes|
  {
    if routes[i].vehicle.id != routes[j].vehicle.id || routes[i].stops == [] || routes[j].stops == [] then []
    else if SavingOf(ctx, routes[i], routes[j]) > 0.0 then [Saving(i, j, SavingOf(ctx, routes[i], routes[j]))]
    else []
  }

  /** The savings the inner loop finds for row i, for j from i + 1 up to m - 1. */
  function RowSavings(ctx: SolverContext, routes: seq<Route>, i: nat, m: nat): seq<Saving>
    requires i < |routes| && m <= |routes|
  {
    if m <= i + 1 then [] else RowSavings(ctx, routes, i, m - 1) + PairSavings(ctx, routes, i, m - 1)
  }

  /** Row i of the nested savings loops, and no savings past the last route. */
  function SavingsRow(ctx: SolverContext, routes: seq<Route>): nat -> seq<Saving>
  {
    (i: nat) => if i < |routes| then RowSavings(ctx, routes, i, |routes|) else []
  }

  /** The savings of rows 0 to n - 1, in the order the nested loops find them. */
  function AllSavings(ctx: SolverContext, routes: seq<Route>, n: nat): seq<Saving>
  {
    Flatten(SavingsRow(ctx, routes), n)
  }

  /** Sort key of `sort(key=lambda x: x[2], reverse=True)`: Python's sort is stable in
      both directions, so this is a stable ascending sort on the negated saving. */
  function NegatedValue(s: Saving): real
  {
    -s.value
  }

  /** The body of the inner savings loop for the pair (i, j). */
  method PairSaving(ctx: SolverContext, routes: seq<Route>, i: nat, j: nat) returns (found: seq<Saving>)
    requires i < j < |routes|
    ensures found == PairSavings(ctx, routes, i, j)
  {
    found := [];
    var ri, rj := routes[i], routes[j];
    if ri.vehicle.id == rj.vehicle.id && ri.stops != [] && rj.stops != [] {
      var lastI, firstJ := ri.stops[|ri.stops| - 1].store.id, rj.stops[0].store.id;
      var distDepotI := Get(ctx.distanceMatrix, ctx.depotId, lastI);
      var distDepotJ := Get(ctx.distanceMatrix, ctx.depotId, firstJ);
      var distIJ := Get(ctx.distanceMatrix, lastI, firstJ);
      var value := distDepotI + distDepotJ - distIJ;
      if value > 0.0 {
        found := [Saving(i, j, value)];
      }
    }
  }

  /** The inner loop of `_calculate_savings` for row i: the savings it appends. */
  method RowSaving(ctx: SolverContext, routes: seq<Route>, i: nat) returns (row: seq<Saving>)
    requires i < |routes|
    ensures row == RowSavings(ctx, routes, i, |routes|)
  {
    row := [];
    var j := i + 1;
    while j < |routes|
      invariant i + 1 <= j <= |routes|
      invariant row == RowSavings(ctx, routes, i, j)
    {
      var found := PairSaving(ctx, routes, i, j);
      row := row + found;
      j := j + 1;
    }
  }

  /** The nested loops of `_calculate_savings`: the savings of all pairs i < j, in the
      order the loops find them. */
  method CollectSavings(ctx: SolverContext, routes: seq<Route>) returns (list: seq<Saving>)
    ensures list == AllSavings(ctx, routes, |routes|)
  {
    list := [];
    var i := 0;
    while i < |routes|
      invariant 0 <= i <= |routes|
      invariant list == AllSavings(ctx, routes, i)
    {
      var row := RowSaving(ctx, routes, i);
      list := list + row;
      i := i + 1;
    }
  }

  /** `_calculate_savings`: the savings of all pairs i < j in loop order, sorted by
      decreasing saving. */
  method CalculateSavings(ctx: SolverContext, routes: seq<Route>) returns (savings: seq<Saving>)
    ensures savings == SortByKey(AllSavings(ctx, routes, |routes|), NegatedValue)
  {
    var list := CollectSavings(ctx, routes);
    savings := SortByKey(list, NegatedValue);
  }

  lemma {:induction false} RowSavingsHas(ctx: SolverContext, routes: seq<Route>, i: nat, m: nat, s: Saving)
    requires i < |routes| && m <= |routes|
    ensures s in RowSavings(ctx, routes, i, m) <==> IsSaving(ctx, routes, s) && s.i == i && s.j < m
  {
    if m > i + 1 {
      RowSavingsHas(ctx, routes, i, m - 1, s);
      var before, pair := RowSavings(ctx, routes, i, m - 1), PairSavings(ctx, routes, i, m - 1);
      assert RowSavings(ctx, routes, i, m) == before + pair;
      assert s in before + pair <==> s in before || s in pair;
    }
  }

  /** The savings list holds exactly the pairs i < j on the same vehicle whose saving is
      positive, each with its saving. */
  lemma SavingsListMembers(ctx: SolverContext, routes: seq<Route>)
    ensures var sv := SortByKey(AllSavings(ctx, routes, |routes|), NegatedValue);
            forall s :: s in sv <==> IsSaving(ctx, routes, s)
  {
    var all := AllSavings(ctx, routes, |routes|);
    var sv := SortByKey(all, NegatedValue);
    forall s ensures s in sv <==> IsSaving(ctx, routes, s) {
      forall i: nat ensures i != s.i ==> s !in SavingsRow(ctx, routes)(i) {
        if i < |routes| {
          RowSavingsHas(ctx, routes, i, |routes|, s);
        }
      }
      FlattenHas(SavingsRow(ctx, routes), |routes|, s, s.i);
      if s.i < |routes| {
        RowSavingsHas(ctx, routes, s.i, |routes|, s);
      }
      assert s in sv <==> s in multiset(sv);
      assert s in all <==> s in multiset(all);
    }
  }

  /** The savings list runs from the largest saving to the smallest. */
  lemma SavingsListOrder(ctx: SolverContext, routes: seq<Route>)
    ensures var sv := SortByKey(AllSavings(ctx, routes, |routes|), NegatedValue);
            forall a, b :: 0 <= a < b < |sv| ==> sv[a].value >= sv[b].value
  {
    var all := AllSavings(ctx, routes, |routes|);
    var sv := SortByKey(all, NegatedValue);
    SortByKeySorted(all, NegatedValue);
    forall a, b | 0 <= a < b < |sv| ensures sv[a].value >= sv[b].value {
      assert NegatedValue(sv[a]) <= NegatedValue(sv[b]);
    }
  }

  /** Appending two lists of stores one after the other is appending their concatenation. */
  lemma {:induction false} AppendedConcat(r: Route, a: seq<Store>, b: seq<Store>)
    ensures Appended(Appended(r, a), b) == Appended(r, a + b)
  {
    if b != [] {
      AppendedConcat(r, a, b[..|b| - 1]);
      assert (a + b)[..|a + b| - 1] == a + b[..|b| - 1];
      assert (a + b)[|a + b| - 1] == b[|b| - 1];
    } else {
      assert a + b == a;
    }
  }

  /** A fresh route on the vehicle, day and departure of `base`, through `stores`,
      with its metrics refreshed. */
  function Rebuilt(ctx: SolverContext, base: Route, stores: seq<Store>): Route
  {
    Refreshed(ctx, Appended(NewRoute(base.vehicle, base.day).(depotDeparture := base.depotDeparture), stores))
  }

  /** A rebuilt route visits exactly the given stores in order, on the vehicle, day and
      departure of its base, carries their demand and is as long as the tour through them. */
  lemma RebuiltFacts(ctx: SolverContext, base: Route, stores: seq<Store>)
    ensures var r := Rebuilt(ctx, base, stores);
            && StoresOf(r.stops) == stores && StoreIds(r) == IdsOf(stores)
            && (forall k :: 0 <= k < |stores| ==> r.stops[k] == RouteStop(stores[k], None, None, k))
            && r.vehicle == base.vehicle && r.day == base.day
            && r.depotDeparture == base.depotDeparture && r.depotReturn == None
            && r.totalLoadCbm == Demand(stores) && LoadConsistent(r)
            && r.totalDistanceKm == RouteDistance(IdsOf(stores), ctx.distanceMatrix, ctx.depotId)
  {
    var r0 := NewRoute(base.vehicle, base.day).(depotDeparture := base.depotDeparture);
    var a := Appended(r0, stores);
    AppendedFacts(r0, stores);
    forall k | 0 <= k < |stores| ensures a.stops[k] == RouteStop(stores[k], None, None, k) {
      assert a.stops[|r0.stops| + k] == RouteStop(stores[k], None, None, |r0.stops| + k);
    }
    assert StoresOf(a.stops) == stores;
    assert StoreIds(a) == IdsOf(stores);
    var r := Refreshed(ctx, a);
    assert r.stops == a.stops && r.totalLoadCbm == a.totalLoadCbm;
  }

  /** The route `_merge_two_routes` builds: route 1's stores then route 2's, on route 1's
      vehicle, day and departure. */
  function MergedRoute(ctx: SolverContext, r1: Route, r2: Route): Route
  {
    Rebuilt(ctx, r1, StoresOf(r1.stops) + StoresOf(r2.stops))
  }

  method MergeTwoRoutes(ctx: SolverContext, r1: Route, r2: Route) returns (merged: Route)
    ensures merged == MergedRoute(ctx, r1, r2)
  {
    merged := NewRoute(r1.vehicle, r1.day).(depotDeparture := r1.depotDeparture);
    ghost var r0 := merged;
    merged := AddStops(merged, r1.stops);
    merged := AddStops(merged, r2.stops);
    AppendedConcat(r0, StoresOf(r1.stops), StoresOf(r2.stops));
    merged := UpdateRouteMetrics(ctx, merged);
  }

  /** The store ids of the merged route are route 1's followed by route 2's. */
  lemma MergedIds(ctx: SolverContext, r1: Route, r2: Route)
    ensures StoreIds(MergedRoute(ctx, r1, r2)) == StoreIds(r1) + StoreIds(r2)
  {
    var stores := StoresOf(r1.stops) + StoresOf(r2.stops);
    RebuiltFacts(ctx, r1, stores);
    IdsOfConcat(StoresOf(r1.stops), StoresOf(r2.stops));
    StoreIdsOfStores(r1);
    StoreIdsOfStores(r2);
  }

  /** The merged route serves route 1's stores then route 2's on route 1's vehicle, day
      and departure, and carries both loads. */
  lemma MergedRouteStores(ctx: SolverContext, r1: Route, r2: Route)
    ensures var m := MergedRoute(ctx, r1, r2);
            && StoreIds(m) == StoreIds(r1) + StoreIds(r2)
            && m.vehicle == r1.vehicle && m.day == r1.day && m.depotDeparture == r1.depotDeparture
            && (LoadConsistent(r1) && LoadConsistent(r2) ==> m.totalLoadCbm == r1.totalLoadCbm + r2.totalLoadCbm)
  {
    RebuiltFacts(ctx, r1, StoresOf(r1.stops) + StoresOf(r2.stops));
    MergedIds(ctx, r1, r2);
    DemandConcat(StoresOf(r1.stops), StoresOf(r2.stops));
  }

  /** The saving of a pair is exactly the distance merging them saves, when the matrix
      gives the same length to the leg between the depot and route 1's last store in both
      directions. */
  lemma MergeSavesDistance(ctx: SolverContext, r1: Route, r2: Route)
    requires r1.stops != [] && r2.stops != []
    requires var last := r1.stops[|r1.stops| - 1].store.id;
             Get(ctx.distanceMatrix, last, ctx.depotId) == Get(ctx.distanceMatrix, ctx.depotId, last)
    ensures MergedRoute(ctx, r1, r2).totalDistanceKm
         == RouteDistance(StoreIds(r1), ctx.distanceMatrix, ctx.depotId)
            + RouteDistance(StoreIds(r2), ctx.distanceMatrix, ctx.depotId)
            - SavingOf(ctx, r1, r2)
  {
    var stores := StoresOf(r1.stops) + StoresOf(r2.stops);
    RebuiltFacts(ctx, r1, stores);
    MergedIds(ctx, r1, r2);
    var a, b := StoreIds(r1), StoreIds(r2);
    assert MergedRoute(ctx, r1, r2).totalDistanceKm == RouteDistance(a + b, ctx.distanceMatrix, ctx.depotId);
    LegsConcat(a, b, ctx.distanceMatrix);
    assert (a + b)[0] == a[0] && (a + b)[|a + b| - 1] == b[|b| - 1];
  }

  /** `_can_merge_routes`: same vehicle, the combined load within its capacity, and the
      merged route accepted by the validator. */
  predicate CanMerge(ctx: SolverContext, r1: Route, r2: Route)
  {
    && r1.vehicle.id == r2.vehicle.id
    && !(r1.totalLoadCbm + r2.totalLoadCbm > r1.vehicle.capacityCbm)
    && Validator.Validate(MergedRoute(ctx, r1, r2), ctx.timeMatrix, ValidationServiceMinutes).0
  }

  method CanMergeRoutes(ctx: SolverContext, r1: Route, r2: Route) returns (ok: bool)
    ensures ok == CanMerge(ctx, r1, r2)
  {
    if r1.vehicle.id != r2.vehicle.id {
      return false;
    }
    var totalLoad := r1.totalLoadCbm + r2.totalLoadCbm;
    if totalLoad > r1.vehicle.capacityCbm {
      return false;
    }
    var temp := MergeTwoRoutes(ctx, r1, r2);
    var violations, stamped;
    ok, violations, stamped := Validator.ValidateRoute(temp, ctx.timeMatrix, ValidationServiceMinutes);
  }

  /** A merge that is allowed yields a route within its vehicle's capacity and duration
      limit, whose vehicle may serve every store on it and whose stores all allow its day. */
  lemma CanMergeMeans(ctx: SolverContext, r1: Route, r2: Route)
    requires CanMerge(ctx, r1, r2)
    ensures var m := MergedRoute(ctx, r1, r2);
            && IsValidCapacity(m)
            && IsValidDuration(Validator.Validate(m, ctx.timeMatrix, ValidationServiceMinutes).2)
            && (forall k :: 0 <= k < |m.stops| ==> m.vehicle.CanServeStore(m.stops[k].store.id))
            && (Validator.HasDay(m) ==> forall k :: 0 <= k < |m.stops| ==> m.stops[k].store.IsDayAllowed(m.day.value))
  {
    Validator.ValidExactlyWhenAllHold(MergedRoute(ctx, r1, r2), ctx.timeMatrix, ValidationServiceMinutes);
  }

  /** One entry of the merge loop over `active_routes`, keyed by initial route index:
      when both routes are still there and may be merged, route i becomes the merge and
      route j is deleted. */
  function MergeStep(ctx: SolverContext, active: map<nat, Route>, s: Saving): map<nat, Route>
  {
    if s.i in active && s.j in active && CanMerge(ctx, active[s.i], active[s.j])
    then active[s.i := MergedRoute(ctx, active[s.i], active[s.j])] - {s.j}
    else active
  }

  function MergeAll(ctx: SolverContext, active: map<nat, Route>, savings: seq<Saving>): map<nat, Route>
  {
    if savings == [] then active
    else MergeStep(ctx, MergeAll(ctx, active, savings[..|savings| - 1]), savings[|savings| - 1])
  }

  /** `{i: route for i, route in enumerate(routes)}`. */
  function Indexed(routes: seq<Route>): map<nat, Route>
  {
    map k | 0 <= k < |routes| :: routes[k]
  }

  /** `list(active_routes.values())`: the dictionary keeps its keys in insertion order,
      which is increasing index order since keys are only reassigned or deleted. */
  function ActiveList(active: map<nat, Route>, n: nat): seq<Route>
  {
    if n == 0 then [] else ActiveList(active, n - 1) + (if n - 1 in active then [active[n - 1]] else [])
  }

  /** The body of the merge loop for one savings entry. */
  method MergeEntry(ctx: SolverContext, active: map<nat, Route>, s: Saving) returns (active': map<nat, Route>)
    ensures active' == MergeStep(ctx, active, s)
  {
    active' := active;
    if s.i in active && s.j in active {
      var ok := CanMergeRoutes(ctx, active[s.i], active[s.j]);
      if ok {
        var m := MergeTwoRoutes(ctx, active[s.i], active[s.j]);
        active' := active[s.i := m] - {s.j};
      }
    }
  }

  /** `_merge_routes`. */
  method MergeRoutes(ctx: SolverContext, routes: seq<Route>, savings: seq<Saving>) returns (merged: seq<Route>)
    ensures merged == ActiveList(MergeAll(ctx, Indexed(routes), savings), |routes|)
  {
    var active: map<nat, Route> := map k | 0 <= k < |routes| :: routes[k];
    var t := 0;
    while t < |savings|
      invariant 0 <= t <= |savings|
      invariant active == MergeAll(ctx, Indexed(routes), savings[..t])
    {
      assert savings[..t + 1][..t] == savings[..t];
      active := MergeEntry(ctx, active, savings[t]);
      t := t + 1;
    }
    assert savings[..t] == savings;
    merged := [];
    var k := 0;
    while k < |routes|
      invariant 0 <= k <= |routes|
      invariant merged == ActiveList(active, k)
    {
      if k in active {
        merged := merged + [active[k]];
      }
      k := k + 1;
    }
  }

  /** The multiset of store ids a route serves. */
  function IdBag(r: Route): multiset<string>
  {
    multiset(StoreIds(r))
  }

  /** The union of `f` over the entries of the map with key below n. */
  function Bag<V, T>(active: map<nat, V>, n: nat, f: V -> multiset<T>): multiset<T>
  {
    if n == 0 then multiset{}
    else Bag(active, n - 1, f) + (if n - 1 in active then f(active[n - 1]) else multiset{})
  }

  lemma {:induction false} BagOfList(active: map<nat, Route>, n: nat)
    ensures Bag(active, n, IdBag) == multiset(ServedIds(ActiveList(active, n)))
  {
    if n > 0 {
      BagOfList(active, n - 1);
      var tail := if n - 1 in active then [active[n - 1]] else [];
      ServedIdsConcat(ActiveList(active, n - 1), tail);
      if n - 1 in active {
        ServedIdsSnoc([], active[n - 1]);
        assert [] + tail == tail;
      }
    }
  }

  lemma {:induction false} BagAgree<V, T>(a: map<nat, V>, b: map<nat, V>, n: nat, f: V -> multiset<T>)
    requires forall k :: k < n ==> (k in a <==> k in b) && (k in a ==> a[k] == b[k])
    ensures Bag(a, n, f) == Bag(b, n, f)
  {
    if n > 0 {
      BagAgree(a, b, n - 1, f);
    }
  }

  lemma {:induction false} BagUpdate<V, T>(active: map<nat, V>, n: nat, i: nat, r: V, f: V -> multiset<T>)
    requires i in active && i < n
    ensures Bag(active[i := r], n, f) + f(active[i]) == Bag(active, n, f) + f(r)
  {
    var updated := active[i := r];
    if n - 1 == i {
      BagAgree(updated, active, n - 1, f);
    } else {
      BagUpdate(active, n - 1, i, r, f);
      var x := if n - 1 in active then f(active[n - 1]) else multiset{};
      assert Bag(updated, n, f) == Bag(updated, n - 1, f) + x;
      MultisetBalance(Bag(updated, n - 1, f), Bag(active, n - 1, f), x, f(active[i]), f(r));
    }
  }

  lemma {:induction false} BagRemove<V, T>(active: map<nat, V>, n: nat, j: nat, f: V -> multiset<T>)
    requires j in active && j < n
    ensures Bag(active - {j}, n, f) + f(active[j]) == Bag(active, n, f)
  {
    if n - 1 == j {
      BagAgree(active - {j}, active, n - 1, f);
    } else {
      BagRemove(active, n - 1, j, f);
    }
  }

  /** Every key of the active map is an index below n. */
  ghost predicate KeysBelow<V>(active: map<nat, V>, n: nat)
  {
    forall k :: k in active ==> k < n
  }

  /** Replacing route i by a route serving route i's and route j's stores and deleting
      route j keeps the multiset of stores served. */
  lemma JoinBag<V, T>(active: map<nat, V>, n: nat, i: nat, j: nat, m: V, f: V -> multiset<T>)
    requires KeysBelow(active, n) && i in active && j in active && i != j
    requires f(m) == f(active[i]) + f(active[j])
    ensures Bag(active[i := m] - {j}, n, f) == Bag(active, n, f)
  {
    var updated := active[i := m];
    assert updated[j] == active[j];
    BagUpdate(active, n, i, m, f);
    BagRemove(updated, n, j, f);
    MergeBalance(Bag(updated - {j}, n, f), Bag(updated, n, f), Bag(active, n, f), f(active[i]), f(active[j]), f(m));
  }

  /** A merge that happens replaces two active routes by one; an entry that does not merge
      changes nothing. */
  lemma MergeStepShrinks(ctx: SolverContext, active: map<nat, Route>, s: Saving)
    requires s.i != s.j
    ensures var active' := MergeStep(ctx, active, s);
            if s.i in active && s.j in active && CanMerge(ctx, active[s.i], active[s.j])
            then |active'.Keys| + 1 == |active.Keys| && s.j !in active' && s.i in active'
            else active' == active
  {
    if s.i in active && s.j in active && CanMerge(ctx, active[s.i], active[s.j]) {
      var updated := active[s.i := MergedRoute(ctx, active[s.i], active[s.j])];
      assert updated.Keys == active.Keys;
      assert (updated - {s.j}).Keys == active.Keys - {s.j};
    }
  }

  /** A merge step keeps the keys below n and the multiset of stores served. */
  lemma MergeStepBag(ctx: SolverContext, active: map<nat, Route>, n: nat, s: Saving)
    requires KeysBelow(active, n) && s.i != s.j
    ensures KeysBelow(MergeStep(ctx, active, s), n)
    ensures Bag(MergeStep(ctx, active, s), n, IdBag) == Bag(active, n, IdBag)
  {
    if s.i in active && s.j in active && CanMerge(ctx, active[s.i], active[s.j]) {
      MergedIds(ctx, active[s.i], active[s.j]);
      JoinBag(active, n, s.i, s.j, MergedRoute(ctx, active[s.i], active[s.j]), IdBag);
    }
  }

  /** The multiset bookkeeping of one merge: route i grows by route j's stores and route
      j disappears. */
  lemma MergeBalance<T>(final: multiset<T>, updated: multiset<T>, active: multiset<T>,
                        mi: multiset<T>, mj: multiset<T>, merged: multiset<T>)
    requires updated + mi == active + merged && merged == mi + mj && final + mj == updated
    ensures final == active
  {
    forall o ensures final[o] == active[o] {
      assert (updated + mi)[o] == (active + merged)[o];
      assert (final + mj)[o] == updated[o];
      assert merged[o] == (mi + mj)[o];
    }
  }

  lemma {:induction false} MergeAllBag(ctx: SolverContext, active: map<nat, Route>, n: nat, savings: seq<Saving>)
    requires KeysBelow(active, n)
    requires forall t :: 0 <= t < |savings| ==> savings[t].i != savings[t].j
    ensures KeysBelow(MergeAll(ctx, active, savings), n)
    ensures Bag(MergeAll(ctx, active, savings), n, IdBag) == Bag(active, n, IdBag)
  {
    if savings != [] {
      MergeAllBag(ctx, active, n, savings[..|savings| - 1]);
      MergeStepBag(ctx, MergeAll(ctx, active, savings[..|savings| - 1]), n, savings[|savings| - 1]);
    }
  }

  lemma {:induction false} IndexedList(routes: seq<Route>, n: nat)
    requires n <= |routes|
    ensures ActiveList(Indexed(routes), n) == routes[..n]
  {
    if n > 0 {
      IndexedList(routes, n - 1);
      assert routes[..n] == routes[..n - 1] + [routes[n - 1]];
    }
  }

  /** Merging loses and duplicates no store: the merged routes serve the same multiset of
      store ids as the routes merging started from. */
  lemma MergeKeepsStores(ctx: SolverContext, routes: seq<Route>, savings: seq<Saving>)
    requires forall t :: 0 <= t < |savings| ==> savings[t].i != savings[t].j
    ensures multiset(ServedIds(ActiveList(MergeAll(ctx, Indexed(routes), savings), |routes|)))
         == multiset(ServedIds(routes))
  {
    var n := |routes|;
    MergeAllBag(ctx, Indexed(routes), n, savings);
    BagOfList(MergeAll(ctx, Indexed(routes), savings), n);
    BagOfList(Indexed(routes), n);
    IndexedList(routes, n);
    assert routes[..n] == routes;
  }

  /** A route within its vehicle's capacity whose vehicle may serve every store on it. */
  ghost predicate Sound(r: Route)
  {
    && IsValidCapacity(r)
    && forall k :: 0 <= k < |r.stops| ==> r.vehicle.CanServeStore(r.stops[k].store.id)
  }

  ghost predicate AllSound(active: map<nat, Route>)
  {
    forall k :: k in active ==> Sound(active[k])
  }

  /** A single-store route on a compatible vehicle is sound. */
  lemma SingleRouteSound(ctx: SolverContext, v: Vehicle, store: Store, day: string, start: real)
    requires Compatible(v, store)
    ensures Sound(SingleRoute(ctx, v, store, day, start))
  {
    SingleRouteFacts(ctx, v, store, day, start);
  }

  /** Every initial route is sound. */
  lemma InitialRoutesSound(ctx: SolverContext, stores: seq<Store>, day: string, start: real)
    ensures forall r :: r in InitialRoutes(ctx, stores, day, start) ==> Sound(r)
  {
    InitialRoutesServe(ctx, stores, day, start);
    var routes := InitialRoutes(ctx, stores, day, start);
    forall r | r in routes ensures Sound(r) {
      var k :| 0 <= k < |routes| && routes[k] == r;
      InitialRouteAt(ctx, stores, day, start, k);
      var store := Servable(ctx.vehicles, stores)[k];
      SingleRouteSound(ctx, CompatibleVehicle(ctx.vehicles, store).value, store, day, start);
    }
  }

  /** A merge step keeps every active route sound: a merge happens only when the validator
      accepts the merged route, which then fits its vehicle and respects its restrictions. */
  lemma MergeStepSound(ctx: SolverContext, active: map<nat, Route>, s: Saving)
    requires AllSound(active)
    ensures AllSound(MergeStep(ctx, active, s))
  {
    if s.i in active && s.j in active && CanMerge(ctx, active[s.i], active[s.j]) {
      CanMergeMeans(ctx, active[s.i], active[s.j]);
      JoinSound(active, s.i, s.j, MergedRoute(ctx, active[s.i], active[s.j]));
    }
  }

  lemma JoinSound(active: map<nat, Route>, i: nat, j: nat, m: Route)
    requires AllSound(active) && Sound(m)
    ensures AllSound(active[i := m] - {j})
  {
  }

  lemma {:induction false} MergeAllSound(ctx: SolverContext, active: map<nat, Route>, savings: seq<Saving>)
    requires AllSound(active)
    ensures AllSound(MergeAll(ctx, active, savings))
  {
    if savings != [] {
      MergeAllSound(ctx, active, savings[..|savings| - 1]);
      MergeStepSound(ctx, MergeAll(ctx, active, savings[..|savings| - 1]), savings[|savings| - 1]);
    }
  }

  lemma {:induction false} ActiveListMembers(active: map<nat, Route>, n: nat)
    ensures forall r :: r in ActiveList(active, n) ==> r in active.Values
  {
    if n > 0 {
      ActiveListMembers(active, n - 1);
    }
  }

  /** Started from sound routes, merging yields only sound routes. */
  lemma MergedRoutesSound(ctx: SolverContext, routes: seq<Route>, savings: seq<Saving>)
    requires forall r :: r in routes ==> Sound(r)
    ensures forall r :: r in ActiveList(MergeAll(ctx, Indexed(routes), savings), |routes|) ==> Sound(r)
  {
    var final := MergeAll(ctx, Indexed(routes), savings);
    assert AllSound(Indexed(routes)) by {
      forall k | k in Indexed(routes) ensures Sound(Indexed(routes)[k]) {
        assert routes[k] in routes;
      }
    }
    MergeAllSound(ctx, Indexed(routes), savings);
    ActiveListMembers(final, |routes|);
  }

  /** The route 2-opt tries for the pair (i, j): the stops from position i to position j
      reversed, on a fresh route with the same vehicle, day and departure. */
  function Candidate(ctx: SolverContext, route: Route, i: nat, j: nat): Route
    requires i <= j < |route.stops|
  {
    Rebuilt(ctx, route, StoresOf(SegmentReversed(route.stops, i, j)))
  }

  /** The candidate is shorter than the route's recorded length and the validator accepts it. */
  predicate Improves(ctx: SolverContext, route: Route, i: nat, j: nat)
    requires i <= j < |route.stops|
  {
    var c := Candidate(ctx, route, i, j);
    c.totalDistanceKm < route.totalDistanceKm && Validator.Validate(c, ctx.timeMatrix, ValidationServiceMinutes).0
  }

  /** The route after taking the candidate (i, j): its stops as the validator stamped
      them, its length and its duration; the other fields are kept. */
  function Accepted(ctx: SolverContext, route: Route, i: nat, j: nat): Route
    requires i <= j < |route.stops|
  {
    var c := Candidate(ctx, route, i, j);
    var v := Validator.Validate(c, ctx.timeMatrix, ValidationServiceMinutes).2;
    route.(stops := v.stops, totalDistanceKm := c.totalDistanceKm, totalDurationMinutes := v.totalDurationMinutes)
  }

  /** The pairs one 2-opt pass scans: i from 1 while i + 2 < n, j from i + 1 to n - 1. */
  predicate InPass(n: nat, a: nat, b: nat)
  {
    1 <= a && a + 2 < n && a < b < n
  }

  /** (a, b) comes no earlier than (i, j) in the scan order. */
  predicate NotBefore(i: nat, j: nat, a: nat, b: nat)
  {
    i < a || (i == a && j <= b)
  }

  /** The first pair (a, b) in scan order from (i, j) on for which `ok(a, b)` holds. */
  function Scan(n: nat, ok: (nat, nat) -> bool, i: nat, j: nat): (p: Option<(nat, nat)>)
    requires 1 <= i < j
    ensures p.Some? ==> InPass(n, p.value.0, p.value.1) && NotBefore(i, j, p.value.0, p.value.1)
                        && ok(p.value.0, p.value.1)
    decreases n - i, n - j
  {
    if i + 2 >= n then None
    else if j >= n then Scan(n, ok, i + 1, i + 2)
    else if ok(i, j) then Some((i, j))
    else Scan(n, ok, i, j + 1)
  }

  /** No pair the scan passes over before the one it returns satisfies `ok`; when it
      returns none, no pair from (i, j) on does. */
  lemma {:induction false} ScanIsFirst(n: nat, ok: (nat, nat) -> bool, i: nat, j: nat)
    requires 1 <= i < j
    ensures match Scan(n, ok, i, j)
            case Some(p) =>
              forall a: nat, b: nat :: InPass(n, a, b) && NotBefore(i, j, a, b) && (a < p.0 || (a == p.0 && b < p.1)) ==> !ok(a, b)
            case None =>
              forall a: nat, b: nat :: InPass(n, a, b) && NotBefore(i, j, a, b) ==> !ok(a, b)
    decreases n - i, n - j
  {
    if i + 2 >= n {
    } else if j >= n {
      ScanIsFirst(n, ok, i + 1, i + 2);
    } else if !ok(i, j) {
      ScanIsFirst(n, ok, i, j + 1);
    }
  }

  /** `Improves` for every pair, false outside the route. */
  function ImprovingPairs(ctx: SolverContext, route: Route): (nat, nat) -> bool
  {
    (a: nat, b: nat) => a <= b < |route.stops| && Improves(ctx, route, a, b)
  }

  /** The pair one pass of `_two_opt_improve` takes, if any. */
  function FirstImproving(ctx: SolverContext, route: Route): (p: Option<(nat, nat)>)
    ensures p.Some? ==> InPass(|route.stops|, p.value.0, p.value.1)
  {
    Scan(|route.stops|, ImprovingPairs(ctx, route), 1, 2)
  }

  /** The pair a pass takes improves the route, and no pair scanned before it does; when a
      pass takes none, no pair of the pass improves the route. */
  lemma FirstImprovingIsFirst(ctx: SolverContext, route: Route)
    ensures var n := |route.stops|;
            match FirstImproving(ctx, route)
            case Some(p) =>
              && Improves(ctx, route, p.0, p.1)
              && forall a: nat, b: nat :: InPass(n, a, b) && (a < p.0 || (a == p.0 && b < p.1)) ==> !Improves(ctx, route, a, b)
            case None =>
              forall a: nat, b: nat :: InPass(n, a, b) ==> !Improves(ctx, route, a, b)
  {
    var n, ok := |route.stops|, ImprovingPairs(ctx, route);
    ScanIsFirst(n, ok, 1, 2);
    assert forall a: nat, b: nat :: InPass(n, a, b) ==> NotBefore(1, 2, a, b);
    assert forall a: nat, b: nat :: InPass(n, a, b) ==> (ok(a, b) <==> Improves(ctx, route, a, b));
  }

  /** `new_route` of the 2-opt loop for the pair (i, j). */
  method BuildCandidate(ctx: SolverContext, route: Route, i: nat, j: nat) returns (c: Route)
    requires i <= j < |route.stops|
    ensures c == Candidate(ctx, route, i, j)
  {
    var newStops := route.stops[..i] + Reverse(route.stops[i..j + 1]) + route.stops[j + 1..];
    c := NewRoute(route.vehicle, route.day).(depotDeparture := route.depotDeparture);
    c := AddStops(c, newStops);
    c := UpdateRouteMetrics(ctx, c);
  }

  /** The body of the inner 2-opt loop for the pair (i, j): the route that takes the
      candidate when it is shorter and valid, none otherwise. */
  method TryPair(ctx: SolverContext, route: Route, i: nat, j: nat) returns (taken: Option<Route>)
    requires i <= j < |route.stops|
    ensures taken.Some? <==> Improves(ctx, route, i, j)
    ensures taken.Some? ==> taken.value == Accepted(ctx, route, i, j)
  {
    var c := BuildCandidate(ctx, route, i, j);
    if c.totalDistanceKm < route.totalDistanceKm {
      var valid, violations, stamped := Validator.ValidateRoute(c, ctx.timeMatrix, ValidationServiceMinutes);
      if valid {
        return Some(route.(stops := stamped.stops, totalDistanceKm := c.totalDistanceKm,
                           totalDurationMinutes := stamped.totalDurationMinutes));
      }
    }
    return None;
  }

  /** The route one pass of `_two_opt_improve` leaves when it takes a pair; none when
      no pair of the pass improves the route. */
  function PassResult(ctx: SolverContext, route: Route): Option<Route>
  {
    var found := FirstImproving(ctx, route);
    if found.None? then None
    else
      var i, j := found.value.0, found.value.1;
      assert InPass(|route.stops|, i, j);
      Some(Accepted(ctx, route, i, j))
  }

  /** One pass as a step of an iteration. */
  function PassStep(ctx: SolverContext): Route -> Option<Route>
  {
    (r: Route) => PassResult(ctx, r)
  }

  /** The inner loop of a 2-opt pass for a fixed i: the route that takes the first
      improving pair (i, j), or none when the scan moves on to i + 1. */
  method ScanRow(ctx: SolverContext, route: Route, i: nat) returns (taken: Option<Route>)
    requires 1 <= i && i + 2 < |route.stops|
    ensures var n, ok := |route.stops|, ImprovingPairs(ctx, route);
            taken.None? ==> Scan(n, ok, i, i + 1) == Scan(n, ok, i + 1, i + 2)
    ensures var n, ok := |route.stops|, ImprovingPairs(ctx, route);
            taken.Some? ==> && Scan(n, ok, i, i + 1).Some?
                            && var p := Scan(n, ok, i, i + 1).value;
                               p.0 <= p.1 < n && taken.value == Accepted(ctx, route, p.0, p.1)
  {
    var n := |route.stops|;
    ghost var ok := ImprovingPairs(ctx, route);
    var j := i + 1;
    while j < n
      invariant i < j <= n
      invariant Scan(n, ok, i, i + 1) == Scan(n, ok, i, j)
    {
      taken := TryPair(ctx, route, i, j);
      if taken.Some? {
        assert ok(i, j);
        return;
      }
      assert !ok(i, j);
      j := j + 1;
    }
    return None;
  }

  /** One pass of the `while improved` loop of `_two_opt_improve`: the first pair in scan
      order whose candidate is shorter and valid is taken; without one the route stays. */
  method TwoOptPass(ctx: SolverContext, route: Route) returns (route': Route, improved: bool)
    ensures PassResult(ctx, route) == if improved then Some(route') else None
    ensures !improved ==> route' == route
  {
    var n := |route.stops|;
    ghost var ok := ImprovingPairs(ctx, route);
    var i := 1;
    while i + 2 < n
      invariant 1 <= i
      invariant FirstImproving(ctx, route) == Scan(n, ok, i, i + 1)
    {
      var taken := ScanRow(ctx, route, i);
      if taken.Some? {
        return taken.value, true;
      }
      i := i + 1;
    }
    return route, false;
  }

  /** At most `passes` more passes, each taking the first improving pair, stopping at the
      first pass that finds none. */
  function TwoOptFrom(ctx: SolverContext, route: Route, passes: nat): Route
  {
    Iterate(PassStep(ctx), route, passes)
  }

  /** The route after `_two_opt_improve`: unchanged under four stops, else at most 100 passes. */
  function TwoOpt(ctx: SolverContext, route: Route): Route
  {
    if |route.stops| < 4 then route else TwoOptFrom(ctx, route, MaxTwoOptPasses)
  }

  /** `step` is one 2-opt pass, stated on each route a pass is made on. */
  ghost predicate IsPassStep(ctx: SolverContext, step: Route -> Option<Route>)
  {
    forall r {:trigger PassResult(ctx, r)} :: step(r) == PassResult(ctx, r)
  }

  lemma PassStepIs(ctx: SolverContext)
    ensures IsPassStep(ctx, PassStep(ctx))
  {
  }

  /** The `while improved and iteration < max_iterations` loop of `_two_opt_improve`. */
  method TwoOptPasses(ctx: SolverContext, route: Route, ghost step: Route -> Option<Route>) returns (route': Route)
    requires IsPassStep(ctx, step)
    ensures route' == Iterate(step, route, MaxTwoOptPasses)
  {
    route' := route;
    var improved := true;
    var iteration := 0;
    while improved && iteration < MaxTwoOptPasses
      invariant 0 <= iteration <= MaxTwoOptPasses
      invariant Iterate(step, route, MaxTwoOptPasses)
                == if improved then Iterate(step, route', MaxTwoOptPasses - iteration) else route'
    {
      iteration := iteration + 1;
      route', improved := TwoOptPass(ctx, route');
    }
  }

  method TwoOptImprove(ctx: SolverContext, route: Route) returns (route': Route)
    ensures route' == TwoOpt(ctx, route)
  {
    if |route.stops| < 4 {
      return route;
    }
    PassStepIs(ctx);
    route' := TwoOptPasses(ctx, route, PassStep(ctx));
  }

  /** Taking the candidate (i, j) changes only the route's stops, length and duration,
      and the new stops visit the stores with those from i to j reversed. */
  lemma AcceptedStops(ctx: SolverContext, route: Route, i: nat, j: nat)
    requires i <= j < |route.stops|
    ensures var r' := Accepted(ctx, route, i, j);
            && r' == route.(stops := r'.stops, totalDistanceKm := r'.totalDistanceKm,
                            totalDurationMinutes := r'.totalDurationMinutes)
            && StoresOf(r'.stops) == StoresOf(SegmentReversed(route.stops, i, j))
  {
    var stores := StoresOf(SegmentReversed(route.stops, i, j));
    var c := Candidate(ctx, route, i, j);
    RebuiltFacts(ctx, route, stores);
    Validator.TimeWindowCheckKeeps(c, ctx.timeMatrix, ValidationServiceMinutes);
    assert Validator.Validate(c, ctx.timeMatrix, ValidationServiceMinutes).2
        == Validator.TimeWindowCheck(c, ctx.timeMatrix, ValidationServiceMinutes).1;
  }

  /** Reversing the stops from i to j reverses their store ids from i to j. */
  lemma ReversedIds(route: Route, i: nat, j: nat, stops: seq<RouteStop>)
    requires i <= j < |route.stops|
    requires StoresOf(stops) == StoresOf(SegmentReversed(route.stops, i, j))
    ensures IdsOf(StoresOf(stops)) == SegmentReversed(StoreIds(route), i, j)
  {
  }

  /** Taking the candidate (i, j), i >= 1, reverses the route's store ids from i to j and
      keeps the first stop; an improving candidate makes the route strictly shorter and
      its vehicle may serve every stop. */
  lemma AcceptedFacts(ctx: SolverContext, route: Route, i: nat, j: nat)
    requires 1 <= i <= j < |route.stops|
    ensures var r' := Accepted(ctx, route, i, j);
            && r' == route.(stops := r'.stops, totalDistanceKm := r'.totalDistanceKm,
                            totalDurationMinutes := r'.totalDurationMinutes)
            && StoreIds(r') == SegmentReversed(StoreIds(route), i, j)
            && multiset(StoreIds(r')) == multiset(StoreIds(route))
            && r'.stops[0].store == route.stops[0].store
            && (Improves(ctx, route, i, j) ==>
                  && r'.totalDistanceKm < route.totalDistanceKm
                  && forall k :: 0 <= k < |r'.stops| ==> r'.vehicle.CanServeStore(r'.stops[k].store.id))
  {
    var r' := Accepted(ctx, route, i, j);
    AcceptedStops(ctx, route, i, j);
    ReversedIds(route, i, j, r'.stops);
    StoreIdsOfStores(r');
    SegmentReversedMultiset(StoreIds(route), i, j);
    assert StoresOf(r'.stops)[0] == route.stops[0].store;
    if Improves(ctx, route, i, j) {
      AcceptedServes(ctx, route, i, j);
    }
  }

  /** When the candidate (i, j) is valid, the vehicle may serve every stop of the route
      that takes it. */
  lemma AcceptedServes(ctx: SolverContext, route: Route, i: nat, j: nat)
    requires i <= j < |route.stops| && Improves(ctx, route, i, j)
    ensures var r' := Accepted(ctx, route, i, j);
            forall k :: 0 <= k < |r'.stops| ==> r'.vehicle.CanServeStore(r'.stops[k].store.id)
  {
    var c := Candidate(ctx, route, i, j);
    var r' := Accepted(ctx, route, i, j);
    Validator.ValidExactlyWhenAllHold(c, ctx.timeMatrix, ValidationServiceMinutes);
    RebuiltFacts(ctx, route, StoresOf(SegmentReversed(route.stops, i, j)));
    AcceptedStops(ctx, route, i, j);
    assert StoresOf(r'.stops) == StoresOf(c.stops);
    forall k | 0 <= k < |r'.stops| ensures r'.vehicle.CanServeStore(r'.stops[k].store.id) {
      assert StoresOf(r'.stops)[k] == StoresOf(c.stops)[k];
    }
  }

  /** The route differs from `base` in its stops, length and duration at most. */
  predicate OnlyPathChanged(r: Route, base: Route)
  {
    r == base.(stops := r.stops, totalDistanceKm := r.totalDistanceKm, totalDurationMinutes := r.totalDurationMinutes)
  }

  /** The pair a pass takes is an improving one. */
  lemma FirstImprovingImproves(ctx: SolverContext, route: Route)
    requires FirstImproving(ctx, route).Some?
    ensures var p := FirstImproving(ctx, route).value;
            p.0 <= p.1 < |route.stops| && Improves(ctx, route, p.0, p.1)
  {
  }

  /** A pass that takes a pair keeps the number of stops, the multiset of store ids and
      the first stop, changes only the route's path, length and duration, makes the route
      strictly shorter and keeps a sound route sound. */
  lemma PassKeeps(ctx: SolverContext, route: Route)
    requires PassResult(ctx, route).Some?
    ensures var r' := PassResult(ctx, route).value;
            && |r'.stops| == |route.stops|
            && multiset(StoreIds(r')) == multiset(StoreIds(route))
            && OnlyPathChanged(r', route)
            && r'.totalDistanceKm < route.totalDistanceKm
            && r'.stops[0].store == route.stops[0].store
            && (Sound(route) ==> Sound(r'))
  {
    var p := FirstImproving(ctx, route).value;
    FirstImprovingImproves(ctx, route);
    AcceptedFacts(ctx, route, p.0, p.1);
  }

  /** What the 2-opt passes keep of the route they start from. */
  ghost predicate KeepsShape(route: Route, r: Route)
  {
    && |r.stops| == |route.stops|
    && multiset(StoreIds(r)) == multiset(StoreIds(route))
    && OnlyPathChanged(r, route)
    && r.totalDistanceKm <= route.totalDistanceKm
    && (route.stops != [] ==> r.stops[0].store == route.stops[0].store)
  }

  lemma PassesKeepShape(ctx: SolverContext, route: Route, step: Route -> Option<Route>, passes: nat)
    requires IsPassStep(ctx, step)
    ensures KeepsShape(route, Iterate(step, route, passes))
  {
    var inv := (r: Route) => KeepsShape(route, r);
    forall a | inv(a) && step(a).Some?
      ensures inv(step(a).value)
    {
      PassKeeps(ctx, a);
    }
    IterateKeeps(step, inv, route, passes);
  }

  /** The 2-opt passes keep the number of stops, the multiset of store ids, the first stop,
      the vehicle, day, load and depot times, and never lengthen the route. */
  lemma TwoOptFromFacts(ctx: SolverContext, route: Route, passes: nat)
    ensures var r' := TwoOptFrom(ctx, route, passes);
            && |r'.stops| == |route.stops|
            && multiset(StoreIds(r')) == multiset(StoreIds(route))
            && OnlyPathChanged(r', route)
            && r'.totalDistanceKm <= route.totalDistanceKm
            && (route.stops != [] ==> r'.stops[0].store == route.stops[0].store)
  {
    PassStepIs(ctx);
    PassesKeepShape(ctx, route, PassStep(ctx), passes);
  }

  lemma PassesKeepSound(ctx: SolverContext, route: Route, step: Route -> Option<Route>, passes: nat)
    requires IsPassStep(ctx, step) && Sound(route)
    ensures Sound(Iterate(step, route, passes))
  {
    var inv := (r: Route) => Sound(r);
    forall a | inv(a) && step(a).Some?
      ensures inv(step(a).value)
    {
      PassKeeps(ctx, a);
    }
    IterateKeeps(step, inv, route, passes);
  }

  /** The 2-opt passes keep a sound route sound. */
  lemma TwoOptFromSound(ctx: SolverContext, route: Route, passes: nat)
    requires Sound(route)
    ensures Sound(TwoOptFrom(ctx, route, passes))
  {
    PassStepIs(ctx);
    PassesKeepSound(ctx, route, PassStep(ctx), passes);
  }

  /** The number of improving moves the passes take. */
  function TwoOptMoves(ctx: SolverContext, route: Route, passes: nat): nat
  {
    Steps(PassStep(ctx), route, passes)
  }

  /** Unless every pass took a move, 2-opt stops at a local optimum: no pair of a pass
      improves the final route. Every move taken makes the route strictly shorter. */
  lemma TwoOptLocalOptimum(ctx: SolverContext, route: Route, passes: nat)
    ensures var r' := TwoOptFrom(ctx, route, passes);
            && (TwoOptMoves(ctx, route, passes) < passes ==>
                  forall a: nat, b: nat :: InPass(|r'.stops|, a, b) ==> !Improves(ctx, r', a, b))
            && (TwoOptMoves(ctx, route, passes) > 0 ==> r'.totalDistanceKm < route.totalDistanceKm)
  {
    var r' := TwoOptFrom(ctx, route, passes);
    IterateStops(PassStep(ctx), route, passes);
    FirstImprovingIsFirst(ctx, r');
    var m := (r: Route) => r.totalDistanceKm;
    forall a | PassStep(ctx)(a).Some?
      ensures m(PassStep(ctx)(a).value) < m(a)
    {
      PassKeeps(ctx, a);
    }
    IterateDecreases(PassStep(ctx), m, route, passes);
  }

  /** Each route after `_two_opt_improve`, in order. */
  function TwoOptAll(ctx: SolverContext, routes: seq<Route>): (rs: seq<Route>)
    ensures |rs| == |routes|
  {
    if routes == [] then [] else TwoOptAll(ctx, routes[..|routes| - 1]) + [TwoOpt(ctx, routes[|routes| - 1])]
  }

  lemma {:induction false} TwoOptAllAt(ctx: SolverContext, routes: seq<Route>, k: nat)
    requires k < |routes|
    ensures TwoOptAll(ctx, routes)[k] == TwoOpt(ctx, routes[k])
  {
    if k < |routes| - 1 {
      TwoOptAllAt(ctx, routes[..|routes| - 1], k);
    }
  }

  /** 2-opt keeps the multiset of a route's store ids and keeps a sound route sound. */
  lemma TwoOptKeeps(ctx: SolverContext, route: Route)
    ensures multiset(StoreIds(TwoOpt(ctx, route))) == multiset(StoreIds(route))
    ensures Sound(route) ==> Sound(TwoOpt(ctx, route))
  {
    if |route.stops| >= 4 {
      TwoOptFromFacts(ctx, route, MaxTwoOptPasses);
      if Sound(route) {
        TwoOptFromSound(ctx, route, MaxTwoOptPasses);
      }
    }
  }

  /** Routes that agree, position by position, on their multisets of store ids serve the
      same multiset of store ids. */
  lemma {:induction false} ServedIdsAgree(a: seq<Route>, b: seq<Route>)
    requires |a| == |b|
    requires forall k :: 0 <= k < |a| ==> multiset(StoreIds(a[k])) == multiset(StoreIds(b[k]))
    ensures multiset(ServedIds(a)) == multiset(ServedIds(b))
  {
    if a != [] {
      ServedIdsAgree(a[..|a| - 1], b[..|b| - 1]);
    }
  }

  /** The validator's verdict on a route: whether it is valid, its violations, and the
      route with its stops stamped. */
  type Verdict = (bool, seq<Validator.Violation>, Route)

  /** `self.validator.validate_route` as `solve` calls it. */
  function RouteCheck(ctx: SolverContext): Route -> Verdict
  {
    (r: Route) => Validator.Validate(r, ctx.timeMatrix, ValidationServiceMinutes)
  }

  /** The routes as the validation loop of `solve` leaves them: `validate_route` stamps the
      arrival and departure times of each route's stops in place. */
  function StampedAll(check: Route -> Verdict, routes: seq<Route>): (rs: seq<Route>)
    ensures |rs| == |routes|
  {
    if routes == [] then [] else StampedAll(check, routes[..|routes| - 1]) + [check(routes[|routes| - 1]).2]
  }

  /** The violations of the routes the validator rejects, route after route. */
  function Failures(check: Route -> Verdict, routes: seq<Route>): seq<Validator.Violation>
  {
    if routes == [] then []
    else
      var v := check(routes[|routes| - 1]);
      Failures(check, routes[..|routes| - 1]) + (if v.0 then [] else v.1)
  }

  /** Every route passes the validator. */
  predicate AllValid(check: Route -> Verdict, routes: seq<Route>)
  {
    routes == [] || (AllValid(check, routes[..|routes| - 1]) && check(routes[|routes| - 1]).0)
  }

  lemma {:induction false} AllValidMeans(check: Route -> Verdict, routes: seq<Route>)
    ensures AllValid(check, routes) <==> forall k :: 0 <= k < |routes| ==> check(routes[k]).0
  {
    if routes != [] {
      var init := routes[..|routes| - 1];
      AllValidMeans(check, init);
      assert forall k :: 0 <= k < |init| ==> init[k] == routes[k];
    }
  }

  lemma CheckedSnoc(check: Route -> Verdict, routes: seq<Route>, r: Route)
    ensures StampedAll(check, routes + [r]) == StampedAll(check, routes) + [check(r).2]
    ensures AllValid(check, routes + [r]) == (AllValid(check, routes) && check(r).0)
    ensures Failures(check, routes + [r]) == Failures(check, routes) + (if check(r).0 then [] else check(r).1)
  {
    assert (routes + [r])[..|routes|] == routes;
  }

  /** A verdict that reports a route valid exactly when it lists no violation. */
  ghost predicate Consistent(check: Route -> Verdict)
  {
    forall r :: check(r).0 <==> check(r).1 == []
  }

  /** The validator reports a route valid exactly when it lists no violation. */
  lemma RouteCheckConsistent(ctx: SolverContext)
    ensures Consistent(RouteCheck(ctx))
  {
  }

  /** No violation is collected exactly when every route passes. */
  lemma {:induction false} FailuresEmpty(check: Route -> Verdict, routes: seq<Route>)
    requires Consistent(check)
    ensures Failures(check, routes) == [] <==> AllValid(check, routes)
  {
    if routes != [] {
      var init := routes[..|routes| - 1];
      FailuresEmpty(check, init);
    }
  }

  /** Stamping keeps a route's stores, vehicle and load, hence its store ids and its
      soundness. */
  ghost predicate KeepsStores(check: Route -> Verdict)
  {
    forall r :: StoreIds(check(r).2) == StoreIds(r) && (Sound(r) ==> Sound(check(r).2))
  }

  lemma RouteCheckKeepsStores(ctx: SolverContext)
    ensures KeepsStores(RouteCheck(ctx))
  {
    forall r ensures StoreIds(RouteCheck(ctx)(r).2) == StoreIds(r) && (Sound(r) ==> Sound(RouteCheck(ctx)(r).2)) {
      var r' := Validator.Validate(r, ctx.timeMatrix, ValidationServiceMinutes).2;
      Validator.TimeWindowCheckKeeps(r, ctx.timeMatrix, ValidationServiceMinutes);
      Validator.SameStores(r.stops, r'.stops);
    }
  }

  /** Stamping every route keeps the store ids served and the soundness of each route. */
  lemma {:induction false} StampedAllKeeps(check: Route -> Verdict, routes: seq<Route>)
    requires KeepsStores(check)
    ensures ServedIds(StampedAll(check, routes)) == ServedIds(routes)
    ensures forall k :: 0 <= k < |routes| && Sound(routes[k]) ==> Sound(StampedAll(check, routes)[k])
  {
    if routes != [] {
      var init := routes[..|routes| - 1];
      StampedAllKeeps(check, init);
      assert StampedAll(check, routes)[..|routes| - 1] == StampedAll(check, init);
    }
  }

  /** `[s for s in self.stores if s.is_day_allowed(day)]`. */
  function AvailableStores(stores: seq<Store>, day: string): seq<Store>
  {
    if stores == [] then []
    else
      var last := stores[|stores| - 1];
      AvailableStores(stores[..|stores| - 1], day) + (if last.IsDayAllowed(day) then [last] else [])
  }

  /** The available stores are the stores that allow the day. */
  lemma {:induction false} AvailableStoresMembers(stores: seq<Store>, day: string)
    ensures forall s :: s in AvailableStores(stores, day) <==> s in stores && s.IsDayAllowed(day)
  {
    if stores != [] {
      AvailableStoresMembers(stores[..|stores| - 1], day);
      assert stores == stores[..|stores| - 1] + [stores[|stores| - 1]];
    }
  }

  /** The start time `solve` uses: the one given, else 08:00. */
  function StartOf(start: Option<real>): real
  {
    if start.Some? then start.value else DefaultStartMinutes
  }

  /** The routes of `solve` before validation: the initial routes merged by decreasing
      saving, improved by 2-opt and refreshed by `_create_solution`. */
  function Planned(ctx: SolverContext, stores: seq<Store>, day: string, start: real): seq<Route>
  {
    var initial := InitialRoutes(ctx, stores, day, start);
    RefreshedAll(ctx, TwoOptAll(ctx, MergedRoutes(ctx, initial)))
  }

  /** The solution `solve` returns. With no store allowing the day it is empty and lists
      every store as unserved; otherwise it holds the planned routes with their metrics,
      stamped by the validator, and is feasible when the validator accepts every route. */
  function Solved(ctx: SolverContext, day: string, start: Option<real>): Solution
  {
    var available := AvailableStores(ctx.stores, day);
    if available == [] then NewSolution([], day, IdsOf(ctx.stores))
    else
      Validated(ctx, Planned(ctx, available, day, StartOf(start)), day)
  }

  /** `_create_solution` on the routes followed by the validation loop of `solve`. */
  function Validated(ctx: SolverContext, routes: seq<Route>, day: string): Solution
  {
    var s := WithMetrics(NewSolution(routes, day, []));
    var check := RouteCheck(ctx);
    s.(routes := StampedAll(check, routes), isFeasible := AllValid(check, routes),
       constraintViolations := Failures(check, routes))
  }

  /** Validation keeps the store ids served and the soundness of every route, and the
      solution is feasible exactly when no violation is recorded. */
  lemma ValidatedFacts(ctx: SolverContext, routes: seq<Route>, day: string)
    ensures var s := Validated(ctx, routes, day);
            && s.day == day && s.unservedStores == [] && s.numVehiclesUsed == |s.routes|
            && ServedIds(s.routes) == ServedIds(routes)
            && (s.isFeasible <==> s.constraintViolations == [])
            && forall k :: 0 <= k < |routes| && Sound(routes[k]) ==> Sound(s.routes[k])
  {
    RouteCheckConsistent(ctx);
    FailuresEmpty(RouteCheck(ctx), routes);
    RouteCheckKeepsStores(ctx);
    StampedAllKeeps(RouteCheck(ctx), routes);
  }

  /** `solve`. */
  method Solve(ctx: SolverContext, day: string, start: Option<real>) returns (s: Solution)
    ensures s == Solved(ctx, day, start)
  {
    var t := if start.Some? then start.value else DefaultStartMinutes;
    var available := AvailableStores(ctx.stores, day);
    if available == [] {
      return NewSolution([], day, IdsOf(ctx.stores));
    }
    var routes := CreateInitialRoutes(ctx, available, day, t);
    var savings := CalculateSavings(ctx, routes);
    var merged := MergeRoutes(ctx, routes, savings);
    var improved := ImproveAll(ctx, merged);
    s := CreateSolution(ctx, improved, day);
    assert s.routes == RefreshedAll(ctx, improved);
    RouteCheckIs(ctx);
    var stamped, feasible, violations := ValidateRoutes(ctx, s.routes, RouteCheck(ctx));
    s := s.(routes := stamped, isFeasible := feasible, constraintViolations := violations);
  }

  /** The `for route in routes: self._two_opt_improve(route)` loop of `solve`. */
  method ImproveAll(ctx: SolverContext, routes: seq<Route>) returns (improved: seq<Route>)
    ensures improved == TwoOptAll(ctx, routes)
  {
    improved := [];
    var k := 0;
    while k < |routes|
      invariant 0 <= k <= |routes|
      invariant improved == TwoOptAll(ctx, routes[..k])
    {
      assert routes[..k + 1][..k] == routes[..k];
      var r := TwoOptImprove(ctx, routes[k]);
      improved := improved + [r];
      k := k + 1;
    }
    assert routes[..k] == routes;
  }

  /** `check` is the validator of `solve`, stated on each route the validator is run on. */
  ghost predicate IsRouteCheck(ctx: SolverContext, check: Route -> Verdict)
  {
    forall r {:trigger Validator.Validate(r, ctx.timeMatrix, ValidationServiceMinutes)} ::
      check(r) == Validator.Validate(r, ctx.timeMatrix, ValidationServiceMinutes)
  }

  lemma RouteCheckIs(ctx: SolverContext)
    ensures IsRouteCheck(ctx, RouteCheck(ctx))
  {
  }

  /** The validation loop of `solve`: each route is stamped by the validator, and a route
      it rejects makes the solution infeasible and adds its violations. */
  method ValidateRoutes(ctx: SolverContext, routes: seq<Route>, ghost check: Route -> Verdict)
    returns (stamped: seq<Route>, feasible: bool, violations: seq<Validator.Violation>)
    requires IsRouteCheck(ctx, check)
    ensures stamped == StampedAll(check, routes)
    ensures feasible == AllValid(check, routes)
    ensures violations == Failures(check, routes)
  {
    stamped, feasible, violations := [], true, [];
    var k := 0;
    while k < |routes|
      invariant 0 <= k <= |routes|
      invariant stamped == StampedAll(check, routes[..k])
      invariant feasible == AllValid(check, routes[..k])
      invariant violations == Failures(check, routes[..k])
    {
      var valid, vs, r' := Validator.ValidateRoute(routes[k], ctx.timeMatrix, ValidationServiceMinutes);
      CheckedSnoc(check, routes[..k], routes[k]);
      assert routes[..k + 1] == routes[..k] + [routes[k]];
      stamped := stamped + [r'];
      if !valid {
        feasible := false;
        violations := violations + vs;
      }
      k := k + 1;
    }
    assert routes[..k] == routes;
  }

  /** The merged routes of `solve`: the initial routes merged by decreasing saving. */
  function MergedRoutes(ctx: SolverContext, initial: seq<Route>): seq<Route>
  {
    var savings := SortByKey(AllSavings(ctx, initial, |initial|), NegatedValue);
    ActiveList(MergeAll(ctx, Indexed(initial), savings), |initial|)
  }

  /** Merging by the savings list keeps the multiset of store ids served, and sound routes
      stay sound. */
  lemma MergedRoutesKeep(ctx: SolverContext, initial: seq<Route>)
    ensures multiset(ServedIds(MergedRoutes(ctx, initial))) == multiset(ServedIds(initial))
    ensures (forall r :: r in initial ==> Sound(r)) ==>
              forall k :: 0 <= k < |MergedRoutes(ctx, initial)| ==> Sound(MergedRoutes(ctx, initial)[k])
  {
    var savings := SortByKey(AllSavings(ctx, initial, |initial|), NegatedValue);
    SavingsListMembers(ctx, initial);
    forall t | 0 <= t < |savings| ensures savings[t].i != savings[t].j {
      assert savings[t] in savings;
      assert IsSaving(ctx, initial, savings[t]);
    }
    MergeKeepsStores(ctx, initial, savings);
    if forall r :: r in initial ==> Sound(r) {
      MergedRoutesSound(ctx, initial, savings);
      var merged := MergedRoutes(ctx, initial);
      forall k | 0 <= k < |merged| ensures Sound(merged[k]) {
        assert merged[k] in merged;
      }
    }
  }

  /** 2-opt on every route keeps the multiset of store ids served and the soundness of
      each route. */
  lemma TwoOptAllKeeps(ctx: SolverContext, routes: seq<Route>)
    ensures multiset(ServedIds(TwoOptAll(ctx, routes))) == multiset(ServedIds(routes))
    ensures forall k :: 0 <= k < |routes| && Sound(routes[k]) ==> Sound(TwoOptAll(ctx, routes)[k])
  {
    var improved := TwoOptAll(ctx, routes);
    forall k | 0 <= k < |routes|
      ensures multiset(StoreIds(improved[k])) == multiset(StoreIds(routes[k]))
      ensures Sound(routes[k]) ==> Sound(improved[k])
    {
      TwoOptAllAt(ctx, routes, k);
      TwoOptKeeps(ctx, routes[k]);
    }
    ServedIdsAgree(improved, routes);
  }

  /** Refreshing the metrics keeps every route sound. */
  lemma RefreshedAllSound(ctx: SolverContext, routes: seq<Route>)
    ensures forall k :: 0 <= k < |routes| && Sound(routes[k]) ==> Sound(RefreshedAll(ctx, routes)[k])
  {
    forall k | 0 <= k < |routes| {
      RefreshedAllAt(ctx, routes, k);
    }
  }

  /** The planned routes serve, as a multiset, exactly the ids of the stores with a
      compatible vehicle, and every planned route is sound. */
  lemma PlannedFacts(ctx: SolverContext, stores: seq<Store>, day: string, start: real)
    ensures var routes := Planned(ctx, stores, day, start);
            && multiset(ServedIds(routes)) == multiset(IdsOf(Servable(ctx.vehicles, stores)))
            && forall k :: 0 <= k < |routes| ==> Sound(routes[k])
  {
    var initial := InitialRoutes(ctx, stores, day, start);
    var merged := MergedRoutes(ctx, initial);
    var improved := TwoOptAll(ctx, merged);
    InitialRoutesServe(ctx, stores, day, start);
    InitialRoutesSound(ctx, stores, day, start);
    MergedRoutesKeep(ctx, initial);
    TwoOptAllKeeps(ctx, merged);
    RefreshedAllKeepsStops(ctx, improved);
    RefreshedAllSound(ctx, improved);
  }

  /** The servable stores are the given stores some vehicle is compatible with. */
  lemma {:induction false} ServableMembers(vehicles: seq<Vehicle>, stores: seq<Store>)
    ensures forall s :: s in Servable(vehicles, stores) <==> s in stores && CompatibleVehicle(vehicles, s).Some?
  {
    if stores != [] {
      ServableMembers(vehicles, stores[..|stores| - 1]);
      SelectSnoc(stores[..|stores| - 1], stores[|stores| - 1], ServableStore(vehicles));
      assert stores == stores[..|stores| - 1] + [stores[|stores| - 1]];
    }
  }

  /** What `solve` returns. Without a store that allows the day: no routes, every store
      unserved, feasible. Otherwise: no store is reported unserved, the routes serve, as a
      multiset, the ids of the available stores that have a compatible vehicle, every
      route fits its vehicle, which may serve all its stops, one vehicle is counted per
      route, and the solution is feasible exactly when no violation was recorded. */
  lemma SolveFacts(ctx: SolverContext, day: string, start: Option<real>)
    requires AvailableStores(ctx.stores, day) != []
    ensures var s, available := Solved(ctx, day, start), AvailableStores(ctx.stores, day);
            && s.day == day
            && s.numVehiclesUsed == |s.routes|
            && (s.isFeasible <==> s.constraintViolations == [])
            && s.unservedStores == []
            && multiset(ServedIds(s.routes)) == multiset(IdsOf(Servable(ctx.vehicles, available)))
            && forall k :: 0 <= k < |s.routes| ==> Sound(s.routes[k])
  {
    var available := AvailableStores(ctx.stores, day);
    var routes := Planned(ctx, available, day, StartOf(start));
    PlannedFacts(ctx, available, day, StartOf(start));
    ValidatedFacts(ctx, routes, day);
  }

  /** Without a store that allows the day, `solve` returns an empty, feasible solution
      that lists every store as unserved. */
  lemma SolveEmpty(ctx: SolverContext, day: string, start: Option<real>)
    requires AvailableStores(ctx.stores, day) == []
    ensures var s := Solved(ctx, day, start);
            && s.day == day && s.routes == [] && s.numVehiclesUsed == 0
            && s.isFeasible && s.constraintViolations == []
            && s.unservedStores == IdsOf(ctx.stores)
  {
  }

  /** Every store id a route of `solve` visits belongs to a store of the problem that
      allows the day and has a compatible vehicle. */
  lemma SolveServesAvailable(ctx: SolverContext, day: string, start: Option<real>)
    ensures var s := Solved(ctx, day, start);
            forall id :: id in ServedIds(s.routes) ==>
              exists st :: st in ctx.stores && st.id == id && st.IsDayAllowed(day)
                           && CompatibleVehicle(ctx.vehicles, st).Some?
  {
    var s, available := Solved(ctx, day, start), AvailableStores(ctx.stores, day);
    if available != [] {
      SolveFacts(ctx, day, start);
      var servable := Servable(ctx.vehicles, available);
      AvailableStoresMembers(ctx.stores, day);
      ServableMembers(ctx.vehicles, available);
      forall id | id in ServedIds(s.routes)
        ensures exists st :: st in ctx.stores && st.id == id && st.IsDayAllowed(day)
                             && CompatibleVehicle(ctx.vehicles, st).Some?
      {
        assert id in multiset(IdsOf(servable));
        var k :| 0 <= k < |IdsOf(servable)| && IdsOf(servable)[k] == id;
        assert servable[k] in servable;
      }
    }
  }

  /** The solution of `solve` is feasible exactly when the validator accepts every route
      it was given. */
  lemma SolveFeasible(ctx: SolverContext, day: string, start: Option<real>)
    requires AvailableStores(ctx.stores, day) != []
    ensures var routes := Planned(ctx, AvailableStores(ctx.stores, day), day, StartOf(start));
            var valid := forall k :: 0 <= k < |routes| ==> Validator.Validate(routes[k], ctx.timeMatrix, ValidationServiceMinutes).0;
            Solved(ctx, day, start).isFeasible <==> valid
  {
    var routes := Planned(ctx, AvailableStores(ctx.stores, day), day, StartOf(start));
    AllValidMeans(RouteCheck(ctx), routes);
  }
}
