/** The repair operators of the ALNS solver (vrp_solver/solvers/alns_solver.py): greedy
    and regret-k insertion of the removed stores, and the assembly of the repaired
    solution. Insertion costs come from the route checker, over its fixed "depot" id. */
module AlnsRepair {
  import opened Common
  import opened Stores
  import opened Vehicles
  import opened Routes
  import opened Distance
  import opened Solutions
  import opened BaseSolver
  import opened Checker
  import ClarkeWright

  /** An insertion candidate: a route (by index), a position in it, and the cost of
      inserting the store there. */
  datatype Slot = Slot(route: nat, pos: nat, cost: real)

  /** `calculate_insertion_cost` at a position from 0 to the number of stops, where it
      is always defined. */
  function InsertCost(r: Route, store: Store, pos: nat, dm: Matrix): real
  {
    CalculateInsertionCost(r, store, pos, dm).value
  }

  /** The positions tried on one route: all of 0 to the number of stops when the checker
      accepts the store for the day, none otherwise. */
  function RouteSlots(store: Store, day: string, dm: Matrix, k: nat, r: Route): (slots: seq<Slot>)
    ensures |slots| == if CanAddStoreToRoute(r, store, day).0 then |r.stops| + 1 else 0
    ensures forall j :: 0 <= j < |slots| ==> slots[j] == Slot(k, j, InsertCost(r, store, j, dm))
  {
    if CanAddStoreToRoute(r, store, day).0 then
      seq(|r.stops| + 1, j requires 0 <= j <= |r.stops| => Slot(k, j, InsertCost(r, store, j, dm)))
    else []
  }

  function SlotsOf(store: Store, day: string, dm: Matrix): (nat, Route) -> seq<Slot>
  {
    (k: nat, r: Route) => RouteSlots(store, day, dm, k, r)
  }

  /** Every insertion candidate for the store, route by route, position by position. */
  function Slots(routes: seq<Route>, store: Store, day: string, dm: Matrix): seq<Slot>
  {
    FlatMapIdx(routes, SlotsOf(store, day, dm))
  }

  function SlotCost(s: Slot): real
  {
    s.cost
  }

  /** A candidate names an accepting route, a position in it and that position's cost. */
  lemma SlotFacts(routes: seq<Route>, store: Store, day: string, dm: Matrix, s: Slot)
    requires s in Slots(routes, store, day, dm)
    ensures s.route < |routes| && s.pos <= |routes[s.route].stops|
    ensures CanAddStoreToRoute(routes[s.route], store, day).0
    ensures s.cost == InsertCost(routes[s.route], store, s.pos, dm)
  {
    FlatMapIdxHas(routes, SlotsOf(store, day, dm), s);
    var k :| 0 <= k < |routes| && s in RouteSlots(store, day, dm, k, routes[k]);
    var j :| 0 <= j < |RouteSlots(store, day, dm, k, routes[k])| && RouteSlots(store, day, dm, k, routes[k])[j] == s;
  }

  /** There is no candidate exactly when the checker accepts the store on no route. */
  lemma SlotsEmpty(routes: seq<Route>, store: Store, day: string, dm: Matrix)
    ensures Slots(routes, store, day, dm) == [] <==> forall k :: 0 <= k < |routes| ==> !CanAddStoreToRoute(routes[k], store, day).0
  {
    FlatMapIdxEmpty(routes, SlotsOf(store, day, dm));
  }

  /** The cheapest candidate, the first one on ties, as the scan of `_greedy_insertion`
      with its strict `cost < best_cost` finds it. */
  function BestSlot(routes: seq<Route>, store: Store, day: string, dm: Matrix): Option<Slot>
  {
    MinFold(None, Slots(routes, store, day, dm), SlotCost)
  }

  /** The best candidate is a candidate of lowest cost, and no earlier candidate costs as
      little; there is one exactly when some route accepts the store. */
  lemma BestSlotIsCheapest(routes: seq<Route>, store: Store, day: string, dm: Matrix)
    ensures var best, slots := BestSlot(routes, store, day, dm), Slots(routes, store, day, dm);
            && (best.None? <==> forall k :: 0 <= k < |routes| ==> !CanAddStoreToRoute(routes[k], store, day).0)
            && (best.Some? ==>
                  exists i :: 0 <= i < |slots| && slots[i] == best.value
                    && (forall j :: 0 <= j < |slots| ==> best.value.cost <= slots[j].cost)
                    && (forall j :: 0 <= j < i ==> best.value.cost < slots[j].cost))
  {
    var slots := Slots(routes, store, day, dm);
    MinFoldIsFirstMin(slots, SlotCost);
    SlotsEmpty(routes, store, day, dm);
    if slots != [] {
      var i := FirstMin(slots, SlotCost);
      assert slots[i] == BestSlot(routes, store, day, dm).value;
    }
  }

  /** The cost `_greedy_insertion` gives a new route: the insertion cost into an empty
      route of the vehicle, out from the depot and back. */
  function NewRouteCost(v: Vehicle, store: Store, dm: Matrix): (c: real)
    ensures c == Get(dm, DepotId, store.id) + Get(dm, store.id, DepotId)
  {
    CalculateInsertionCost(NewRoute(v, None), store, 0, dm).value
  }

  /** A new route of the vehicle for the day, serving only the store. */
  function OpenRoute(v: Vehicle, store: Store, day: string): Route
  {
    WithStop(NewRoute(v, Some(day)), store, None)
  }

  /** The decision `_greedy_insertion` makes for one store, given its cheapest candidate
      and its first compatible vehicle: a new route when there is a vehicle and either no
      candidate or a strictly cheaper new route; else the candidate, when its route has
      stops; else the store is dropped. The flag says whether the store was placed. */
  function Place(routes: seq<Route>, store: Store, day: string, dm: Matrix, best: Option<Slot>, v: Option<Vehicle>): (seq<Route>, bool)
  {
    if v.Some? && (best.None? || NewRouteCost(v.value, store, dm) < best.value.cost) then
      (routes + [OpenRoute(v.value, store, day)], true)
    else if best.Some? && best.value.route < |routes| && routes[best.value.route].stops != [] then
      var k := best.value.route;
      (routes[k := WithStop(routes[k], store, Some(best.value.pos))], true)
    else (routes, false)
  }

  /** What `_greedy_insertion` does with one store. */
  function GreedyPlace(ctx: SolverContext, day: string, routes: seq<Route>, store: Store): (seq<Route>, bool)
  {
    Place(routes, store, day, ctx.distanceMatrix, BestSlot(routes, store, day, ctx.distanceMatrix),
          ClarkeWright.CompatibleVehicle(ctx.vehicles, store))
  }

  /** One store of `_greedy_insertion`: the routes after it, and the stores dropped so far. */
  function GreedyStep(ctx: SolverContext, day: string, acc: (seq<Route>, seq<Store>), store: Store): (seq<Route>, seq<Store>)
  {
    var (rs, placed) := GreedyPlace(ctx, day, acc.0, store);
    (rs, if placed then acc.1 else acc.1 + [store])
  }

  function GreedyStepOf(ctx: SolverContext, day: string): ((seq<Route>, seq<Store>), Store) -> (seq<Route>, seq<Store>)
  {
    (acc: (seq<Route>, seq<Store>), store: Store) => GreedyStep(ctx, day, acc, store)
  }

  /** `_greedy_insertion` over the stores in order: the routes, and the stores dropped. */
  function GreedyAll(ctx: SolverContext, day: string, routes: seq<Route>, stores: seq<Store>): (seq<Route>, seq<Store>)
  {
    FoldLeft(GreedyStepOf(ctx, day), (routes, []), stores)
  }

  /** Every route has at least one stop. */
  ghost predicate AllNonEmpty(routes: seq<Route>)
  {
    forall i :: 0 <= i < |routes| ==> routes[i].stops != []
  }

  /** Every route's load is within its vehicle's capacity. */
  ghost predicate WithinCapacity(routes: seq<Route>)
  {
    forall i :: 0 <= i < |routes| ==> IsValidCapacity(routes[i])
  }

  /** A new route serves one store more. */
  lemma OpenRouteServes(routes: seq<Route>, v: Vehicle, store: Store, day: string)
    ensures multiset(ServedIds(routes + [OpenRoute(v, store, day)])) == multiset(ServedIds(routes)) + multiset{store.id}
  {
    ServedIdsSnoc(routes, OpenRoute(v, store, day));
    IdsOfWithStop(NewRoute(v, Some(day)), store, None);
  }

  /** Adding a stop to one route serves one store more. */
  lemma InsertServes(routes: seq<Route>, k: nat, store: Store, pos: Option<int>)
    requires k < |routes|
    ensures multiset(ServedIds(routes[k := WithStop(routes[k], store, pos)])) == multiset(ServedIds(routes)) + multiset{store.id}
  {
    var r' := WithStop(routes[k], store, pos);
    IdsOfWithStop(routes[k], store, pos);
    FlatMapUpdate(routes, k, r', StoreIds);
    MultisetCancel(multiset(ServedIds(routes[k := r'])), multiset(ServedIds(routes)) + multiset{store.id},
                   multiset(StoreIds(routes[k])));
  }

  /** A store placed is served once more; a dropped store changes nothing. */
  lemma PlaceServes(routes: seq<Route>, store: Store, day: string, dm: Matrix, best: Option<Slot>, v: Option<Vehicle>)
    ensures var (rs, placed) := Place(routes, store, day, dm, best, v);
            multiset(ServedIds(rs)) == multiset(ServedIds(routes)) + (if placed then multiset{store.id} else multiset{})
  {
    if v.Some? && (best.None? || NewRouteCost(v.value, store, dm) < best.value.cost) {
      OpenRouteServes(routes, v.value, store, day);
    } else if best.Some? && best.value.route < |routes| && routes[best.value.route].stops != [] {
      InsertServes(routes, best.value.route, store, Some(best.value.pos));
    }
  }

  /** A store joins an existing route only when the checker accepts it there, and a new
      route only with a vehicle that carries it empty, so capacity holds and every route
      keeps stops. */
  lemma PlaceKeepsRoutes(routes: seq<Route>, store: Store, day: string, dm: Matrix, best: Option<Slot>, v: Option<Vehicle>)
    requires WithinCapacity(routes) && AllNonEmpty(routes)
    requires best.Some? ==> best.value.route < |routes| && CanAddStoreToRoute(routes[best.value.route], store, day).0
    requires v.Some? ==> ClarkeWright.Compatible(v.value, store)
    ensures WithinCapacity(Place(routes, store, day, dm, best, v).0) && AllNonEmpty(Place(routes, store, day, dm, best, v).0)
  {
  }

  /** The cheapest candidate names an accepting route, and the vehicle is compatible. */
  lemma GreedyInputs(ctx: SolverContext, day: string, routes: seq<Route>, store: Store)
    ensures var best := BestSlot(routes, store, day, ctx.distanceMatrix);
            best.Some? ==> best.value.route < |routes| && CanAddStoreToRoute(routes[best.value.route], store, day).0
    ensures var v := ClarkeWright.CompatibleVehicle(ctx.vehicles, store);
            v.Some? ==> ClarkeWright.Compatible(v.value, store)
  {
    var best := BestSlot(routes, store, day, ctx.distanceMatrix);
    MinFoldIn(Slots(routes, store, day, ctx.distanceMatrix), SlotCost);
    if best.Some? {
      SlotFacts(routes, store, day, ctx.distanceMatrix, best.value);
    }
  }

  /** With every route holding stops, greedy insertion drops a store exactly when no
      vehicle is compatible with it and no route accepts it. */
  lemma GreedyDropsOnlyUnplaceable(ctx: SolverContext, day: string, routes: seq<Route>, store: Store)
    requires AllNonEmpty(routes)
    ensures !GreedyPlace(ctx, day, routes, store).1
        <==> ClarkeWright.CompatibleVehicle(ctx.vehicles, store).None?
             && forall k :: 0 <= k < |routes| ==> !CanAddStoreToRoute(routes[k], store, day).0
  {
    BestSlotIsCheapest(routes, store, day, ctx.distanceMatrix);
    GreedyInputs(ctx, day, routes, store);
  }

  /** One store is either served once more or added to the dropped stores. */
  lemma GreedyStepServes(ctx: SolverContext, day: string, acc: (seq<Route>, seq<Store>), store: Store)
    ensures multiset(ServedIds(GreedyStep(ctx, day, acc, store).0)) + multiset(IdsOf(GreedyStep(ctx, day, acc, store).1))
         == multiset(ServedIds(acc.0)) + multiset(IdsOf(acc.1)) + multiset{store.id}
  {
    var dm := ctx.distanceMatrix;
    PlaceServes(acc.0, store, day, dm, BestSlot(acc.0, store, day, dm), ClarkeWright.CompatibleVehicle(ctx.vehicles, store));
    IdsOfConcat(acc.1, [store]);
  }

  /** The stores a partial result accounts for: those served and those dropped. */
  ghost function Tally(acc: (seq<Route>, seq<Store>)): multiset<string>
  {
    multiset(ServedIds(acc.0)) + multiset(IdsOf(acc.1))
  }

  function StoreId(s: Store): string
  {
    s.id
  }

  /** Over all the stores, greedy insertion serves each placed store once more and drops
      the rest. */
  lemma GreedyAllServes(ctx: SolverContext, day: string, routes: seq<Route>, stores: seq<Store>)
    ensures multiset(ServedIds(GreedyAll(ctx, day, routes, stores).0)) + multiset(IdsOf(GreedyAll(ctx, day, routes, stores).1))
         == multiset(ServedIds(routes)) + multiset(IdsOf(stores))
  {
    forall acc, store ensures Tally(GreedyStepOf(ctx, day)(acc, store)) == Tally(acc) + multiset{StoreId(store)} {
      GreedyStepServes(ctx, day, acc, store);
    }
    FoldLeftTally(GreedyStepOf(ctx, day), Tally, StoreId, (routes, []), stores);
    MapSeqIs(stores, StoreId, IdsOf(stores));
  }

  ghost predicate Sound(acc: (seq<Route>, seq<Store>))
  {
    WithinCapacity(acc.0) && AllNonEmpty(acc.0)
  }

  /** Greedy insertion keeps every route within capacity and with stops. */
  lemma GreedyAllKeepsRoutes(ctx: SolverContext, day: string, routes: seq<Route>, stores: seq<Store>)
    requires WithinCapacity(routes) && AllNonEmpty(routes)
    ensures WithinCapacity(GreedyAll(ctx, day, routes, stores).0) && AllNonEmpty(GreedyAll(ctx, day, routes, stores).0)
  {
    forall acc, store | Sound(acc) ensures Sound(GreedyStepOf(ctx, day)(acc, store)) {
      var dm := ctx.distanceMatrix;
      GreedyInputs(ctx, day, acc.0, store);
      PlaceKeepsRoutes(acc.0, store, day, dm, BestSlot(acc.0, store, day, dm), ClarkeWright.CompatibleVehicle(ctx.vehicles, store));
    }
    FoldLeftKeeps(GreedyStepOf(ctx, day), Sound, (routes, []), stores);
  }

  /** The k of regret-k insertion: the solver runs it with 2 and 3. */
  type RegretK = k: nat | 1 <= k witness 2

  /** A store's case for regret insertion: its regret, and its cheapest candidate. */
  datatype Choice = Choice(store: Store, regret: real, slot: Slot)

  /** The candidates of a store sorted by cost (stably); with at least k of them, the
      regret is the k-th cheapest cost minus the cheapest, and the cheapest is where the
      store would go. With fewer than k candidates the store has no case. */
  function ChoiceOf(routes: seq<Route>, day: string, dm: Matrix, k: RegretK, store: Store): Option<Choice>
  {
    var slots := Slots(routes, store, day, dm);
    if |slots| >= k then
      var sorted := SortByKey(slots, SlotCost);
      Some(Choice(store, sorted[k - 1].cost - sorted[0].cost, sorted[0]))
    else None
  }

  /** A store has a case exactly when it has at least k candidates; the case's slot is the
      earliest cheapest candidate, and its regret is not negative. */
  lemma ChoiceOfFacts(routes: seq<Route>, day: string, dm: Matrix, k: RegretK, store: Store)
    ensures var slots := Slots(routes, store, day, dm);
            && (ChoiceOf(routes, day, dm, k, store).Some? <==> |slots| >= k)
            && (ChoiceOf(routes, day, dm, k, store).Some? ==>
                  var c := ChoiceOf(routes, day, dm, k, store).value;
                  && c.store == store && c.regret >= 0.0
                  && c.slot == slots[FirstMin(slots, SlotCost)])
  {
    var slots := Slots(routes, store, day, dm);
    if |slots| >= k {
      SortByKeySorted(slots, SlotCost);
      SortByKeyFirst(slots, SlotCost);
    }
  }

  function ChoiceFor(routes: seq<Route>, day: string, dm: Matrix, k: RegretK): Store -> Option<Choice>
  {
    (store: Store) => ChoiceOf(routes, day, dm, k, store)
  }

  /** The cases of the uninserted stores, in their order. */
  function Choices(routes: seq<Route>, uninserted: seq<Store>, day: string, dm: Matrix, k: RegretK): seq<Choice>
  {
    Select(uninserted, ChoiceFor(routes, day, dm, k))
  }

  function NegatedRegret(c: Choice): real
  {
    -c.regret
  }

  /** The case of largest regret, the earliest on ties, as the scan of `_regret_insertion`
      with its strict `regret > max_regret` finds it. */
  function BestChoice(routes: seq<Route>, uninserted: seq<Store>, day: string, dm: Matrix, k: RegretK): Option<Choice>
  {
    MinFold(None, Choices(routes, uninserted, day, dm, k), NegatedRegret)
  }

  /** A store has a case exactly when it has k candidates. */
  lemma ChoiceForSome(routes: seq<Route>, uninserted: seq<Store>, day: string, dm: Matrix, k: RegretK)
    ensures forall i :: 0 <= i < |uninserted| ==>
              (ChoiceFor(routes, day, dm, k)(uninserted[i]).Some? <==> |Slots(routes, uninserted[i], day, dm)| >= k)
  {
    forall i | 0 <= i < |uninserted|
      ensures ChoiceFor(routes, day, dm, k)(uninserted[i]).Some? <==> |Slots(routes, uninserted[i], day, dm)| >= k
    {
      ChoiceOfFacts(routes, day, dm, k, uninserted[i]);
    }
  }

  /** There is a best case exactly when some uninserted store has k candidates. */
  lemma BestChoiceExists(routes: seq<Route>, uninserted: seq<Store>, day: string, dm: Matrix, k: RegretK)
    ensures BestChoice(routes, uninserted, day, dm, k).None?
        <==> forall i :: 0 <= i < |uninserted| ==> |Slots(routes, uninserted[i], day, dm)| < k
  {
    MinFoldIn(Choices(routes, uninserted, day, dm, k), NegatedRegret);
    SelectEmpty(uninserted, ChoiceFor(routes, day, dm, k));
    ChoiceForSome(routes, uninserted, day, dm, k);
  }

  /** The best case is the case of an uninserted store, at that store's cheapest candidate. */
  lemma BestChoiceFrom(routes: seq<Route>, uninserted: seq<Store>, day: string, dm: Matrix, k: RegretK)
    requires BestChoice(routes, uninserted, day, dm, k).Some?
    ensures var c := BestChoice(routes, uninserted, day, dm, k).value;
            c.store in uninserted && c.slot in Slots(routes, c.store, day, dm)
            && ChoiceOf(routes, day, dm, k, c.store) == Some(c)
  {
    var f := ChoiceFor(routes, day, dm, k);
    var c := BestChoice(routes, uninserted, day, dm, k).value;
    MinFoldIn(Choices(routes, uninserted, day, dm, k), NegatedRegret);
    SelectFrom(uninserted, f, c);
    var j :| 0 <= j < |uninserted| && f(uninserted[j]) == Some(c);
    ChoiceOfFacts(routes, day, dm, k, uninserted[j]);
  }

  /** No uninserted store with a case has a larger regret than the best case. */
  lemma BestChoiceIsMaxRegret(routes: seq<Route>, uninserted: seq<Store>, day: string, dm: Matrix, k: RegretK)
    requires BestChoice(routes, uninserted, day, dm, k).Some?
    ensures forall i :: 0 <= i < |uninserted| && ChoiceOf(routes, day, dm, k, uninserted[i]).Some? ==>
              ChoiceOf(routes, day, dm, k, uninserted[i]).value.regret <= BestChoice(routes, uninserted, day, dm, k).value.regret
  {
    var f := ChoiceFor(routes, day, dm, k);
    var cs := Choices(routes, uninserted, day, dm, k);
    MinFoldIsFirstMin(cs, NegatedRegret);
    forall i | 0 <= i < |uninserted| && ChoiceOf(routes, day, dm, k, uninserted[i]).Some?
      ensures ChoiceOf(routes, day, dm, k, uninserted[i]).value.regret <= BestChoice(routes, uninserted, day, dm, k).value.regret
    {
      SelectHas(uninserted, f, i);
    }
  }

  /** What one pass of the `while uninserted` loop of `_regret_insertion` does, given the
      best case and the first compatible vehicle of the first uninserted store: insert the
      best case's store at its cheapest slot when that route has stops; else open a route
      for the first uninserted store if a vehicle carries it; else give that store up.
      The result is the routes, the store taken off the list, and whether it was placed. */
  function Pick(routes: seq<Route>, uninserted: seq<Store>, day: string, best: Option<Choice>, v: Option<Vehicle>): (seq<Route>, Store, bool)
    requires uninserted != []
  {
    if best.Some? && best.value.slot.route < |routes| && routes[best.value.slot.route].stops != [] then
      var c := best.value;
      var k := c.slot.route;
      (routes[k := WithStop(routes[k], c.store, Some(c.slot.pos))], c.store, true)
    else if v.Some? then
      (routes + [OpenRoute(v.value, uninserted[0], day)], uninserted[0], true)
    else (routes, uninserted[0], false)
  }

  function RegretPick(ctx: SolverContext, day: string, k: RegretK, routes: seq<Route>, uninserted: seq<Store>): (seq<Route>, Store, bool)
    requires uninserted != []
  {
    Pick(routes, uninserted, day, BestChoice(routes, uninserted, day, ctx.distanceMatrix, k),
         ClarkeWright.CompatibleVehicle(ctx.vehicles, uninserted[0]))
  }

  /** The store a pass takes is on the list. */
  lemma RegretPickTakes(ctx: SolverContext, day: string, k: RegretK, routes: seq<Route>, uninserted: seq<Store>)
    requires uninserted != []
    ensures RegretPick(ctx, day, k, routes, uninserted).1 in uninserted
  {
    if BestChoice(routes, uninserted, day, ctx.distanceMatrix, k).Some? {
      BestChoiceFrom(routes, uninserted, day, ctx.distanceMatrix, k);
    }
  }

  /** The state of `_regret_insertion` between passes: the routes, the stores still to
      insert, and the stores given up so far. */
  datatype Insertion = Insertion(routes: seq<Route>, uninserted: seq<Store>, dropped: seq<Store>)

  /** One pass of `_regret_insertion`; nothing once the list is empty. */
  function RegretNext(ctx: SolverContext, day: string, k: RegretK, st: Insertion): Option<Insertion>
  {
    if st.uninserted == [] then None
    else
      var p := RegretPick(ctx, day, k, st.routes, st.uninserted);
      Some(Insertion(p.0, RemoveFirst(st.uninserted, p.1), if p.2 then st.dropped else st.dropped + [p.1]))
  }

  function RegretNextOf(ctx: SolverContext, day: string, k: RegretK): Insertion -> Option<Insertion>
  {
    st => RegretNext(ctx, day, k, st)
  }

  /** `_regret_insertion`: each pass takes one store off the list, so as many passes as
      stores empty it. The result is the routes and the stores given up. */
  function RegretAll(ctx: SolverContext, day: string, k: RegretK, routes: seq<Route>, stores: seq<Store>): (seq<Route>, seq<Store>)
  {
    var last := Iterate(RegretNextOf(ctx, day, k), Insertion(routes, stores, []), |stores|);
    (last.routes, last.dropped)
  }

  /** A pass serves the store it takes once more, unless it gives it up. */
  lemma PickServes(routes: seq<Route>, uninserted: seq<Store>, day: string, best: Option<Choice>, v: Option<Vehicle>)
    requires uninserted != []
    ensures var (rs, s, placed) := Pick(routes, uninserted, day, best, v);
            multiset(ServedIds(rs)) == multiset(ServedIds(routes)) + (if placed then multiset{s.id} else multiset{})
  {
    if best.Some? && best.value.slot.route < |routes| && routes[best.value.slot.route].stops != [] {
      InsertServes(routes, best.value.slot.route, best.value.store, Some(best.value.slot.pos));
    } else if v.Some? {
      OpenRouteServes(routes, v.value, uninserted[0], day);
    }
  }

  /** Taking a store off the list takes its id off the list's ids. */
  lemma IdsOfRemoveFirst(xs: seq<Store>, s: Store)
    requires s in xs
    ensures multiset(IdsOf(RemoveFirst(xs, s))) + multiset{s.id} == multiset(IdsOf(xs))
  {
    MapSeqRemoveFirst(xs, s, StoreId);
    MapSeqIs(xs, StoreId, IdsOf(xs));
    MapSeqIs(RemoveFirst(xs, s), StoreId, IdsOf(RemoveFirst(xs, s)));
  }

  /** The stores a state accounts for: served, still to insert, or given up. */
  ghost function Accounted(st: Insertion): multiset<string>
  {
    multiset(ServedIds(st.routes)) + multiset(IdsOf(st.uninserted)) + multiset(IdsOf(st.dropped))
  }

  /** Moving a store of the list to the routes, or to the stores given up, keeps what
      the state accounts for. */
  lemma AccountedMove(st: Insertion, rs: seq<Route>, s: Store, placed: bool)
    requires s in st.uninserted
    requires multiset(ServedIds(rs)) == multiset(ServedIds(st.routes)) + (if placed then multiset{s.id} else multiset{})
    ensures Accounted(Insertion(rs, RemoveFirst(st.uninserted, s), if placed then st.dropped else st.dropped + [s])) == Accounted(st)
  {
    var rest := RemoveFirst(st.uninserted, s);
    var served, left, gone := multiset(ServedIds(st.routes)), multiset(IdsOf(rest)), multiset(IdsOf(st.dropped));
    assert multiset(IdsOf(st.uninserted)) == left + multiset{s.id} by {
      IdsOfRemoveFirst(st.uninserted, s);
    }
    if !placed {
      assert multiset(IdsOf(st.dropped + [s])) == gone + multiset{s.id} by {
        IdsOfConcat(st.dropped, [s]);
      }
    }
  }

  /** A pass shortens the list by one and moves the store it takes to the routes or to the
      stores given up. */
  lemma RegretNextServes(ctx: SolverContext, day: string, k: RegretK, st: Insertion)
    requires st.uninserted != []
    ensures RegretNext(ctx, day, k, st).Some?
    ensures |RegretNext(ctx, day, k, st).value.uninserted| + 1 == |st.uninserted|
    ensures Accounted(RegretNext(ctx, day, k, st).value) == Accounted(st)
  {
    var p := RegretPick(ctx, day, k, st.routes, st.uninserted);
    RegretPickTakes(ctx, day, k, st.routes, st.uninserted);
    PickServes(st.routes, st.uninserted, day, BestChoice(st.routes, st.uninserted, day, ctx.distanceMatrix, k),
               ClarkeWright.CompatibleVehicle(ctx.vehicles, st.uninserted[0]));
    AccountedMove(st, p.0, p.1, p.2);
  }

  /** Regret insertion keeps every route within capacity and with stops: a store joins an
      existing route only where the checker accepts it, and a new route only with a vehicle
      that carries it. */
  lemma PickKeepsRoutes(ctx: SolverContext, day: string, k: RegretK, routes: seq<Route>, uninserted: seq<Store>)
    requires uninserted != []
    requires WithinCapacity(routes) && AllNonEmpty(routes)
    ensures WithinCapacity(RegretPick(ctx, day, k, routes, uninserted).0) && AllNonEmpty(RegretPick(ctx, day, k, routes, uninserted).0)
  {
    var dm := ctx.distanceMatrix;
    var best := BestChoice(routes, uninserted, day, dm, k);
    if best.Some? {
      BestChoiceFrom(routes, uninserted, day, dm, k);
      SlotFacts(routes, best.value.store, day, dm, best.value.slot);
    }
    GreedyInputs(ctx, day, routes, uninserted[0]);
  }

  /** The passes empty the list. */
  lemma RegretAllEmpties(ctx: SolverContext, day: string, k: RegretK, routes: seq<Route>, stores: seq<Store>)
    ensures Iterate(RegretNextOf(ctx, day, k), Insertion(routes, stores, []), |stores|).uninserted == []
  {
    var step := RegretNextOf(ctx, day, k);
    var start := Insertion(routes, stores, []);
    forall a | step(a).Some? ensures |step(a).value.uninserted| + 1 == |a.uninserted| {
      RegretNextServes(ctx, day, k, a);
    }
    IterateCounts(step, (st: Insertion) => |st.uninserted|, start, |stores|);
    IterateStops(step, start, |stores|);
  }

  /** Every store on the list ends up served or given up, and nothing else changes in what
      the routes serve. */
  lemma RegretAllServes(ctx: SolverContext, day: string, k: RegretK, routes: seq<Route>, stores: seq<Store>)
    ensures multiset(ServedIds(RegretAll(ctx, day, k, routes, stores).0)) + multiset(IdsOf(RegretAll(ctx, day, k, routes, stores).1))
         == multiset(ServedIds(routes)) + multiset(IdsOf(stores))
  {
    var step := RegretNextOf(ctx, day, k);
    var start := Insertion(routes, stores, []);
    var total := Accounted(start);
    var tallied := (st: Insertion) => Accounted(st) == total;
    forall a | tallied(a) && step(a).Some? ensures tallied(step(a).value) {
      RegretNextServes(ctx, day, k, a);
    }
    IterateKeeps(step, tallied, start, |stores|);
    RegretAllEmpties(ctx, day, k, routes, stores);
    var last := Iterate(step, start, |stores|);
    assert Accounted(last) == total;
    assert IdsOf(start.dropped) == [] && IdsOf(last.uninserted) == [];
    assert total == multiset(ServedIds(routes)) + multiset(IdsOf(stores));
    assert Accounted(last) == multiset(ServedIds(last.routes)) + multiset(IdsOf(last.dropped));
    assert RegretAll(ctx, day, k, routes, stores) == (last.routes, last.dropped);
  }

  /** The routes stay within capacity and with stops. */
  lemma RegretAllKeepsRoutes(ctx: SolverContext, day: string, k: RegretK, routes: seq<Route>, stores: seq<Store>)
    requires WithinCapacity(routes) && AllNonEmpty(routes)
    ensures WithinCapacity(RegretAll(ctx, day, k, routes, stores).0) && AllNonEmpty(RegretAll(ctx, day, k, routes, stores).0)
  {
    var step := RegretNextOf(ctx, day, k);
    var sound := (st: Insertion) => WithinCapacity(st.routes) && AllNonEmpty(st.routes);
    forall a | sound(a) && step(a).Some? ensures sound(step(a).value) {
      PickKeepsRoutes(ctx, day, k, a.routes, a.uninserted);
    }
    IterateKeeps(step, sound, Insertion(routes, stores, []), |stores|);
  }

  /** With every route holding stops, a pass gives a store up exactly when no uninserted
      store has k candidates and no vehicle is compatible with the first one; when some
      store has k candidates, the store of largest regret is the one taken. */
  lemma RegretPickGivesUpOnlyUnplaceable(ctx: SolverContext, day: string, k: RegretK, routes: seq<Route>, uninserted: seq<Store>)
    requires uninserted != [] && AllNonEmpty(routes)
    ensures !RegretPick(ctx, day, k, routes, uninserted).2
        <==> (forall i :: 0 <= i < |uninserted| ==> |Slots(routes, uninserted[i], day, ctx.distanceMatrix)| < k)
             && ClarkeWright.CompatibleVehicle(ctx.vehicles, uninserted[0]).None?
    ensures BestChoice(routes, uninserted, day, ctx.distanceMatrix, k).Some? ==>
              RegretPick(ctx, day, k, routes, uninserted).1 == BestChoice(routes, uninserted, day, ctx.distanceMatrix, k).value.store
  {
    var dm := ctx.distanceMatrix;
    var best := BestChoice(routes, uninserted, day, dm, k);
    BestChoiceExists(routes, uninserted, day, dm, k);
    if best.Some? {
      BestChoiceFrom(routes, uninserted, day, dm, k);
      SlotFacts(routes, best.value.store, day, dm, best.value.slot);
    }
  }

  /** `[r for r in routes if r.stops]`: the routes that kept a stop. */
  function NonEmptyRoute(r: Route): Option<Route>
  {
    if r.stops != [] then Some(r) else None
  }

  function KeptRoutes(routes: seq<Route>): seq<Route>
  {
    Select(routes, NonEmptyRoute)
  }

  /** Dropping the empty routes keeps every store served, in order. */
  lemma KeptRoutesServe(routes: seq<Route>)
    ensures ServedIds(KeptRoutes(routes)) == ServedIds(routes)
  {
    forall r ensures NonEmptyRoute(r) == Some(r) || (NonEmptyRoute(r).None? && StoreIds(r) == []) {
    }
    SelectSkipsEmpty(routes, NonEmptyRoute, StoreIds);
  }

  /** The kept routes are routes of the list, each with a stop. */
  lemma KeptRoutesFrom(routes: seq<Route>)
    ensures AllNonEmpty(KeptRoutes(routes))
    ensures WithinCapacity(routes) ==> WithinCapacity(KeptRoutes(routes))
  {
    var kept := KeptRoutes(routes);
    forall i | 0 <= i < |kept| ensures kept[i].stops != [] && (WithinCapacity(routes) ==> IsValidCapacity(kept[i])) {
      SelectFrom(routes, NonEmptyRoute, kept[i]);
    }
  }

  /** Dropping the empty routes a second time changes nothing. */
  lemma KeptRoutesKept(routes: seq<Route>)
    ensures KeptRoutes(KeptRoutes(routes)) == KeptRoutes(routes)
  {
    KeptRoutesFrom(routes);
    KeptAllNonEmpty(KeptRoutes(routes));
  }

  lemma KeptAllNonEmpty(routes: seq<Route>)
    requires AllNonEmpty(routes)
    ensures KeptRoutes(routes) == routes
  {
    SelectKeepsAll(routes, NonEmptyRoute);
  }

  /** The insertion `_apply_repair` runs for the operator name, on the kept routes: the
      routes after it and the stores it gave up. An unknown name inserts nothing, so every
      removed store is given up. */
  function Inserted(ctx: SolverContext, day: string, routes: seq<Route>, removed: seq<Store>, op: string): (seq<Route>, seq<Store>)
  {
    var kept := KeptRoutes(routes);
    if op == "greedy" then GreedyAll(ctx, day, kept, removed)
    else if op == "regret2" then RegretAll(ctx, day, 2, kept, removed)
    else if op == "regret3" then RegretAll(ctx, day, 3, kept, removed)
    else (kept, removed)
  }

  /** The per-route update of `_apply_repair`: the departure set to the start time, then
      the metrics refreshed. */
  function Departed(ctx: SolverContext, start: real): Route -> Route
  {
    (r: Route) => Refreshed(ctx, r.(depotDeparture := Some(start)))
  }

  /** The solution `_apply_repair` returns. It lists no unserved store. */
  function Repaired(ctx: SolverContext, day: string, start: real, routes: seq<Route>, removed: seq<Store>, op: string): (s: Solution)
    ensures s.unservedStores == [] && s.day == day
  {
    WithMetrics(NewSolution(MapSeq(Inserted(ctx, day, routes, removed, op).0, Departed(ctx, start)), day, []))
  }

  /** Every store the routes served or the destroy step removed is served by the repaired
      solution or was given up by the insertion. */
  lemma RepairedAccounts(ctx: SolverContext, day: string, start: real, routes: seq<Route>, removed: seq<Store>, op: string)
    ensures multiset(ServedIds(Repaired(ctx, day, start, routes, removed, op).routes))
            + multiset(IdsOf(Inserted(ctx, day, routes, removed, op).1))
         == multiset(ServedIds(routes)) + multiset(IdsOf(removed))
  {
    var kept := KeptRoutes(routes);
    KeptRoutesServe(routes);
    FlatMapOfMapSeq(Inserted(ctx, day, routes, removed, op).0, Departed(ctx, start), StoreIds, StoreIds);
    if op == "greedy" {
      GreedyAllServes(ctx, day, kept, removed);
    } else if op == "regret2" {
      RegretAllServes(ctx, day, 2, kept, removed);
    } else if op == "regret3" {
      RegretAllServes(ctx, day, 3, kept, removed);
    }
  }

  /** When the routes are within capacity, so is every route of the repaired solution, and
      each has a stop. */
  lemma RepairedSound(ctx: SolverContext, day: string, start: real, routes: seq<Route>, removed: seq<Store>, op: string)
    requires WithinCapacity(routes)
    ensures WithinCapacity(Repaired(ctx, day, start, routes, removed, op).routes)
    ensures AllNonEmpty(Repaired(ctx, day, start, routes, removed, op).routes)
  {
    var kept := KeptRoutes(routes);
    KeptRoutesFrom(routes);
    var ins := Inserted(ctx, day, routes, removed, op).0;
    if op == "greedy" {
      GreedyAllKeepsRoutes(ctx, day, kept, removed);
    } else if op == "regret2" {
      RegretAllKeepsRoutes(ctx, day, 2, kept, removed);
    } else if op == "regret3" {
      RegretAllKeepsRoutes(ctx, day, 3, kept, removed);
    }
    var rs := Repaired(ctx, day, start, routes, removed, op).routes;
    forall i | 0 <= i < |rs| ensures IsValidCapacity(rs[i]) && rs[i].stops != [] {
      MapSeqAt(ins, Departed(ctx, start), i);
    }
  }

  /** The candidate at one position of a route that accepts the store. */
  method SlotAt(route: Route, k: nat, store: Store, day: string, dm: Matrix, pos: nat) returns (slot: Slot)
    requires CanAddStoreToRoute(route, store, day).0 && pos <= |route.stops|
    ensures slot == RouteSlots(store, day, dm, k, route)[pos]
  {
    var cost := CalculateInsertionCost(route, store, pos, dm).value;
    slot := Slot(k, pos, cost);
  }

  /** The `if cost < best_cost` update of `_greedy_insertion`. */
  method ConsiderSlot(best: Option<Slot>, bestCost: real, slot: Slot) returns (best': Option<Slot>, bestCost': real)
    requires best.Some? ==> bestCost == best.value.cost
    ensures best' == MinFold(best, [slot], SlotCost)
    ensures best'.Some? ==> bestCost' == best'.value.cost
  {
    assert [slot][..0] == [];
    best', bestCost' := best, bestCost;
    if best.None? || slot.cost < bestCost {
      best', bestCost' := Some(slot), slot.cost;
    }
  }

  /** The scan of one route in `_greedy_insertion`, continuing from `acc`. */
  method ScanRouteSlots(route: Route, k: nat, store: Store, day: string, dm: Matrix, acc: Option<Slot>, accCost: real)
    returns (best: Option<Slot>, bestCost: real)
    requires acc.Some? ==> accCost == acc.value.cost
    ensures best == MinFold(acc, RouteSlots(store, day, dm, k, route), SlotCost)
    ensures best.Some? ==> bestCost == best.value.cost
  {
    best, bestCost := acc, accCost;
    var canAdd := CanAddStoreToRoute(route, store, day).0;
    if !canAdd {
      return;
    }
    var slots := RouteSlots(store, day, dm, k, route);
    var pos := 0;
    while pos < |route.stops| + 1
      invariant pos <= |slots|
      invariant best == MinFold(acc, slots[..pos], SlotCost)
      invariant best.Some? ==> bestCost == best.value.cost
    {
      var slot := SlotAt(route, k, store, day, dm, pos);
      MinFoldConcat(acc, slots[..pos], [slot], SlotCost);
      assert slots[..pos + 1] == slots[..pos] + [slot];
      best, bestCost := ConsiderSlot(best, bestCost, slot);
      pos := pos + 1;
    }
    assert slots[..pos] == slots;
  }

  /** The loops of `_greedy_insertion` over the routes and their positions. */
  method FindBestSlot(routes: seq<Route>, store: Store, day: string, dm: Matrix) returns (best: Option<Slot>)
    ensures best == BestSlot(routes, store, day, dm)
  {
    best := None;
    var bestCost := 0.0;
    var k := 0;
    while k < |routes|
      invariant k <= |routes|
      invariant best == MinFold(None, FlatMapIdx(routes[..k], SlotsOf(store, day, dm)), SlotCost)
      invariant best.Some? ==> bestCost == best.value.cost
    {
      best, bestCost := ScanRouteSlots(routes[k], k, store, day, dm, best, bestCost);
      FlatMapIdxPrefix(routes, k, SlotsOf(store, day, dm));
      MinFoldConcat(None, FlatMapIdx(routes[..k], SlotsOf(store, day, dm)), RouteSlots(store, day, dm, k, routes[k]), SlotCost);
      k := k + 1;
    }
    assert routes[..k] == routes;
  }

  /** The body of `_greedy_insertion` for one store. */
  method GreedyInsertOne(ctx: SolverContext, day: string, routes: seq<Route>, store: Store) returns (routes': seq<Route>, ghost placed: bool)
    ensures routes' == GreedyPlace(ctx, day, routes, store).0
    ensures placed == GreedyPlace(ctx, day, routes, store).1
  {
    var best := FindBestSlot(routes, store, day, ctx.distanceMatrix);
    var v := ClarkeWright.FindCompatibleVehicle(ctx.vehicles, store);
    if v.Some? {
      var cost := CalculateInsertionCost(NewRoute(v.value, None), store, 0, ctx.distanceMatrix).value;
      if best.None? || cost < best.value.cost {
        var r := AddStop(NewRoute(v.value, Some(day)), store, None);
        return routes + [r], true;
      }
    }
    if best.Some? && best.value.route < |routes| && routes[best.value.route].stops != [] {
      var k := best.value.route;
      var r := AddStop(routes[k], store, Some(best.value.pos));
      return routes[k := r], true;
    }
    return routes, false;
  }

  /** `_greedy_insertion`. */
  method GreedyInsertion(ctx: SolverContext, routes: seq<Route>, stores: seq<Store>, day: string) returns (routes': seq<Route>)
    ensures routes' == GreedyAll(ctx, day, routes, stores).0
  {
    routes' := routes;
    ghost var dropped: seq<Store> := [];
    var i := 0;
    while i < |stores|
      invariant i <= |stores|
      invariant (routes', dropped) == GreedyAll(ctx, day, routes, stores[..i])
    {
      assert stores[..i + 1][..i] == stores[..i];
      assert stores[..i + 1] != [];
      ghost var placed;
      routes', placed := GreedyInsertOne(ctx, day, routes', stores[i]);
      if !placed {
        dropped := dropped + [stores[i]];
      }
      i := i + 1;
    }
    assert stores[..i] == stores;
  }

  /** The positions of one route `_regret_insertion` collects for a store. */
  method RouteCandidates(route: Route, k: nat, store: Store, day: string, dm: Matrix) returns (slots: seq<Slot>)
    ensures slots == RouteSlots(store, day, dm, k, route)
  {
    slots := [];
    var canAdd := CanAddStoreToRoute(route, store, day).0;
    if !canAdd {
      return;
    }
    var pos := 0;
    while pos < |route.stops| + 1
      invariant pos <= |route.stops| + 1
      invariant |slots| == pos
      invariant forall j :: 0 <= j < pos ==> slots[j] == Slot(k, j, InsertCost(route, store, j, dm))
    {
      var cost := CalculateInsertionCost(route, store, pos, dm).value;
      slots := slots + [Slot(k, pos, cost)];
      pos := pos + 1;
    }
  }

  /** The `costs` list of `_regret_insertion` for one store: every route, every position. */
  method CollectSlots(routes: seq<Route>, store: Store, day: string, dm: Matrix) returns (costs: seq<Slot>)
    ensures costs == Slots(routes, store, day, dm)
  {
    costs := [];
    var k := 0;
    while k < |routes|
      invariant k <= |routes|
      invariant costs == FlatMapIdx(routes[..k], SlotsOf(store, day, dm))
    {
      var slots := RouteCandidates(routes[k], k, store, day, dm);
      FlatMapIdxPrefix(routes, k, SlotsOf(store, day, dm));
      costs := costs + slots;
      k := k + 1;
    }
    assert routes[..k] == routes;
  }

  /** The regret of one store: sort its candidates by cost and compare the k-th with the
      first. */
  method StoreChoice(routes: seq<Route>, store: Store, day: string, dm: Matrix, k: RegretK) returns (c: Option<Choice>)
    ensures c == ChoiceOf(routes, day, dm, k, store)
  {
    var costs := CollectSlots(routes, store, day, dm);
    if |costs| >= k {
      var sorted := SortByKey(costs, SlotCost);
      c := Some(Choice(store, sorted[k - 1].cost - sorted[0].cost, sorted[0]));
    } else {
      c := None;
    }
  }

  /** `choose` gives each store's case, stated on each store it is asked about. */
  ghost predicate IsChoice(routes: seq<Route>, day: string, dm: Matrix, k: RegretK, choose: Store -> Option<Choice>)
  {
    forall store {:trigger ChoiceOf(routes, day, dm, k, store)} :: choose(store) == ChoiceOf(routes, day, dm, k, store)
  }

  method StoreChoiceBy(routes: seq<Route>, store: Store, day: string, dm: Matrix, k: RegretK, ghost choose: Store -> Option<Choice>)
    returns (c: Option<Choice>)
    requires IsChoice(routes, day, dm, k, choose)
    ensures c == choose(store)
  {
    c := StoreChoice(routes, store, day, dm, k);
  }

  /** The `if regret > max_regret` update of the scan, for a store with or without a case. */
  method Consider(best: Option<Choice>, maxRegret: real, c: Option<Choice>) returns (best': Option<Choice>, maxRegret': real)
    requires best.Some? ==> maxRegret == best.value.regret
    ensures best' == MinFold(best, if c.Some? then [c.value] else [], NegatedRegret)
    ensures best'.Some? ==> maxRegret' == best'.value.regret
  {
    best', maxRegret' := best, maxRegret;
    if c.Some? {
      assert [c.value][..0] == [];
      if best.None? || c.value.regret > maxRegret {
        best', maxRegret' := c, c.value.regret;
      }
    }
  }

  /** One store of the `for store in uninserted` scan of `_regret_insertion`. */
  method ScanChoice(routes: seq<Route>, uninserted: seq<Store>, i: nat, day: string, dm: Matrix, k: RegretK,
                    ghost choose: Store -> Option<Choice>, best: Option<Choice>, maxRegret: real)
    returns (best': Option<Choice>, maxRegret': real)
    requires IsChoice(routes, day, dm, k, choose) && i < |uninserted|
    requires best == MinFold(None, Select(uninserted[..i], choose), NegatedRegret)
    requires best.Some? ==> maxRegret == best.value.regret
    ensures best' == MinFold(None, Select(uninserted[..i + 1], choose), NegatedRegret)
    ensures best'.Some? ==> maxRegret' == best'.value.regret
  {
    var c := StoreChoiceBy(routes, uninserted[i], day, dm, k, choose);
    ScanSelectStep(uninserted, i, choose, NegatedRegret);
    best', maxRegret' := Consider(best, maxRegret, c);
  }

  /** The `for store in uninserted` scan of `_regret_insertion`, with `choose` the case of
      each store. */
  method ScanChoices(routes: seq<Route>, uninserted: seq<Store>, day: string, dm: Matrix, k: RegretK,
                     ghost choose: Store -> Option<Choice>) returns (best: Option<Choice>)
    requires IsChoice(routes, day, dm, k, choose)
    ensures best == MinFold(None, Select(uninserted, choose), NegatedRegret)
  {
    best := None;
    var maxRegret := 0.0;
    var i := 0;
    while i < |uninserted|
      invariant i <= |uninserted|
      invariant best == MinFold(None, Select(uninserted[..i], choose), NegatedRegret)
      invariant best.Some? ==> maxRegret == best.value.regret
    {
      best, maxRegret := ScanChoice(routes, uninserted, i, day, dm, k, choose, best, maxRegret);
      i := i + 1;
    }
    assert uninserted[..i] == uninserted;
  }

  /** The scan finds the first store of largest regret. */
  method FindBestChoice(routes: seq<Route>, uninserted: seq<Store>, day: string, dm: Matrix, k: RegretK) returns (best: Option<Choice>)
    ensures best == BestChoice(routes, uninserted, day, dm, k)
  {
    assert IsChoice(routes, day, dm, k, ChoiceFor(routes, day, dm, k));
    best := ScanChoices(routes, uninserted, day, dm, k, ChoiceFor(routes, day, dm, k));
  }

  /** `step` is a pass of `_regret_insertion`, stated on each state it is run on. */
  ghost predicate IsRegretStep(ctx: SolverContext, day: string, k: RegretK, step: Insertion -> Option<Insertion>)
  {
    forall st {:trigger RegretNext(ctx, day, k, st)} :: step(st) == RegretNext(ctx, day, k, st)
  }

  /** One pass of the `while uninserted` loop of `_regret_insertion`: the routes after it,
      and the list without the store it took. */
  method RegretRound(ctx: SolverContext, day: string, k: RegretK, routes: seq<Route>, uninserted: seq<Store>,
                     ghost dropped: seq<Store>, ghost step: Insertion -> Option<Insertion>)
    returns (routes': seq<Route>, uninserted': seq<Store>, ghost dropped': seq<Store>)
    requires uninserted != [] && IsRegretStep(ctx, day, k, step)
    ensures step(Insertion(routes, uninserted, dropped)) == Some(Insertion(routes', uninserted', dropped'))
  {
    var st := Insertion(routes, uninserted, dropped);
    assert step(st) == RegretNext(ctx, day, k, st);
    var best := FindBestChoice(routes, uninserted, day, ctx.distanceMatrix, k);
    if best.Some? && best.value.slot.route < |routes| && routes[best.value.slot.route].stops != [] {
      var c := best.value;
      var r := AddStop(routes[c.slot.route], c.store, Some(c.slot.pos));
      return routes[c.slot.route := r], RemoveFirst(uninserted, c.store), dropped;
    }
    var store := uninserted[0];
    var v := ClarkeWright.FindCompatibleVehicle(ctx.vehicles, store);
    if v.Some? {
      var r := AddStop(NewRoute(v.value, Some(day)), store, None);
      return routes + [r], RemoveFirst(uninserted, store), dropped;
    }
    return routes, RemoveFirst(uninserted, store), dropped + [store];
  }

  /** The `while uninserted` loop of `_regret_insertion`, pass by pass. */
  method RegretPasses(ctx: SolverContext, day: string, k: RegretK, routes: seq<Route>, stores: seq<Store>,
                      ghost step: Insertion -> Option<Insertion>)
    returns (routes': seq<Route>)
    requires IsRegretStep(ctx, day, k, step)
    ensures routes' == Iterate(step, Insertion(routes, stores, []), |stores|).routes
  {
    routes' := routes;
    var uninserted := stores;
    ghost var dropped: seq<Store> := [];
    while uninserted != []
      invariant Iterate(step, Insertion(routes', uninserted, dropped), |uninserted|) == Iterate(step, Insertion(routes, stores, []), |stores|)
      decreases |uninserted|
    {
      ghost var st := Insertion(routes', uninserted, dropped);
      IterateUnfold(step, st, |uninserted|);
      RegretNextServes(ctx, day, k, st);
      routes', uninserted, dropped := RegretRound(ctx, day, k, routes', uninserted, dropped, step);
    }
  }

  /** `_regret_insertion`. */
  method RegretInsertion(ctx: SolverContext, routes: seq<Route>, stores: seq<Store>, day: string, k: RegretK)
    returns (routes': seq<Route>)
    ensures routes' == RegretAll(ctx, day, k, routes, stores).0
  {
    assert IsRegretStep(ctx, day, k, RegretNextOf(ctx, day, k));
    routes' := RegretPasses(ctx, day, k, routes, stores, RegretNextOf(ctx, day, k));
  }

  /** `routes = [r for r in routes if r.stops]`. */
  method DropEmptyRoutes(routes: seq<Route>) returns (kept: seq<Route>)
    ensures kept == KeptRoutes(routes)
  {
    kept := [];
    var i := 0;
    while i < |routes|
      invariant i <= |routes|
      invariant kept == KeptRoutes(routes[..i])
    {
      SelectSnoc(routes[..i], routes[i], NonEmptyRoute);
      assert routes[..i + 1] == routes[..i] + [routes[i]];
      if routes[i].stops != [] {
        kept := kept + [routes[i]];
      }
      i := i + 1;
    }
    assert routes[..i] == routes;
  }

  /** The operator dispatch of `_apply_repair`. */
  method InsertRemoved(ctx: SolverContext, day: string, kept: seq<Route>, removed: seq<Store>, op: string) returns (rs: seq<Route>)
    requires kept == KeptRoutes(kept)
    ensures rs == Inserted(ctx, day, kept, removed, op).0
  {
    rs := kept;
    if op == "greedy" {
      rs := GreedyInsertion(ctx, kept, removed, day);
    } else if op == "regret2" {
      rs := RegretInsertion(ctx, kept, removed, day, 2);
    } else if op == "regret3" {
      rs := RegretInsertion(ctx, kept, removed, day, 3);
    }
  }

  /** The `for route in routes` loop of `_apply_repair`. */
  method DepartAll(ctx: SolverContext, start: real, rs: seq<Route>) returns (updated: seq<Route>)
    ensures updated == MapSeq(rs, Departed(ctx, start))
  {
    updated := [];
    var j := 0;
    while j < |rs|
      invariant j <= |rs|
      invariant updated == MapSeq(rs[..j], Departed(ctx, start))
    {
      var r := UpdateRouteMetrics(ctx, rs[j].(depotDeparture := Some(start)));
      MapSeqSnoc(rs[..j], rs[j], Departed(ctx, start));
      assert rs[..j + 1] == rs[..j] + [rs[j]];
      updated := updated + [r];
      j := j + 1;
    }
    assert rs[..j] == rs;
  }

  /** `_apply_repair`. */
  method ApplyRepair(ctx: SolverContext, routes: seq<Route>, removed: seq<Store>, op: string, day: string, start: real)
    returns (s: Solution)
    ensures s == Repaired(ctx, day, start, routes, removed, op)
  {
    var kept := DropEmptyRoutes(routes);
    KeptRoutesKept(routes);
    var rs := InsertRemoved(ctx, day, kept, removed, op);
    var updated := DepartAll(ctx, start, rs);
    s := WithMetrics(NewSolution(updated, day, []));
  }
}
