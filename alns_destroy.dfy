/** The destroy operators of the ALNS solver (vrp_solver/solvers/alns_solver.py). Each
    takes stops out of a copy of the routes and returns the stores it took out; routes
    are values here, so the copy is the routes themselves. The random draws are
    parameters: a shuffle is any order of the stops, a seed any index into them. */
module AlnsDestroy {
  import opened Common
  import opened Stores
  import opened Routes
  import opened Distance
  import opened Solutions
  import opened BaseSolver

  /** One item of `all_stops`: the index of its route and the store of its stop. */
  datatype Entry = Entry(route: nat, store: Store)

  function RouteEntries(k: nat, r: Route): (es: seq<Entry>)
    ensures |es| == |r.stops| && forall j :: 0 <= j < |es| ==> es[j] == Entry(k, r.stops[j].store)
  {
    seq(|r.stops|, j requires 0 <= j < |r.stops| => Entry(k, r.stops[j].store))
  }

  /** `[(route, stop) for route in routes for stop in route.stops]`. */
  function Entries(routes: seq<Route>): seq<Entry>
  {
    FlatMapIdx(routes, RouteEntries)
  }

  function Key(e: Entry): (nat, string)
  {
    (e.route, e.store.id)
  }

  function EntryStore(e: Entry): Store
  {
    e.store
  }

  function RouteKeys(k: nat, r: Route): (ks: seq<(nat, string)>)
    ensures |ks| == |r.stops| && forall j :: 0 <= j < |ks| ==> ks[j] == (k, r.stops[j].store.id)
  {
    seq(|r.stops|, j requires 0 <= j < |r.stops| => (k, r.stops[j].store.id))
  }

  /** The (route index, store id) pair of every stop, counted with repetition. */
  function Pairs(routes: seq<Route>): multiset<(nat, string)>
  {
    multiset(FlatMapIdx(routes, RouteKeys))
  }

  /** The store of the entry is still on the entry's route. */
  predicate Present(routes: seq<Route>, e: Entry)
  {
    e.route < |routes| && e.store.id in StoreIds(routes[e.route])
  }

  /** `route.remove_stop(stop.store.id)` on the entry's route. */
  function Strip(routes: seq<Route>, e: Entry): (rs: seq<Route>)
    requires e.route < |routes|
    ensures |rs| == |routes|
  {
    routes[e.route := WithoutStop(routes[e.route], e.store.id).0]
  }

  lemma EntryKeys(routes: seq<Route>)
    ensures MapSeq(Entries(routes), Key) == FlatMapIdx(routes, RouteKeys)
  {
    forall k: nat, r: Route ensures MapSeq(RouteEntries(k, r), Key) == RouteKeys(k, r) {
      MapSeqIs(RouteEntries(k, r), Key, RouteKeys(k, r));
    }
    MapSeqFlatMapIdx(routes, RouteEntries, Key, RouteKeys);
  }

  /** Every entry is a stop of its route. */
  lemma EntriesPresent(routes: seq<Route>, e: Entry)
    requires e in Entries(routes)
    ensures Present(routes, e)
  {
    FlatMapIdxHas(routes, RouteEntries, e);
    var k :| 0 <= k < |routes| && e in RouteEntries(k, routes[k]);
    var j :| 0 <= j < |routes[k].stops| && RouteEntries(k, routes[k])[j] == e;
    assert StoreIds(routes[k])[j] == e.store.id;
  }

  lemma PairsHas(routes: seq<Route>, k: nat, id: string)
    requires (k, id) in Pairs(routes)
    ensures k < |routes| && id in StoreIds(routes[k])
  {
    FlatMapIdxHas(routes, RouteKeys, (k, id));
    var i :| 0 <= i < |routes| && (k, id) in RouteKeys(i, routes[i]);
    var j :| 0 <= j < |routes[i].stops| && RouteKeys(i, routes[i])[j] == (k, id);
    assert StoreIds(routes[i])[j] == id;
  }

  /** Removing a store from its route removes one (route, store) pair. */
  lemma PairsRemove(routes: seq<Route>, k: nat, id: string)
    requires k < |routes| && id in StoreIds(routes[k])
    ensures Pairs(routes[k := WithoutStop(routes[k], id).0]) + multiset{(k, id)} == Pairs(routes)
  {
    var r := routes[k];
    var r' := WithoutStop(r, id).0;
    var p := FirstStopOf(r.stops, id).value;
    var keys := RouteKeys(k, r);
    assert RouteKeys(k, r') == DeleteAt(keys, p);
    assert keys[p] == (k, id);
    FlatMapIdxUpdate(routes, k, r', RouteKeys);
    MultisetCancel(Pairs(routes[k := r']) + multiset{(k, id)}, Pairs(routes), multiset(RouteKeys(k, r')));
  }

  /** Removing a store from its route removes one occurrence of its id from the served ids. */
  lemma ServedIdsRemove(routes: seq<Route>, k: nat, id: string)
    requires k < |routes| && id in StoreIds(routes[k])
    ensures multiset(ServedIds(routes[k := WithoutStop(routes[k], id).0])) + multiset{id} == multiset(ServedIds(routes))
  {
    var r := routes[k];
    var r' := WithoutStop(r, id).0;
    var p := FirstStopOf(r.stops, id).value;
    assert StoreIds(r)[p] == id;
    FlatMapUpdate(routes, k, r', StoreIds);
    MultisetCancel(multiset(ServedIds(routes[k := r'])) + multiset{id}, multiset(ServedIds(routes)), multiset(StoreIds(r')));
  }

  /** The removal loop over a list of entries, in order: an entry whose store is still on
      its route is removed from it and its store recorded; one whose store is gone is
      passed over. */
  function StripAll(routes: seq<Route>, es: seq<Entry>): (res: (seq<Route>, seq<Store>))
    ensures |res.0| == |routes|
  {
    if es == [] then (routes, [])
    else
      var prev := StripAll(routes, es[..|es| - 1]);
      var e := es[|es| - 1];
      if Present(prev.0, e) then (Strip(prev.0, e), prev.1 + [e.store]) else prev
  }

  lemma StripAllSnoc(routes: seq<Route>, es: seq<Entry>, e: Entry)
    ensures StripAll(routes, es + [e])
         == (var prev := StripAll(routes, es); if Present(prev.0, e) then (Strip(prev.0, e), prev.1 + [e.store]) else prev)
  {
    assert (es + [e])[..|es|] == es;
  }

  /** `route.remove_stop(stop.store.id)` and `removed.append(stop.store)` for one entry. */
  method RemoveEntry(routes: seq<Route>, removed: seq<Store>, e: Entry) returns (routes': seq<Route>, removed': seq<Store>)
    requires Present(routes, e)
    ensures TakeOut((routes, removed), Some(e)) == Some((routes', removed'))
  {
    var r', _ := RemoveStop(routes[e.route], e.store.id);
    routes' := routes[e.route := r'];
    removed' := removed + [e.store];
  }

  /** Taking a present entry's store off its route and recording it keeps every stop
      accounted for. */
  lemma KeepStep(routes: seq<Route>, removed: seq<Store>, e: Entry)
    requires Present(routes, e)
    ensures multiset(ServedIds(Strip(routes, e))) + multiset(IdsOf(removed + [e.store]))
         == multiset(ServedIds(routes)) + multiset(IdsOf(removed))
  {
    ServedIdsRemove(routes, e.route, e.store.id);
    var ids := IdsOf(removed);
    assert IdsOf(removed + [e.store]) == ids + [e.store.id];
    assert multiset(ids + [e.store.id]) == multiset(ids) + multiset{e.store.id};
  }

  /** The stops left and the stores taken out together account for every stop served before. */
  lemma {:induction false} StripAllKeepsStores(routes: seq<Route>, es: seq<Entry>)
    ensures multiset(ServedIds(StripAll(routes, es).0)) + multiset(IdsOf(StripAll(routes, es).1))
         == multiset(ServedIds(routes))
  {
    if es != [] {
      var init, e := es[..|es| - 1], es[|es| - 1];
      StripAllKeepsStores(routes, init);
      var prev := StripAll(routes, init);
      if Present(prev.0, e) {
        KeepStep(prev.0, prev.1, e);
      }
    }
  }

  /** Only stores of the listed entries are taken out, each at most as often as listed, so
      no more stores than entries. */
  lemma {:induction false} StripAllTakesListed(routes: seq<Route>, es: seq<Entry>)
    ensures multiset(StripAll(routes, es).1) <= multiset(MapSeq(es, EntryStore))
    ensures |StripAll(routes, es).1| <= |es|
  {
    if es != [] {
      var init, e := es[..|es| - 1], es[|es| - 1];
      StripAllTakesListed(routes, init);
      MapSeqSnoc(init, e, EntryStore);
      assert es == init + [e];
    }
  }

  /** When the entries are stops of the routes, counted with repetition, every entry is
      taken out in turn: the stores removed are the entries' stores, and the pairs left
      are those not listed. */
  lemma {:induction false} StripAllRemovesAll(routes: seq<Route>, es: seq<Entry>)
    requires multiset(MapSeq(es, Key)) <= Pairs(routes)
    ensures StripAll(routes, es).1 == MapSeq(es, EntryStore)
    ensures Pairs(StripAll(routes, es).0) + multiset(MapSeq(es, Key)) == Pairs(routes)
  {
    if es != [] {
      var init, e := es[..|es| - 1], es[|es| - 1];
      assert es == init + [e];
      MapSeqSnoc(init, e, Key);
      MapSeqSnoc(init, e, EntryStore);
      var before := multiset(MapSeq(init, Key));
      assert multiset(MapSeq(es, Key)) == before + multiset{Key(e)};
      StripAllRemovesAll(routes, init);
      var cur := StripAll(routes, init).0;
      assert Pairs(routes)[Key(e)] == Pairs(cur)[Key(e)] + before[Key(e)];
      assert Key(e) in Pairs(cur);
      PairsHas(cur, e.route, e.store.id);
      PairsRemove(cur, e.route, e.store.id);
    }
  }

  /** A shuffle lists each stop once, so the first `m` entries are stops, counted with repetition. */
  lemma PrefixKeys(routes: seq<Route>, shuffled: seq<Entry>, m: nat)
    requires multiset(shuffled) == multiset(Entries(routes)) && m <= |shuffled|
    ensures multiset(MapSeq(shuffled[..m], Key)) <= Pairs(routes)
  {
    MapSeqPerm(shuffled, Entries(routes), Key);
    EntryKeys(routes);
    assert shuffled == shuffled[..m] + shuffled[m..];
    MapSeqConcat(shuffled[..m], shuffled[m..], Key);
  }

  /** Along a shuffle of the stops, the store of the i-th entry is still on its route when
      its turn comes. */
  lemma ShuffledPresent(routes: seq<Route>, shuffled: seq<Entry>, i: nat)
    requires multiset(shuffled) == multiset(Entries(routes)) && i < |shuffled|
    ensures Present(StripAll(routes, shuffled[..i]).0, shuffled[i])
  {
    PrefixKeys(routes, shuffled, i);
    PrefixKeys(routes, shuffled, i + 1);
    StripAllRemovesAll(routes, shuffled[..i]);
    StripAllRemovesAll(routes, shuffled[..i + 1]);
    assert shuffled[..i + 1][..i] == shuffled[..i];
  }

  /** `max(1, int(total * destruction_rate))` with the rate 0.3 taken as exactly 3/10: at
      least one, else the largest n with 10·n at most 3·total. */
  function NumToRemove(total: nat): (n: nat)
    ensures n >= 1
    ensures n == 1 || 10 * n <= 3 * total
    ensures 3 * total < 10 * (n + 1)
  {
    if 3 * total / 10 < 1 then 1 else 3 * total / 10
  }

  /** `_random_removal`: the first `num` entries of the shuffled `all_stops` (all of them
      when there are fewer) are taken out, each from its own route. */
  method RandomRemoval(routes: seq<Route>, num: nat, shuffled: seq<Entry>) returns (routes': seq<Route>, removed: seq<Store>)
    requires multiset(shuffled) == multiset(Entries(routes))
    ensures var m := if num < |shuffled| then num else |shuffled|;
            && (routes', removed) == StripAll(routes, shuffled[..m])
            && removed == MapSeq(shuffled[..m], EntryStore)
            && Pairs(routes') + multiset(MapSeq(shuffled[..m], Key)) == Pairs(routes)
  {
    routes', removed := routes, [];
    if shuffled == [] {
      return;
    }
    var m := if num < |shuffled| then num else |shuffled|;
    var i := 0;
    while i < m
      invariant i <= m
      invariant (routes', removed) == StripAll(routes, shuffled[..i])
    {
      var e := shuffled[i];
      ShuffledPresent(routes, shuffled, i);
      assert shuffled[..i + 1][..i] == shuffled[..i];
      var r', _ := RemoveStop(routes'[e.route], e.store.id);
      routes' := routes'[e.route := r'];
      removed := removed + [e.store];
      i := i + 1;
    }
    PrefixKeys(routes, shuffled, m);
    StripAllRemovesAll(routes, shuffled[..m]);
  }

  /** `_time_based_removal`: its body is that of `_random_removal` (the day is not used). */
  method TimeBasedRemoval(routes: seq<Route>, num: nat, day: string, shuffled: seq<Entry>)
    returns (routes': seq<Route>, removed: seq<Store>)
    requires multiset(shuffled) == multiset(Entries(routes))
    ensures var m := if num < |shuffled| then num else |shuffled|;
            && (routes', removed) == StripAll(routes, shuffled[..m])
            && removed == MapSeq(shuffled[..m], EntryStore)
  {
    routes', removed := RandomRemoval(routes, num, shuffled);
  }

  /** The distance saved by dropping the stop at index p of the tour `ids` through
      `depot`: the two legs around it are replaced by one, and a tour of one stop saves
      twice the depot-to-stop distance. */
  function DropSaving(ids: seq<string>, p: nat, dm: Matrix, depot: string): real
    requires p < |ids|
  {
    var x := ids[p];
    if |ids| == 1 then Get(dm, depot, x) * 2.0
    else if p == 0 then Get(dm, depot, x) + Get(dm, x, ids[1]) - Get(dm, depot, ids[1])
    else if p == |ids| - 1 then Get(dm, ids[|ids| - 2], x) + Get(dm, x, depot) - Get(dm, ids[|ids| - 2], depot)
    else Get(dm, ids[p - 1], x) + Get(dm, x, ids[p + 1]) - Get(dm, ids[p - 1], ids[p + 1])
  }

  /** `_calculate_removal_saving`: the saving of dropping the first stop of the store from
      the route, through the solver's depot; 0 when the store is not on the route. */
  function RemovalSaving(ctx: SolverContext, r: Route, storeId: string): real
  {
    match FirstStopOf(r.stops, storeId)
    case None => 0.0
    case Some(p) => DropSaving(StoreIds(r), p, ctx.distanceMatrix, ctx.depotId)
  }

  /** The saving is what the closed tour loses when the stop is dropped; for a tour of one
      stop, only when the depot-to-stop distance is the same both ways. */
  lemma DropSavingIsTourShrink(ids: seq<string>, p: nat, dm: Matrix, depot: string)
    requires p < |ids|
    requires |ids| == 1 ==> Get(dm, depot, ids[0]) == Get(dm, ids[0], depot)
    ensures DropSaving(ids, p, dm, depot) == RouteDistance(ids, dm, depot) - RouteDistance(DeleteAt(ids, p), dm, depot)
  {
    if |ids| == 1 {
      assert DeleteAt(ids, p) == [];
    } else if p == 0 {
      assert DeleteAt(ids, p) == ids[1..];
      DropFront(ids, dm, depot);
    } else if p == |ids| - 1 {
      assert DeleteAt(ids, p) == ids[..p];
      DropBack(ids, dm, depot);
    } else {
      DropInside(ids, p, dm, depot);
    }
  }

  lemma DropFront(ids: seq<string>, dm: Matrix, depot: string)
    requires |ids| > 1
    ensures RouteDistance(ids, dm, depot) - RouteDistance(ids[1..], dm, depot)
         == Get(dm, depot, ids[0]) + Get(dm, ids[0], ids[1]) - Get(dm, depot, ids[1])
  {
    var b := ids[1..];
    assert ids == [ids[0]] + b;
    LegsConcat([ids[0]], b, dm);
  }

  lemma DropBack(ids: seq<string>, dm: Matrix, depot: string)
    requires |ids| > 1
    ensures RouteDistance(ids, dm, depot) - RouteDistance(ids[..|ids| - 1], dm, depot)
         == Get(dm, ids[|ids| - 2], ids[|ids| - 1]) + Get(dm, ids[|ids| - 1], depot) - Get(dm, ids[|ids| - 2], depot)
  {
  }

  lemma DropInside(ids: seq<string>, p: nat, dm: Matrix, depot: string)
    requires 0 < p < |ids| - 1
    ensures RouteDistance(ids, dm, depot) - RouteDistance(ids[..p] + ids[p + 1..], dm, depot)
         == Get(dm, ids[p - 1], ids[p]) + Get(dm, ids[p], ids[p + 1]) - Get(dm, ids[p - 1], ids[p + 1])
  {
    var a, x, b := ids[..p], ids[p], ids[p + 1..];
    assert ids == (a + [x]) + b;
    LegsConcat(a + [x], b, dm);
    LegsConcat(a, [x], dm);
    LegsConcat(a, b, dm);
  }

  /** The removal saving is what the route's closed tour through the solver's depot loses
      when the store's first stop is dropped; for a route with this one stop, only when
      the depot-to-store distance is the same both ways. */
  lemma RemovalSavingIsTourShrink(ctx: SolverContext, r: Route, storeId: string)
    requires storeId in StoreIds(r)
    requires |r.stops| == 1 ==>
               Get(ctx.distanceMatrix, ctx.depotId, storeId) == Get(ctx.distanceMatrix, storeId, ctx.depotId)
    ensures RemovalSaving(ctx, r, storeId)
         == RouteDistance(StoreIds(r), ctx.distanceMatrix, ctx.depotId)
          - RouteDistance(StoreIds(WithoutStop(r, storeId).0), ctx.distanceMatrix, ctx.depotId)
  {
    var p := FirstStopOf(r.stops, storeId).value;
    assert StoreIds(r)[p] == storeId;
    DropSavingIsTourShrink(StoreIds(r), p, ctx.distanceMatrix, ctx.depotId);
  }

  /** The saving `_worst_removal` computes for an entry on the current routes. */
  function SavingOf(ctx: SolverContext, routes: seq<Route>, e: Entry): real
  {
    if e.route < |routes| then RemovalSaving(ctx, routes[e.route], e.store.id) else 0.0
  }

  /** The key the scan of `_worst_removal` minimises: the negated saving, so the first
      entry of largest saving is kept. */
  function SavingKey(ctx: SolverContext, routes: seq<Route>): Entry -> real
  {
    (e: Entry) => -SavingOf(ctx, routes, e)
  }

  /** The stop `_worst_removal` picks: the first of largest saving, none without stops. */
  function WorstEntry(ctx: SolverContext, routes: seq<Route>): Option<Entry>
  {
    MinFold(None, Entries(routes), SavingKey(ctx, routes))
  }

  /** Takes the picked entry's store off its route and records it; none without a pick. */
  function TakeOut(st: (seq<Route>, seq<Store>), pick: Option<Entry>): Option<(seq<Route>, seq<Store>)>
  {
    match pick
    case None => None
    case Some(e) => if Present(st.0, e) then Some((Strip(st.0, e), st.1 + [e.store])) else None
  }

  /** One round of `_worst_removal` on (routes, removed); none when no stop is left. */
  function WorstNext(ctx: SolverContext, st: (seq<Route>, seq<Store>)): Option<(seq<Route>, seq<Store>)>
  {
    TakeOut(st, WorstEntry(ctx, st.0))
  }

  function WorstNextOf(ctx: SolverContext): ((seq<Route>, seq<Store>)) -> Option<(seq<Route>, seq<Store>)>
  {
    st => WorstNext(ctx, st)
  }

  /** `_worst_removal`: up to `num` rounds, stopping early once no stop is left. */
  function WorstRemoved(ctx: SolverContext, routes: seq<Route>, num: nat): (seq<Route>, seq<Store>)
  {
    Iterate(WorstNextOf(ctx), (routes, []), num)
  }

  /** There is a pick exactly when some route has a stop, and the pick is a stop. */
  lemma WorstEntryPresent(ctx: SolverContext, routes: seq<Route>)
    ensures WorstEntry(ctx, routes).Some? <==> Entries(routes) != []
    ensures WorstEntry(ctx, routes).Some? ==> Present(routes, WorstEntry(ctx, routes).value)
  {
    var all := Entries(routes);
    MinFoldIsFirstMin(all, SavingKey(ctx, routes));
    if all != [] {
      EntriesPresent(routes, all[FirstMin(all, SavingKey(ctx, routes))]);
    }
  }

  /** The pick of a round has the largest saving of all stops, and is the first such stop
      in route order. */
  lemma WorstEntryIsWorst(ctx: SolverContext, routes: seq<Route>)
    requires Entries(routes) != []
    ensures var w, all := WorstEntry(ctx, routes).value, Entries(routes);
            exists i :: 0 <= i < |all| && all[i] == w
              && (forall j :: 0 <= j < |all| ==> SavingOf(ctx, routes, all[j]) <= SavingOf(ctx, routes, w))
              && (forall j :: 0 <= j < i ==> SavingOf(ctx, routes, all[j]) < SavingOf(ctx, routes, w))
  {
    var all := Entries(routes);
    MinFoldIsFirstMin(all, SavingKey(ctx, routes));
    var i := FirstMin(all, SavingKey(ctx, routes));
    assert all[i] == WorstEntry(ctx, routes).value;
  }

  /** The number of stops left on the routes. */
  function StopsLeft(st: (seq<Route>, seq<Store>)): nat
  {
    |Entries(st.0)|
  }

  lemma EntriesCount(routes: seq<Route>)
    ensures |Entries(routes)| == |Pairs(routes)|
  {
    EntryKeys(routes);
  }

  /** Taking a stop out leaves one stop fewer and records its store. */
  lemma TakeOutStep(st: (seq<Route>, seq<Store>), e: Entry)
    requires Present(st.0, e)
    ensures var st' := TakeOut(st, Some(e)).value;
            && StopsLeft(st') + 1 == StopsLeft(st)
            && multiset(ServedIds(st'.0)) + multiset(IdsOf(st'.1)) == multiset(ServedIds(st.0)) + multiset(IdsOf(st.1))
            && |st'.1| == |st.1| + 1
  {
    PairsRemove(st.0, e.route, e.store.id);
    EntriesCount(st.0);
    EntriesCount(Strip(st.0, e));
    KeepStep(st.0, st.1, e);
  }

  /** What a round of worst removal keeps: the number of routes, the stores accounted
      for, and the count of stops taken out plus stops left. */
  ghost predicate WorstKeeps(routes: seq<Route>, st: (seq<Route>, seq<Store>))
  {
    && |st.0| == |routes|
    && multiset(ServedIds(st.0)) + multiset(IdsOf(st.1)) == multiset(ServedIds(routes))
    && |st.1| + StopsLeft(st) == |Entries(routes)|
  }

  /** `_worst_removal` takes out `num` stops, or every stop when there are fewer, and the
      stops left and the stores taken out account for every stop served before. */
  lemma WorstRemovedFacts(ctx: SolverContext, routes: seq<Route>, num: nat)
    ensures var (rs, removed) := WorstRemoved(ctx, routes, num);
            && |rs| == |routes|
            && multiset(ServedIds(rs)) + multiset(IdsOf(removed)) == multiset(ServedIds(routes))
            && |removed| == if num < |Entries(routes)| then num else |Entries(routes)|
  {
    var step := WorstNextOf(ctx);
    var x: (seq<Route>, seq<Store>) := (routes, []);
    var keeps := st => WorstKeeps(routes, st);
    forall a | step(a).Some? ensures StopsLeft(step(a).value) + 1 == StopsLeft(a) && (keeps(a) ==> keeps(step(a).value)) {
      TakeOutStep(a, WorstEntry(ctx, a.0).value);
    }
    IterateKeeps(step, keeps, x, num);
    IterateCounts(step, StopsLeft, x, num);
    IterateStops(step, x, num);
    var final := Iterate(step, x, num);
    if Steps(step, x, num) < num {
      WorstEntryPresent(ctx, final.0);
    }
  }

  /** The scan of one route in `_worst_removal`, continuing from `acc`. */
  method ScanRouteWorst(ctx: SolverContext, routes: seq<Route>, k: nat, acc: Option<Entry>, accSaving: real)
    returns (worst: Option<Entry>, worstSaving: real)
    requires k < |routes|
    requires acc.Some? ==> accSaving == SavingOf(ctx, routes, acc.value)
    ensures worst == MinFold(acc, RouteEntries(k, routes[k]), SavingKey(ctx, routes))
    ensures worst.Some? ==> worstSaving == SavingOf(ctx, routes, worst.value)
  {
    var route := routes[k];
    var es := RouteEntries(k, route);
    worst, worstSaving := acc, accSaving;
    var j := 0;
    while j < |route.stops|
      invariant j <= |route.stops|
      invariant worst == MinFold(acc, es[..j], SavingKey(ctx, routes))
      invariant worst.Some? ==> worstSaving == SavingOf(ctx, routes, worst.value)
    {
      var saving := RemovalSaving(ctx, route, route.stops[j].store.id);
      MinFoldSnoc(acc, es[..j], es[j], SavingKey(ctx, routes));
      assert es[..j + 1] == es[..j] + [es[j]];
      if worst.None? || saving > worstSaving {
        worst, worstSaving := Some(Entry(k, route.stops[j].store)), saving;
      }
      j := j + 1;
    }
    assert es[..j] == es;
  }

  /** The double loop of `_worst_removal` over every stop of every route. */
  method FindWorst(ctx: SolverContext, routes: seq<Route>) returns (worst: Option<Entry>)
    ensures worst == WorstEntry(ctx, routes)
  {
    worst := None;
    var worstSaving := 0.0;
    var k := 0;
    while k < |routes|
      invariant k <= |routes|
      invariant worst == MinFold(None, Entries(routes[..k]), SavingKey(ctx, routes))
      invariant worst.Some? ==> worstSaving == SavingOf(ctx, routes, worst.value)
    {
      ghost var before := worst;
      worst, worstSaving := ScanRouteWorst(ctx, routes, k, worst, worstSaving);
      FlatMapIdxPrefix(routes, k, RouteEntries);
      MinFoldConcat(None, Entries(routes[..k]), RouteEntries(k, routes[k]), SavingKey(ctx, routes));
      k := k + 1;
    }
    assert routes[..k] == routes;
  }

  /** `step` is a round of worst removal, stated on each state it is taken on. */
  ghost predicate IsWorstStep(ctx: SolverContext, step: ((seq<Route>, seq<Store>)) -> Option<(seq<Route>, seq<Store>)>)
  {
    forall st {:trigger WorstNext(ctx, st)} :: step(st) == WorstNext(ctx, st)
  }

  /** One round of `_worst_removal`: the scan for the worst stop, then its removal;
      `done` when no route has a stop left. */
  method WorstRoundOnce(ctx: SolverContext, routes: seq<Route>, removed: seq<Store>,
                        ghost step: ((seq<Route>, seq<Store>)) -> Option<(seq<Route>, seq<Store>)>)
    returns (done: bool, routes': seq<Route>, removed': seq<Store>)
    requires IsWorstStep(ctx, step)
    ensures step((routes, removed)) == if done then None else Some((routes', removed'))
    ensures done ==> routes' == routes && removed' == removed
  {
    var worst := FindWorst(ctx, routes);
    assert step((routes, removed)) == WorstNext(ctx, (routes, removed)) == TakeOut((routes, removed), worst);
    if worst.None? {
      return true, routes, removed;
    }
    WorstEntryPresent(ctx, routes);
    done := false;
    routes', removed' := RemoveEntry(routes, removed, worst.value);
  }

  /** The rounds of `_worst_removal`. */
  method WorstRounds(ctx: SolverContext, routes: seq<Route>, num: nat, ghost step: ((seq<Route>, seq<Store>)) -> Option<(seq<Route>, seq<Store>)>)
    returns (routes': seq<Route>, removed: seq<Store>)
    requires IsWorstStep(ctx, step)
    ensures (routes', removed) == Iterate(step, (routes, []), num)
  {
    routes', removed := routes, [];
    var i := 0;
    while i < num
      invariant i <= num
      invariant Iterate(step, (routes', removed), num - i) == Iterate(step, (routes, []), num)
    {
      IterateUnfold(step, (routes', removed), num - i);
      var done;
      done, routes', removed := WorstRoundOnce(ctx, routes', removed, step);
      if done {
        break;
      }
      i := i + 1;
    }
  }

  /** `_worst_removal`. */
  method WorstRemoval(ctx: SolverContext, routes: seq<Route>, num: nat) returns (routes': seq<Route>, removed: seq<Store>)
    ensures (routes', removed) == WorstRemoved(ctx, routes, num)
  {
    assert IsWorstStep(ctx, WorstNextOf(ctx));
    routes', removed := WorstRounds(ctx, routes, num, WorstNextOf(ctx));
  }

  function Abs(x: real): real
  {
    if x < 0.0 then -x else x
  }

  /** Shaw relatedness to the seed store, lower for more related: the distance from the
      seed (0 when the matrix has no entry) plus ten times the difference in demand. */
  function Similarity(ctx: SolverContext, seed: Store): Entry -> real
  {
    (e: Entry) => Get(ctx.distanceMatrix, seed.id, e.store.id) + Abs(seed.demandCbm - e.store.demandCbm) * 10.0
  }

  /** The seed `random.choice` draws: the entry at `pick`, wrapped into range. */
  function SeedOf(all: seq<Entry>, pick: nat): Store
    requires all != []
  {
    all[pick % |all|].store
  }

  /** `all_stops` sorted by relatedness to the seed; the sort is stable. */
  function ShawOrder(ctx: SolverContext, routes: seq<Route>, pick: nat): seq<Entry>
    requires Entries(routes) != []
  {
    SortByKey(Entries(routes), Similarity(ctx, SeedOf(Entries(routes), pick)))
  }

  /** An order of the stops lists only stops. */
  lemma OrderPresent(routes: seq<Route>, order: seq<Entry>)
    requires multiset(order) == multiset(Entries(routes))
    ensures forall j :: 0 <= j < |order| ==> Present(routes, order[j])
  {
    forall j | 0 <= j < |order| ensures Present(routes, order[j]) {
      assert order[j] in multiset(Entries(routes));
      EntriesPresent(routes, order[j]);
    }
  }

  /** The removal loop of `_shaw_removal` over the first `m` entries of `order`: an entry
      is taken out only while its store is still on its route. */
  method StripPrefix(routes: seq<Route>, order: seq<Entry>, m: nat) returns (routes': seq<Route>, removed: seq<Store>)
    requires m <= |order|
    requires forall j :: 0 <= j < |order| ==> order[j].route < |routes|
    ensures (routes', removed) == StripAll(routes, order[..m])
  {
    routes', removed := routes, [];
    var i := 0;
    while i < m
      invariant i <= m
      invariant (routes', removed) == StripAll(routes, order[..i])
    {
      var e := order[i];
      StripAllSnoc(routes, order[..i], e);
      assert order[..i + 1] == order[..i] + [e];
      if e.store.id in StoreIds(routes'[e.route]) {
        routes', removed := RemoveEntry(routes', removed, e);
      }
      i := i + 1;
    }
  }

  /** `_shaw_removal`: the `num` entries most related to the seed (all of them when there
      are fewer) are taken out, each only while its store is still on its route. */
  method ShawRemoval(ctx: SolverContext, routes: seq<Route>, num: nat, pick: nat)
    returns (routes': seq<Route>, removed: seq<Store>)
    ensures Entries(routes) == [] ==> routes' == routes && removed == []
    ensures Entries(routes) != [] ==>
              var m := if num < |Entries(routes)| then num else |Entries(routes)|;
              (routes', removed) == StripAll(routes, ShawOrder(ctx, routes, pick)[..m])
  {
    var all := Entries(routes);
    if all == [] {
      return routes, [];
    }
    var seed := all[pick % |all|].store;
    var order := SortByKey(all, Similarity(ctx, seed));
    OrderPresent(routes, order);
    routes', removed := StripPrefix(routes, order, if num < |order| then num else |order|);
  }

  /** Shaw removal takes out only stores of the `m` entries most related to the seed: those
      entries come first in an order of the stops sorted by relatedness. */
  lemma ShawRemovesMostRelated(ctx: SolverContext, routes: seq<Route>, num: nat, pick: nat)
    requires Entries(routes) != []
    ensures var all := Entries(routes);
            var order, m := ShawOrder(ctx, routes, pick), if num < |all| then num else |all|;
            var sim := Similarity(ctx, SeedOf(all, pick));
            && multiset(order) == multiset(all)
            && (forall i, j :: 0 <= i < m <= j < |order| ==> sim(order[i]) <= sim(order[j]))
            && multiset(StripAll(routes, order[..m]).1) <= multiset(MapSeq(order[..m], EntryStore))
  {
    var all := Entries(routes);
    var m := if num < |all| then num else |all|;
    SortByKeySorted(all, Similarity(ctx, SeedOf(all, pick)));
    StripAllTakesListed(routes, ShawOrder(ctx, routes, pick)[..m]);
  }

  /** The random draws of one destroy step: sort keys that shuffle `all_stops`, and an
      index from which Shaw removal takes its seed. */
  datatype Draw = Draw(rank: Entry -> real, pick: nat)

  /** `random.shuffle(all_stops)`: the stops in the order of the drawn keys. */
  function Shuffled(routes: seq<Route>, rank: Entry -> real): seq<Entry>
  {
    SortByKey(Entries(routes), rank)
  }

  /** The routes and removed stores `_apply_destroy` returns for the operator name; an
      unknown name removes nothing. */
  function Destroyed(ctx: SolverContext, routes: seq<Route>, op: string, draw: Draw): (seq<Route>, seq<Store>)
  {
    var all := Entries(routes);
    var num := NumToRemove(|all|);
    var m := if num < |all| then num else |all|;
    if op == "random" || op == "time_based" then StripAll(routes, Shuffled(routes, draw.rank)[..m])
    else if op == "worst" then WorstRemoved(ctx, routes, num)
    else if op == "shaw" then (if all == [] then (routes, []) else StripAll(routes, ShawOrder(ctx, routes, draw.pick)[..m]))
    else (routes, [])
  }

  /** Whatever the operator, the routes keep their number, and the stops left and the
      stores removed account for every stop served before. Random and time-based removal
      take out 30% of the stops, rounded down, and at least one while any is left. */
  lemma DestroyedKeepsStores(ctx: SolverContext, routes: seq<Route>, op: string, draw: Draw)
    ensures var (rs, removed) := Destroyed(ctx, routes, op, draw);
            && |rs| == |routes|
            && multiset(ServedIds(rs)) + multiset(IdsOf(removed)) == multiset(ServedIds(routes))
            && ((op == "random" || op == "time_based" || op == "worst") ==>
                  var all := Entries(routes);
                  var num := NumToRemove(|all|);
                  |removed| == if num < |all| then num else |all|)
            && |removed| <= NumToRemove(|Entries(routes)|)
            && (op != "random" && op != "time_based" && op != "worst" && op != "shaw" ==> rs == routes && removed == [])
  {
    var all := Entries(routes);
    var num := NumToRemove(|all|);
    var m := if num < |all| then num else |all|;
    if op == "random" || op == "time_based" {
      var shuffled := Shuffled(routes, draw.rank);
      StripAllKeepsStores(routes, shuffled[..m]);
      PrefixKeys(routes, shuffled, m);
      StripAllRemovesAll(routes, shuffled[..m]);
    } else if op == "worst" {
      WorstRemovedFacts(ctx, routes, num);
    } else if op == "shaw" && all != [] {
      StripAllKeepsStores(routes, ShawOrder(ctx, routes, draw.pick)[..m]);
      StripAllTakesListed(routes, ShawOrder(ctx, routes, draw.pick)[..m]);
    }
  }

  /** `sum(len(r.stops) for r in routes)` is the number of entries of `all_stops`. */
  lemma {:induction false} EntriesCountStops(routes: seq<Route>)
    ensures |Entries(routes)| == CountOf(routes, (r: Route) => |r.stops|)
  {
    if routes != [] {
      EntriesCountStops(routes[..|routes| - 1]);
    }
  }

  /** `_apply_destroy`. */
  method ApplyDestroy(ctx: SolverContext, solution: Solution, op: string, day: string, draw: Draw)
    returns (routes: seq<Route>, removed: seq<Store>)
    ensures (routes, removed) == Destroyed(ctx, solution.routes, op, draw)
  {
    routes, removed := solution.routes, [];
    EntriesCountStops(routes);
    var num := NumToRemove(CountOf(routes, (r: Route) => |r.stops|));
    if op == "random" {
      routes, removed := RandomRemoval(routes, num, Shuffled(routes, draw.rank));
    } else if op == "worst" {
      routes, removed := WorstRemoval(ctx, routes, num);
    } else if op == "shaw" {
      routes, removed := ShawRemoval(ctx, routes, num, draw.pick);
    } else if op == "time_based" {
      routes, removed := TimeBasedRemoval(routes, num, day, Shuffled(routes, draw.rank));
    }
  }
}
