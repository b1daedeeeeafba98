/** A vehicle route: an ordered list of stops with running metrics
    (vrp_solver/models/route.py). Routes are values here: `AddStop` and
    `RemoveStop` return the updated route instead of editing it in place. */
module Routes {
  import opened Common
  import opened TimeWindows
  import opened Stores
  import opened Vehicles

  /** A visit; arrival and departure are instants in minutes (see Validator). */
  datatype RouteStop = RouteStop(store: Store, arrivalTime: Option<real>, departureTime: Option<real>, sequence: int)

  datatype Route = Route(
    vehicle: Vehicle,
    stops: seq<RouteStop>,
    day: Option<string>,
    totalDistanceKm: real,
    totalDurationMinutes: real,
    totalLoadCbm: real,
    depotDeparture: Option<real>,
    depotReturn: Option<real>)

  /** `Route(vehicle=v, day=d)`: no stops, zero metrics, no depot times. */
  function NewRoute(vehicle: Vehicle, day: Option<string>): Route
  {
    Route(vehicle, [], day, 0.0, 0.0, 0.0, None, None)
  }

  function StoresOf(stops: seq<RouteStop>): (r: seq<Store>)
    ensures |r| == |stops| && forall i :: 0 <= i < |stops| ==> r[i] == stops[i].store
  {
    seq(|stops|, i requires 0 <= i < |stops| => stops[i].store)
  }

  /** `get_store_ids`: the store ids in visiting order. */
  function StoreIds(r: Route): (ids: seq<string>)
    ensures |ids| == |r.stops| && forall i :: 0 <= i < |ids| ==> ids[i] == r.stops[i].store.id
  {
    seq(|r.stops|, i requires 0 <= i < |r.stops| => r.stops[i].store.id)
  }

  /** The ids of a list of stores, in order. */
  function IdsOf(stores: seq<Store>): (ids: seq<string>)
    ensures |ids| == |stores| && forall i :: 0 <= i < |stores| ==> ids[i] == stores[i].id
  {
    seq(|stores|, i requires 0 <= i < |stores| => stores[i].id)
  }

  lemma StoreIdsOfStores(r: Route)
    ensures StoreIds(r) == IdsOf(StoresOf(r.stops))
  {
  }

  lemma IdsOfConcat(a: seq<Store>, b: seq<Store>)
    ensures IdsOf(a + b) == IdsOf(a) + IdsOf(b)
  {
  }

  /** Sum of the demands of a list of stores. */
  function Demand(stores: seq<Store>): real
  {
    SumOf(stores, (s: Store) => s.demandCbm)
  }

  lemma DemandConcat(a: seq<Store>, b: seq<Store>)
    ensures Demand(a + b) == Demand(a) + Demand(b)
  {
    SumOfConcat(a, b, (s: Store) => s.demandCbm);
  }

  /** The route's load field agrees with the demands of its stops. */
  predicate LoadConsistent(r: Route)
  {
    r.totalLoadCbm == Demand(StoresOf(r.stops))
  }

  /** Where Python's `list.insert(position, x)` puts x in a list of length `len`:
      negative positions count from the end, and positions are clamped into range. */
  function InsertIndex(len: nat, position: int): (k: nat)
    ensures k <= len
    ensures 0 <= position <= len ==> k == position
  {
    if position < 0 then (if len + position < 0 then 0 else len + position)
    else if position > len then len
    else position
  }

  /** Every stop's `sequence` set to its index. */
  function Resequenced(stops: seq<RouteStop>): (r: seq<RouteStop>)
    ensures |r| == |stops| && forall i :: 0 <= i < |r| ==> r[i] == stops[i].(sequence := i)
  {
    seq(|stops|, i requires 0 <= i < |stops| => stops[i].(sequence := i))
  }

  lemma StoresOfResequenced(stops: seq<RouteStop>)
    ensures StoresOf(Resequenced(stops)) == StoresOf(stops)
  {
  }

  /** The route after `add_stop(store, position)`. */
  function WithStop(r: Route, store: Store, position: Option<int>): (r': Route)
    ensures |r'.stops| == |r.stops| + 1
    ensures r'.totalLoadCbm == r.totalLoadCbm + store.demandCbm
    ensures r' == r.(stops := r'.stops, totalLoadCbm := r'.totalLoadCbm)
    ensures position.None? ==> r'.stops == r.stops + [RouteStop(store, None, None, |r.stops|)]
    ensures position.Some? ==>
              var k := InsertIndex(|r.stops|, position.value);
              && r'.stops[k] == RouteStop(store, None, None, k)
              && (forall i :: 0 <= i < k ==> r'.stops[i] == r.stops[i].(sequence := i))
              && (forall i :: k < i < |r'.stops| ==> r'.stops[i] == r.stops[i - 1].(sequence := i))
              && (forall i :: 0 <= i < |r'.stops| ==> r'.stops[i].sequence == i)
  {
    var stop := RouteStop(store, None, None, |r.stops|);
    var stops := match position
      case None => r.stops + [stop]
      case Some(p) => Resequenced(InsertAt(r.stops, InsertIndex(|r.stops|, p), stop));
    r.(stops := stops, totalLoadCbm := r.totalLoadCbm + store.demandCbm)
  }

  /** Index of the first stop serving `storeId`. */
  function FirstStopOf(stops: seq<RouteStop>, storeId: string): (k: Option<nat>)
    ensures k.Some? ==> k.value < |stops| && stops[k.value].store.id == storeId
                        && forall j :: 0 <= j < k.value ==> stops[j].store.id != storeId
    ensures k.None? <==> forall j :: 0 <= j < |stops| ==> stops[j].store.id != storeId
  {
    if stops == [] then None
    else if stops[0].store.id == storeId then Some(0)
    else match FirstStopOf(stops[1..], storeId)
         case Some(k) => Some(k + 1)
         case None =>
           assert forall j :: 1 <= j < |stops| ==> stops[j] == stops[1..][j - 1];
           None
  }

  /** The route after `remove_stop(storeId)`, and the value that call returns. */
  function WithoutStop(r: Route, storeId: string): (res: (Route, bool))
    ensures res.1 <==> storeId in StoreIds(r)
    ensures !res.1 ==> res.0 == r
    ensures res.1 ==>
              var k := FirstStopOf(r.stops, storeId).value;
              && res.0 == r.(stops := Resequenced(DeleteAt(r.stops, k)),
                             totalLoadCbm := r.totalLoadCbm - r.stops[k].store.demandCbm)
              && StoreIds(res.0) == DeleteAt(StoreIds(r), k)
  {
    match FirstStopOf(r.stops, storeId)
    case None => (r, false)
    case Some(k) =>
      var r' := r.(stops := Resequenced(DeleteAt(r.stops, k)),
                   totalLoadCbm := r.totalLoadCbm - r.stops[k].store.demandCbm);
      assert StoreIds(r') == DeleteAt(StoreIds(r), k);
      (r', true)
  }

  /** The renumbering loop `for i, s in enumerate(stops): s.sequence = i`. */
  method Resequence(stops: seq<RouteStop>) returns (r: seq<RouteStop>)
    ensures r == Resequenced(stops)
  {
    r := stops;
    var i := 0;
    while i < |r|
      invariant 0 <= i <= |r| == |stops|
      invariant forall j :: 0 <= j < i ==> r[j] == stops[j].(sequence := j)
      invariant forall j :: i <= j < |r| ==> r[j] == stops[j]
    {
      r := r[i := r[i].(sequence := i)];
      i := i + 1;
    }
  }

  /** `add_stop`: appends, or inserts at `position` and renumbers every stop. */
  method AddStop(r: Route, store: Store, position: Option<int>) returns (r': Route)
    ensures r' == WithStop(r, store, position)
  {
    var stop := RouteStop(store, None, None, |r.stops|);
    var stops: seq<RouteStop>;
    if position.None? {
      stops := r.stops + [stop];
    } else {
      stops := InsertAt(r.stops, InsertIndex(|r.stops|, position.value), stop);
      stops := Resequence(stops);
    }
    r' := r.(stops := stops, totalLoadCbm := r.totalLoadCbm + store.demandCbm);
  }

  /** `remove_stop`: drops the first stop serving `storeId` and renumbers the rest. */
  method RemoveStop(r: Route, storeId: string) returns (r': Route, removed: bool)
    ensures (r', removed) == WithoutStop(r, storeId)
  {
    var i := 0;
    while i < |r.stops| && r.stops[i].store.id != storeId
      invariant 0 <= i <= |r.stops|
      invariant forall j :: 0 <= j < i ==> r.stops[j].store.id != storeId
    {
      i := i + 1;
    }
    if i == |r.stops| {
      return r, false;
    }
    assert FirstStopOf(r.stops, storeId) == Some(i);
    var load := r.totalLoadCbm - r.stops[i].store.demandCbm;
    var stops := Resequence(DeleteAt(r.stops, i));
    return r.(stops := stops, totalLoadCbm := load), true;
  }

  /** `get_load_utilization`: load as a percentage of capacity, 0 for a zero-capacity vehicle. */
  function LoadUtilization(r: Route): real
  {
    if r.vehicle.capacityCbm == 0.0 then 0.0 else r.totalLoadCbm / r.vehicle.capacityCbm * 100.0
  }

  predicate IsValidCapacity(r: Route)
  {
    r.totalLoadCbm <= r.vehicle.capacityCbm
  }

  predicate IsValidDuration(r: Route)
  {
    r.totalDurationMinutes <= r.vehicle.maxRouteDurationHours * 60.0
  }

  /** `calculate_cost`: the vehicle's fixed cost plus its per-km cost over the route. */
  function CalculateCost(r: Route): real
  {
    r.vehicle.fixedCost + r.totalDistanceKm * r.vehicle.costPerKm
  }

  /** On a positive capacity, utilization is at most 100 exactly when the capacity holds. */
  lemma UtilizationWithinCapacity(r: Route)
    requires r.vehicle.capacityCbm > 0.0
    ensures LoadUtilization(r) <= 100.0 <==> IsValidCapacity(r)
  {
    var c := r.vehicle.capacityCbm;
    var q := r.totalLoadCbm / c;
    assert q * c == r.totalLoadCbm;
    if q <= 1.0 {
      assert q * c <= c;
    } else {
      assert q * c > c;
    }
  }

  /** A longer route never costs less when the per-km cost is non-negative. */
  lemma CostMonotoneInDistance(r: Route, d: real)
    requires r.vehicle.costPerKm >= 0.0 && d >= r.totalDistanceKm
    ensures CalculateCost(r.(totalDistanceKm := d)) >= CalculateCost(r)
  {
    assert (d - r.totalDistanceKm) * r.vehicle.costPerKm >= 0.0;
  }

  /** Adding a store keeps the store list as the old list with the store inserted,
      at the end or at the clamped position. */
  lemma {:induction false} WithStopStores(r: Route, store: Store, position: Option<int>)
    ensures var k := if position.None? then |r.stops| else InsertIndex(|r.stops|, position.value);
            StoresOf(WithStop(r, store, position).stops) == InsertAt(StoresOf(r.stops), k, store)
  {
    var r' := WithStop(r, store, position);
    var k := if position.None? then |r.stops| else InsertIndex(|r.stops|, position.value);
    var expected := InsertAt(StoresOf(r.stops), k, store);
    assert |StoresOf(r'.stops)| == |expected|;
    forall i | 0 <= i < |expected| ensures StoresOf(r'.stops)[i] == expected[i] {
      if i < k {
      } else if i == k {
      } else {
      }
    }
  }

  /** Adding a store keeps the load field consistent with the stops. */
  lemma {:induction false} WithStopKeepsLoad(r: Route, store: Store, position: Option<int>)
    requires LoadConsistent(r)
    ensures LoadConsistent(WithStop(r, store, position))
  {
    var k := if position.None? then |r.stops| else InsertIndex(|r.stops|, position.value);
    WithStopStores(r, store, position);
    SumOfInsertAt(StoresOf(r.stops), k, store, (s: Store) => s.demandCbm);
  }

  /** Where `add_stop` puts the new stop: last without a position, else at the clamped position. */
  function AddedAt(r: Route, position: Option<int>): (k: nat)
    ensures k <= |r.stops|
  {
    if position.None? then |r.stops| else InsertIndex(|r.stops|, position.value)
  }

  /** A store not yet on the route is found, after `add_stop`, exactly where it was added. */
  lemma {:induction false} AddedStopIsFirst(r: Route, store: Store, position: Option<int>)
    requires store.id !in StoreIds(r)
    ensures FirstStopOf(WithStop(r, store, position).stops, store.id) == Some(AddedAt(r, position))
  {
    var stops := WithStop(r, store, position).stops;
    var k := AddedAt(r, position);
    assert stops[k].store.id == store.id;
    forall j | 0 <= j < k ensures stops[j].store.id != store.id {
      assert stops[j].store == r.stops[j].store;
      assert StoreIds(r)[j] == r.stops[j].store.id;
    }
    var f := FirstStopOf(stops, store.id);
    assert f.Some? && f.value <= k;
    assert f.value >= k;
  }

  /** Inserting a new store and then removing it by id restores the store ids and the load. */
  lemma {:induction false} AddThenRemove(r: Route, store: Store, position: Option<int>)
    requires store.id !in StoreIds(r)
    ensures var (r'', ok) := WithoutStop(WithStop(r, store, position), store.id);
            ok && StoreIds(r'') == StoreIds(r) && r''.totalLoadCbm == r.totalLoadCbm
  {
    var r' := WithStop(r, store, position);
    var k := AddedAt(r, position);
    AddedStopIsFirst(r, store, position);
    var res := WithoutStop(r', store.id);
    assert StoreIds(res.0) == DeleteAt(StoreIds(r'), k);
    IdsOfWithStop(r, store, position);
    DeleteInserted(StoreIds(r), k, store.id);
  }

  /** The store ids after `add_stop`: the new id inserted where the stop was added. */
  lemma {:induction false} IdsOfWithStop(r: Route, store: Store, position: Option<int>)
    ensures StoreIds(WithStop(r, store, position)) == InsertAt(StoreIds(r), AddedAt(r, position), store.id)
  {
    var ids, k := StoreIds(WithStop(r, store, position)), AddedAt(r, position);
    var expected := InsertAt(StoreIds(r), k, store.id);
    forall j | 0 <= j < |ids| ensures ids[j] == expected[j] {
      if j < k {
        assert ids[j] == StoreIds(r)[j];
      } else if j > k {
        assert ids[j] == StoreIds(r)[j - 1];
      }
    }
  }
}
