/** Full constraint validation of a route (vrp_solver/constraints/validator.py).
    Instants are minutes since midnight of the planning epoch, so a datetime's
    `.time()` is the instant modulo one day. Violations are data rather than
    formatted messages. */
module Validator {
  import opened Common
  import opened TimeWindows
  import opened Stores
  import opened Vehicles
  import opened Routes
  import opened Distance
  import Checker

  /** The validator's default service time per stop, in minutes. */
  const DefaultServiceMinutes: int := 60

  /** Travel time assumed between two locations missing from the time matrix. */
  const DefaultTravelMinutes: real := 5.0

  /** The utilization the capacity penalty is measured against, in percent. */
  const TargetUtilization: real := 85.0

  datatype Violation =
    | CapacityExceeded(load: real, capacity: real)
    | TimeWindowViolation(storeId: string, arrival: Clock, window: TimeWindow)
    | ForbiddenViolation(storeId: string, arrival: Clock, interval: ForbiddenInterval)
    | FleetViolation(vehicleId: string, storeId: string)
    | DayViolation(storeId: string, day: string, excludedDays: seq<string>)
    | DurationExceeded(durationMinutes: real, maxMinutes: real)

  /** Whole days elapsed at instant t (1440 minutes each). */
  function DayIndex(t: real): int
  {
    (t / 1440.0).Floor
  }

  /** `instant.time()`: the clock reading of an instant. */
  function TimeOfDay(t: real): Clock
  {
    var k := DayIndex(t);
    assert k as real <= t / 1440.0 < k as real + 1.0;
    assert k as real * 1440.0 <= t < k as real * 1440.0 + 1440.0;
    t - k as real * 1440.0
  }

  /** An instant is its whole days plus its clock reading. */
  lemma TimeOfDayParts(t: real)
    ensures t == DayIndex(t) as real * 1440.0 + TimeOfDay(t)
  {
  }

  /** The clock reading of a whole number of days plus a time of day is that time of day. */
  lemma TimeOfDayShift(k: int, c: Clock)
    ensures TimeOfDay(k as real * 1440.0 + c) == c
  {
    var t := k as real * 1440.0 + c;
    assert t / 1440.0 == k as real + c / 1440.0;
    assert 0.0 <= c / 1440.0 < 1.0;
    assert DayIndex(t) == k;
  }

  /** Travel time on a leg: the time-matrix entry, or 5 minutes when there is none. */
  function Travel(tm: Matrix, a: string, b: string): real
  {
    if Has(tm, a, b) then tm[a][b] else DefaultTravelMinutes
  }

  /** `arrival.replace(hour=h, minute=m)` with h:m the window's opening: same day,
      the opening minute, and the arrival's seconds kept. */
  function WaitUntil(arrival: real, earliest: Minute): real
  {
    var tod := TimeOfDay(arrival);
    arrival - tod + earliest as real + (tod - tod.Floor as real)
  }

  /** Waiting for an early arrival moves the start strictly later, to a clock reading
      within the window's opening minute. */
  lemma WaitUntilOpening(arrival: real, earliest: Minute)
    requires TimeOfDay(arrival) < earliest as real
    ensures WaitUntil(arrival, earliest) > arrival
    ensures earliest as real <= TimeOfDay(WaitUntil(arrival, earliest)) < earliest as real + 1.0
  {
    var tod := TimeOfDay(arrival);
    var frac := tod - tod.Floor as real;
    assert tod.Floor < earliest;
    var c: Clock := earliest as real + frac;
    var k := DayIndex(arrival);
    TimeOfDayParts(arrival);
    assert WaitUntil(arrival, earliest) == k as real * 1440.0 + c;
    TimeOfDayShift(k, c);
  }

  /** When service starts at a stop reached at `arrival`: at the arrival, or at the
      window's opening when the arrival's clock reading is earlier. */
  function StartTime(arrival: real, w: Option<TimeWindow>): real
  {
    if w.Some? && TimeOfDay(arrival) < w.value.earliest as real then WaitUntil(arrival, w.value.earliest) else arrival
  }

  /** The time-window violation of an arrival, if its clock reading is outside the window. */
  function Missed(storeId: string, arrival: real, w: Option<TimeWindow>): seq<Violation>
  {
    if w.Some? && !w.value.Contains(TimeOfDay(arrival)) then [TimeWindowViolation(storeId, TimeOfDay(arrival), w.value)] else []
  }

  /** A stop stamped with the start of its service and a departure `svc` minutes later. */
  function Stamp(stop: RouteStop, start: real, svc: int): RouteStop
  {
    stop.(arrivalTime := Some(start), departureTime := Some(start + svc as real))
  }

  /** When service starts at `stop`, driving from `prevId` with the clock at `time`. */
  function ServiceStart(time: real, stop: RouteStop, prevId: string, day: Option<string>, tm: Matrix): real
  {
    StartTime(time + Travel(tm, prevId, stop.store.id), stop.store.GetTimeWindowForDay(day))
  }

  /** Where the vehicle comes from before stop i: the depot, then the previous stop. */
  function PrevId(stops: seq<RouteStop>, i: nat): string
    requires i < |stops|
  {
    if i == 0 then Checker.DepotId else stops[i - 1].store.id
  }

  /** The clock of the time-window pass once the first n stops are served, leaving the
      depot at `departure`. */
  function DepartAfter(stops: seq<RouteStop>, n: nat, day: Option<string>, tm: Matrix, svc: int, departure: real): real
    requires n <= |stops|
  {
    if n == 0 then departure
    else ServiceStart(DepartAfter(stops, n - 1, day, tm, svc, departure), stops[n - 1], PrevId(stops, n - 1), day, tm) + svc as real
  }

  /** When the vehicle reaches stop i, before any wait for its window. */
  function ArrivalAt(stops: seq<RouteStop>, i: nat, day: Option<string>, tm: Matrix, svc: int, departure: real): real
    requires i < |stops|
  {
    DepartAfter(stops, i, day, tm, svc, departure) + Travel(tm, PrevId(stops, i), stops[i].store.id)
  }

  /** When service starts at stop i. */
  function StartAt(stops: seq<RouteStop>, i: nat, day: Option<string>, tm: Matrix, svc: int, departure: real): real
    requires i < |stops|
  {
    ServiceStart(DepartAfter(stops, i, day, tm, svc, departure), stops[i], PrevId(stops, i), day, tm)
  }

  /** The first n stops as the pass stamps them. */
  function Stamped(stops: seq<RouteStop>, n: nat, day: Option<string>, tm: Matrix, svc: int, departure: real): (r: seq<RouteStop>)
    requires n <= |stops|
    ensures |r| == n
  {
    if n == 0 then []
    else Stamped(stops, n - 1, day, tm, svc, departure) + [Stamp(stops[n - 1], StartAt(stops, n - 1, day, tm, svc, departure), svc)]
  }

  /** Stop i of the stamped list is stop i stamped with its own service start. */
  lemma {:induction false} StampedAt(stops: seq<RouteStop>, n: nat, i: nat, day: Option<string>, tm: Matrix, svc: int, departure: real)
    requires i < n <= |stops|
    ensures Stamped(stops, n, day, tm, svc, departure)[i] == Stamp(stops[i], StartAt(stops, i, day, tm, svc, departure), svc)
  {
    if i < n - 1 {
      StampedAt(stops, n - 1, i, day, tm, svc, departure);
    }
  }

  /** The time-window violations the pass reports over the first n stops, in route order. */
  function WindowViolations(stops: seq<RouteStop>, n: nat, day: Option<string>, tm: Matrix, svc: int, departure: real): seq<Violation>
    requires n <= |stops|
  {
    if n == 0 then []
    else WindowViolations(stops, n - 1, day, tm, svc, departure)
         + Missed(stops[n - 1].store.id, ArrivalAt(stops, n - 1, day, tm, svc, departure), stops[n - 1].store.GetTimeWindowForDay(day))
  }

  /** `_check_time_windows`: the violations and the route with arrival, departure,
      depot-return and duration written back; nothing happens without stops or a departure time. */
  function TimeWindowCheck(route: Route, tm: Matrix, svc: int): (seq<Violation>, Route)
  {
    if route.stops == [] || route.depotDeparture.None? then ([], route)
    else
      var dep := route.depotDeparture.value;
      var n := |route.stops|;
      var back := DepartAfter(route.stops, n, route.day, tm, svc, dep);
      (WindowViolations(route.stops, n, route.day, tm, svc, dep),
       route.(stops := Stamped(route.stops, n, route.day, tm, svc, dep), depotReturn := Some(back), totalDurationMinutes := back - dep))
  }

  /** One pass of the time-window loop: drive from `prev` with the clock at `current`,
      record the arrival, report it if it misses the window, wait for an early window,
      and serve for `svc` minutes. */
  method ServeStop(current: real, stop: RouteStop, prev: string, day: Option<string>, tm: Matrix, svc: int)
    returns (missed: seq<Violation>, stamped: RouteStop, departure: real)
    ensures missed == Missed(stop.store.id, current + Travel(tm, prev, stop.store.id), stop.store.GetTimeWindowForDay(day))
    ensures stamped == Stamp(stop, ServiceStart(current, stop, prev, day, tm), svc)
    ensures Some(departure) == stamped.departureTime
  {
    var travel := if Has(tm, prev, stop.store.id) then tm[prev][stop.store.id] else DefaultTravelMinutes;
    var arrival := current + travel;
    missed := [];
    var w := stop.store.GetTimeWindowForDay(day);
    if w.Some? {
      var tod := TimeOfDay(arrival);
      if !w.value.Contains(tod) {
        missed := [TimeWindowViolation(stop.store.id, tod, w.value)];
      }
      if tod < w.value.earliest as real {
        arrival := WaitUntil(arrival, w.value.earliest);
      }
    }
    departure := arrival + svc as real;
    stamped := stop.(arrivalTime := Some(arrival), departureTime := Some(departure));
  }

  /** The loop body at stop i, with the clock at the departure from the previous location. */
  method ServeStopAt(route: seq<RouteStop>, i: nat, current: real, day: Option<string>, tm: Matrix, svc: int, ghost dep: real)
    returns (missed: seq<Violation>, stamped: RouteStop, departure: real)
    requires i < |route| && current == DepartAfter(route, i, day, tm, svc, dep)
    ensures missed == Missed(route[i].store.id, ArrivalAt(route, i, day, tm, svc, dep), route[i].store.GetTimeWindowForDay(day))
    ensures stamped == Stamp(route[i], StartAt(route, i, day, tm, svc, dep), svc)
    ensures departure == StartAt(route, i, day, tm, svc, dep) + svc as real
  {
    var prev := if i == 0 then Checker.DepotId else route[i - 1].store.id;
    assert prev == PrevId(route, i);
    missed, stamped, departure := ServeStop(current, route[i], prev, day, tm, svc);
  }

  /** `_check_time_windows`. Python stamps the route's stop objects in place; here the
      stamped stops are collected in visiting order and replace the route's list. */
  method CheckTimeWindows(route: Route, tm: Matrix, svc: int) returns (violations: seq<Violation>, route': Route)
    ensures (violations, route') == TimeWindowCheck(route, tm, svc)
  {
    if route.stops == [] || route.depotDeparture.None? {
      return [], route;
    }
    var dep := route.depotDeparture.value;
    var current, stops;
    current, violations, stops := RunTimeWindows(route.stops, route.day, tm, svc, dep);
    route' := route.(stops := stops, depotReturn := Some(current), totalDurationMinutes := current - dep);
  }

  /** The loop of `_check_time_windows`: every stop served in order, leaving the depot at `dep`. */
  method RunTimeWindows(route: seq<RouteStop>, day: Option<string>, tm: Matrix, svc: int, dep: real)
    returns (current: real, violations: seq<Violation>, stops: seq<RouteStop>)
    ensures current == DepartAfter(route, |route|, day, tm, svc, dep)
    ensures violations == WindowViolations(route, |route|, day, tm, svc, dep)
    ensures stops == Stamped(route, |route|, day, tm, svc, dep)
  {
    current, violations, stops := dep, [], [];
    var i := 0;
    while i < |route|
      invariant 0 <= i <= |route|
      invariant current == DepartAfter(route, i, day, tm, svc, dep)
      invariant violations == WindowViolations(route, i, day, tm, svc, dep)
      invariant stops == Stamped(route, i, day, tm, svc, dep)
    {
      var missed, stamped, departure := ServeStopAt(route, i, current, day, tm, svc, dep);
      PassStep(route, i, day, tm, svc, dep);
      violations := violations + missed;
      stops := stops + [stamped];
      current := departure;
      i := i + 1;
    }
  }

  /** Serving stop i extends the clock, the violations and the stamped stops by that stop alone. */
  lemma {:induction false} PassStep(stops: seq<RouteStop>, i: nat, day: Option<string>, tm: Matrix, svc: int, departure: real)
    requires i < |stops|
    ensures DepartAfter(stops, i + 1, day, tm, svc, departure) == StartAt(stops, i, day, tm, svc, departure) + svc as real
    ensures WindowViolations(stops, i + 1, day, tm, svc, departure)
            == WindowViolations(stops, i, day, tm, svc, departure)
               + Missed(stops[i].store.id, ArrivalAt(stops, i, day, tm, svc, departure), stops[i].store.GetTimeWindowForDay(day))
    ensures Stamped(stops, i + 1, day, tm, svc, departure)
            == Stamped(stops, i, day, tm, svc, departure) + [Stamp(stops[i], StartAt(stops, i, day, tm, svc, departure), svc)]
  {
  }

  /** `v` is `stop` stamped with some service start and a departure `svc` minutes later. */
  predicate IsStampOf(v: RouteStop, stop: RouteStop, svc: int)
  {
    && v.store == stop.store && v.sequence == stop.sequence
    && v.arrivalTime.Some? && v.departureTime == Some(v.arrivalTime.value + svc as real)
  }

  /** Each visited stop is the corresponding route stop, stamped. */
  predicate AllStamped(visited: seq<RouteStop>, stops: seq<RouteStop>, svc: int)
  {
    |visited| <= |stops| && forall i {:trigger visited[i]} :: 0 <= i < |visited| ==> IsStampOf(visited[i], stops[i], svc)
  }

  /** Every stamped stop is reached no earlier than the previous one was left. */
  predicate Chronological(visited: seq<RouteStop>)
  {
    forall i :: 0 < i < |visited| ==> LeavesBefore(visited[i - 1], visited[i])
  }

  /** `a` is left no later than `b` is reached. */
  predicate LeavesBefore(a: RouteStop, b: RouteStop)
  {
    a.departureTime.Some? && b.arrivalTime.Some? && a.departureTime.value <= b.arrivalTime.value
  }

  /** What the time-window pass leaves behind: every stop keeps its store and place, is
      stamped with an arrival and a departure `svc` later, at most one violation per stop,
      and the clock stands at the last departure. */
  lemma {:induction false} PassShape(stops: seq<RouteStop>, n: nat, day: Option<string>, tm: Matrix, svc: int, departure: real)
    requires n <= |stops|
    ensures |WindowViolations(stops, n, day, tm, svc, departure)| <= n
    ensures AllStamped(Stamped(stops, n, day, tm, svc, departure), stops, svc)
    ensures n > 0 ==> Some(DepartAfter(stops, n, day, tm, svc, departure))
                      == Stamped(stops, n, day, tm, svc, departure)[n - 1].departureTime
  {
    ViolationsPerStop(stops, n, day, tm, svc, departure);
    AllStampedByPass(stops, n, day, tm, svc, departure);
    if n > 0 {
      StampedAt(stops, n, n - 1, day, tm, svc, departure);
    }
  }

  /** Every stop the pass has visited is the route's stop at that place, stamped. */
  lemma {:induction false} AllStampedByPass(stops: seq<RouteStop>, n: nat, day: Option<string>, tm: Matrix, svc: int, departure: real)
    requires n <= |stops|
    ensures AllStamped(Stamped(stops, n, day, tm, svc, departure), stops, svc)
  {
    forall i | 0 <= i < n ensures IsStampOf(Stamped(stops, n, day, tm, svc, departure)[i], stops[i], svc) {
      StampedAt(stops, n, i, day, tm, svc, departure);
    }
  }

  /** The pass reports at most one time-window violation per stop. */
  lemma {:induction false} ViolationsPerStop(stops: seq<RouteStop>, n: nat, day: Option<string>, tm: Matrix, svc: int, departure: real)
    requires n <= |stops|
    ensures |WindowViolations(stops, n, day, tm, svc, departure)| <= n
  {
    if n > 0 {
      ViolationsPerStop(stops, n - 1, day, tm, svc, departure);
    }
  }

  /** Travel times read from a matrix without negative entries are never negative. */
  lemma TravelNonNegative(tm: Matrix, a: string, b: string)
    requires forall a, b :: Has(tm, a, b) ==> tm[a][b] >= 0.0
    ensures Travel(tm, a, b) >= 0.0
  {
  }

  /** Service at a stop starts no earlier than the clock stood when the vehicle left. */
  lemma ServiceStartNotEarlier(time: real, stop: RouteStop, prevId: string, day: Option<string>, tm: Matrix)
    requires forall a, b :: Has(tm, a, b) ==> tm[a][b] >= 0.0
    ensures ServiceStart(time, stop, prevId, day, tm) >= time
  {
    TravelNonNegative(tm, prevId, stop.store.id);
    StartNotBeforeArrival(time + Travel(tm, prevId, stop.store.id), stop.store.GetTimeWindowForDay(day));
  }

  /** With non-negative travel times the pass takes at least `svc` minutes per stop. */
  lemma {:induction false} PassTakesService(stops: seq<RouteStop>, n: nat, day: Option<string>, tm: Matrix, svc: int, departure: real)
    requires n <= |stops|
    requires forall a, b :: Has(tm, a, b) ==> tm[a][b] >= 0.0
    ensures DepartAfter(stops, n, day, tm, svc, departure) >= departure + ServiceTotal(n, svc)
  {
    if n > 0 {
      PassTakesService(stops, n - 1, day, tm, svc, departure);
      ServiceStartNotEarlier(DepartAfter(stops, n - 1, day, tm, svc, departure), stops[n - 1], PrevId(stops, n - 1), day, tm);
    }
  }

  /** With non-negative travel times the clock never runs backwards: each stop is
      reached no earlier than the previous one was left. */
  lemma {:induction false} PassChronological(stops: seq<RouteStop>, n: nat, day: Option<string>, tm: Matrix, svc: int, departure: real)
    requires n <= |stops|
    requires forall a, b :: Has(tm, a, b) ==> tm[a][b] >= 0.0
    ensures Chronological(Stamped(stops, n, day, tm, svc, departure))
  {
    var s := Stamped(stops, n, day, tm, svc, departure);
    forall i | 0 < i < n ensures LeavesBefore(s[i - 1], s[i]) {
      StampedAt(stops, n, i - 1, day, tm, svc, departure);
      StampedAt(stops, n, i, day, tm, svc, departure);
      ServiceStartNotEarlier(DepartAfter(stops, i, day, tm, svc, departure), stops[i], PrevId(stops, i), day, tm);
    }
  }

  /** n stops' worth of service time, `svc` minutes each. */
  function ServiceTotal(n: nat, svc: int): real
  {
    if n == 0 then 0.0 else ServiceTotal(n - 1, svc) + svc as real
  }

  lemma {:induction false} ServiceTotalIsProduct(n: nat, svc: int)
    ensures ServiceTotal(n, svc) == (n * svc) as real
  {
    if n > 0 {
      ServiceTotalIsProduct(n - 1, svc);
      assert (n - 1) * svc + svc == n * svc;
    }
  }

  lemma StartNotBeforeArrival(arrival: real, w: Option<TimeWindow>)
    ensures StartTime(arrival, w) >= arrival
  {
    if w.Some? && TimeOfDay(arrival) < w.value.earliest as real {
      WaitUntilOpening(arrival, w.value.earliest);
    }
  }

  /** An arrival earlier than the window's opening starts service later, inside the opening
      minute; any other arrival starts service on arrival. */
  lemma StartTimeWaitsForWindow(arrival: real, w: Option<TimeWindow>)
    ensures w.Some? && TimeOfDay(arrival) < w.value.earliest as real ==>
              && StartTime(arrival, w) > arrival
              && w.value.earliest as real <= TimeOfDay(StartTime(arrival, w)) < w.value.earliest as real + 1.0
    ensures w.None? || TimeOfDay(arrival) >= w.value.earliest as real ==> StartTime(arrival, w) == arrival
  {
    if w.Some? && TimeOfDay(arrival) < w.value.earliest as real {
      WaitUntilOpening(arrival, w.value.earliest);
    }
  }

  /** With non-negative travel and service times, the duration the validator writes back
      is at least the total service time. */
  lemma TimeWindowDuration(route: Route, tm: Matrix, svc: int)
    requires route.stops != [] && route.depotDeparture.Some?
    requires forall a, b :: Has(tm, a, b) ==> tm[a][b] >= 0.0
    ensures TimeWindowCheck(route, tm, svc).1.totalDurationMinutes >= (|route.stops| * svc) as real
    ensures TimeWindowCheck(route, tm, svc).1.depotReturn
            == Some(route.depotDeparture.value + TimeWindowCheck(route, tm, svc).1.totalDurationMinutes)
    ensures Chronological(TimeWindowCheck(route, tm, svc).1.stops)
  {
    PassTakesService(route.stops, |route.stops|, route.day, tm, svc, route.depotDeparture.value);
    PassChronological(route.stops, |route.stops|, route.day, tm, svc, route.depotDeparture.value);
    ServiceTotalIsProduct(|route.stops|, svc);
  }

  /** Violations for one stop's forbidden intervals, in list order. */
  function Conflicts(storeId: string, tod: Clock, fs: seq<ForbiddenInterval>): seq<Violation>
  {
    if fs == [] then []
    else
      var init := Conflicts(storeId, tod, fs[..|fs| - 1]);
      var last := fs[|fs| - 1];
      if last.ConflictsWith(tod) then init + [ForbiddenViolation(storeId, tod, last)] else init
  }

  /** A stop's forbidden-interval check reports nothing exactly when the store has no conflict. */
  lemma {:induction false} NoConflicts(storeId: string, tod: Clock, fs: seq<ForbiddenInterval>)
    ensures Conflicts(storeId, tod, fs) == [] <==> !AnyConflict(fs, tod)
  {
    ForbiddenConflictMeansSomeInterval(fs, tod);
    if fs != [] {
      var init := fs[..|fs| - 1];
      NoConflicts(storeId, tod, init);
      ForbiddenConflictMeansSomeInterval(init, tod);
      assert forall i :: 0 <= i < |init| ==> init[i] == fs[i];
      if !fs[|fs| - 1].ConflictsWith(tod) && AnyConflict(fs, tod) {
        var i :| 0 <= i < |fs| && fs[i].ConflictsWith(tod);
        assert init[i] == fs[i];
      }
    }
  }

  /** The forbidden-interval violations of one stop; a stop never stamped has none. */
  function StopForbidden(stop: RouteStop): seq<Violation>
  {
    if stop.arrivalTime.None? then []
    else Conflicts(stop.store.id, TimeOfDay(stop.arrivalTime.value), stop.store.forbiddenIntervals)
  }

  function ForbiddenViolations(stops: seq<RouteStop>): seq<Violation>
  {
    if stops == [] then []
    else
      ForbiddenViolations(stops[..|stops| - 1]) + StopForbidden(stops[|stops| - 1])
  }

  /** `_check_forbidden_intervals`: every (stop, interval) pair whose interval holds the
      stop's arrival time of day, in route order. */
  method CheckForbiddenIntervals(route: Route) returns (violations: seq<Violation>)
    ensures violations == ForbiddenViolations(route.stops)
  {
    violations := [];
    var i := 0;
    while i < |route.stops|
      invariant 0 <= i <= |route.stops|
      invariant violations == ForbiddenViolations(route.stops[..i])
    {
      var stop := route.stops[i];
      ghost var before := violations;
      if stop.arrivalTime.Some? {
        var tod := TimeOfDay(stop.arrivalTime.value);
        var fs := stop.store.forbiddenIntervals;
        var j := 0;
        while j < |fs|
          invariant 0 <= j <= |fs|
          invariant violations == before + Conflicts(stop.store.id, tod, fs[..j])
        {
          assert fs[..j + 1][..j] == fs[..j];
          if fs[j].ConflictsWith(tod) {
            violations := violations + [ForbiddenViolation(stop.store.id, tod, fs[j])];
          }
          j := j + 1;
        }
        assert fs[..j] == fs;
      }
      assert violations == before + StopForbidden(stop);
      ForbiddenStep(route.stops, i);
      i := i + 1;
    }
    assert route.stops[..i] == route.stops;
  }

  lemma {:induction false} ForbiddenStep(stops: seq<RouteStop>, i: nat)
    requires i < |stops|
    ensures ForbiddenViolations(stops[..i + 1]) == ForbiddenViolations(stops[..i]) + StopForbidden(stops[i])
  {
    assert stops[..i + 1][..i] == stops[..i];
  }

  /** No forbidden-interval violation exactly when no stamped stop arrives inside one of its intervals. */
  lemma {:induction false} NoForbiddenViolations(stops: seq<RouteStop>)
    ensures ForbiddenViolations(stops) == [] <==>
            forall i :: 0 <= i < |stops| && stops[i].arrivalTime.Some? ==>
              !stops[i].store.HasForbiddenConflict(TimeOfDay(stops[i].arrivalTime.value))
  {
    if stops != [] {
      var init := stops[..|stops| - 1];
      var last := stops[|stops| - 1];
      NoForbiddenViolations(init);
      if last.arrivalTime.Some? {
        NoConflicts(last.store.id, TimeOfDay(last.arrivalTime.value), last.store.forbiddenIntervals);
      }
      assert forall i :: 0 <= i < |init| ==> init[i] == stops[i];
    }
  }

  /** One fleet violation per stop the vehicle may not serve, in route order. */
  function FleetViolations(v: Vehicle, stops: seq<RouteStop>): seq<Violation>
  {
    if stops == [] then []
    else
      var last := stops[|stops| - 1];
      FleetViolations(v, stops[..|stops| - 1]) + (if v.CanServeStore(last.store.id) then [] else [FleetViolation(v.id, last.store.id)])
  }

  /** No fleet violation exactly when the vehicle may serve every stop; at most one per stop. */
  lemma {:induction false} NoFleetViolations(v: Vehicle, stops: seq<RouteStop>)
    ensures |FleetViolations(v, stops)| <= |stops|
    ensures FleetViolations(v, stops) == [] <==> forall i :: 0 <= i < |stops| ==> v.CanServeStore(stops[i].store.id)
  {
    if stops != [] {
      var init := stops[..|stops| - 1];
      NoFleetViolations(v, init);
      assert forall i :: 0 <= i < |init| ==> init[i] == stops[i];
    }
  }

  /** `_check_fleet_restrictions`. */
  method CheckFleetRestrictions(route: Route) returns (violations: seq<Violation>)
    ensures violations == FleetViolations(route.vehicle, route.stops)
  {
    violations := [];
    var i := 0;
    while i < |route.stops|
      invariant 0 <= i <= |route.stops|
      invariant violations == FleetViolations(route.vehicle, route.stops[..i])
    {
      assert route.stops[..i + 1][..i] == route.stops[..i];
      if !route.vehicle.CanServeStore(route.stops[i].store.id) {
        violations := violations + [FleetViolation(route.vehicle.id, route.stops[i].store.id)];
      }
      i := i + 1;
    }
    assert route.stops[..i] == route.stops;
  }

  /** `if route.day:` — a route has a day to check when it has a non-empty one. */
  predicate HasDay(route: Route)
  {
    route.day.Some? && route.day.value != ""
  }

  /** One day violation per stop that excludes `day`, in route order. */
  function DayViolations(stops: seq<RouteStop>, day: string): seq<Violation>
  {
    if stops == [] then []
    else
      var last := stops[|stops| - 1];
      DayViolations(stops[..|stops| - 1], day)
        + (if last.store.IsDayAllowed(day) then [] else [DayViolation(last.store.id, day, last.store.excludedDays)])
  }

  /** No day violation exactly when every stop allows the day; at most one per stop. */
  lemma {:induction false} NoDayViolations(stops: seq<RouteStop>, day: string)
    ensures |DayViolations(stops, day)| <= |stops|
    ensures DayViolations(stops, day) == [] <==> forall i :: 0 <= i < |stops| ==> stops[i].store.IsDayAllowed(day)
  {
    if stops != [] {
      var init := stops[..|stops| - 1];
      NoDayViolations(init, day);
      assert forall i :: 0 <= i < |init| ==> init[i] == stops[i];
    }
  }

  /** `_check_day_exclusions`: nothing to report on a route without a day. */
  method CheckDayExclusions(route: Route) returns (violations: seq<Violation>)
    ensures violations == if HasDay(route) then DayViolations(route.stops, route.day.value) else []
  {
    violations := [];
    if !HasDay(route) {
      return;
    }
    var day := route.day.value;
    var i := 0;
    while i < |route.stops|
      invariant 0 <= i <= |route.stops|
      invariant violations == DayViolations(route.stops[..i], day)
    {
      assert route.stops[..i + 1][..i] == route.stops[..i];
      var store := route.stops[i].store;
      if !store.IsDayAllowed(day) {
        violations := violations + [DayViolation(store.id, day, store.excludedDays)];
      }
      i := i + 1;
    }
    assert route.stops[..i] == route.stops;
  }

  /** `validate_route`: the verdict, the violations in the order the checks run
      (capacity, time windows, forbidden intervals, fleet, day, duration), and the
      route as the time-window pass leaves it. */
  function Validate(route: Route, tm: Matrix, svc: int): (bool, seq<Violation>, Route)
  {
    var cap := if IsValidCapacity(route) then [] else [CapacityExceeded(route.totalLoadCbm, route.vehicle.capacityCbm)];
    var timed := TimeWindowCheck(route, tm, svc);
    var all := cap + timed.0 + LaterViolations(timed.1);
    (all == [], all, timed.1)
  }

  /** The checks that run after the time-window pass, on the route it left behind:
      forbidden intervals, fleet, day exclusions (when the route has a day) and duration. */
  function LaterViolations(r': Route): seq<Violation>
  {
    var fb := ForbiddenViolations(r'.stops);
    var fl := FleetViolations(r'.vehicle, r'.stops);
    var dy := if HasDay(r') then DayViolations(r'.stops, r'.day.value) else [];
    var du := if IsValidDuration(r') then [] else [DurationExceeded(r'.totalDurationMinutes, r'.vehicle.maxRouteDurationHours * 60.0)];
    fb + fl + dy + du
  }

  method ValidateRoute(route: Route, tm: Matrix, svc: int) returns (isValid: bool, violations: seq<Violation>, route': Route)
    ensures (isValid, violations, route') == Validate(route, tm, svc)
  {
    violations := [];
    if !IsValidCapacity(route) {
      violations := violations + [CapacityExceeded(route.totalLoadCbm, route.vehicle.capacityCbm)];
    }
    assert violations == if IsValidCapacity(route) then [] else [CapacityExceeded(route.totalLoadCbm, route.vehicle.capacityCbm)];
    var tw;
    tw, route' := CheckTimeWindows(route, tm, svc);
    violations := violations + tw;
    var later := CheckAfterTimeWindows(route');
    violations := violations + later;
    isValid := |violations| == 0;
  }

  /** Checks 3 to 6 of `validate_route`, appended in order to the violation list:
      forbidden intervals, fleet restrictions, day exclusions when the route has a day,
      and the maximum duration. */
  method CheckAfterTimeWindows(route': Route) returns (later: seq<Violation>)
    ensures later == LaterViolations(route')
  {
    later := CheckForbiddenIntervals(route');
    var fl := CheckFleetRestrictions(route');
    later := later + fl;
    if HasDay(route') {
      var dy := CheckDayExclusions(route');
      later := later + dy;
    }
    if !IsValidDuration(route') {
      later := later + [DurationExceeded(route'.totalDurationMinutes, route'.vehicle.maxRouteDurationHours * 60.0)];
    }
  }

  /** The time-window pass changes only the stops' times, the depot return and the
      duration: the vehicle, day, load, distance, departure and visiting order are kept. */
  lemma TimeWindowCheckKeeps(route: Route, tm: Matrix, svc: int)
    ensures var r' := TimeWindowCheck(route, tm, svc).1;
            && r'.vehicle == route.vehicle && r'.day == route.day
            && r'.totalLoadCbm == route.totalLoadCbm && r'.totalDistanceKm == route.totalDistanceKm
            && r'.depotDeparture == route.depotDeparture
            && StoreIds(r') == StoreIds(route) && StoresOf(r'.stops) == StoresOf(route.stops)
  {
    if route.stops != [] && route.depotDeparture.Some? {
      PassShape(route.stops, |route.stops|, route.day, tm, svc, route.depotDeparture.value);
    }
  }

  /** A route is valid exactly when every one of the six constraints holds. */
  lemma ValidExactlyWhenAllHold(route: Route, tm: Matrix, svc: int)
    ensures var (ok, _, r') := Validate(route, tm, svc);
            ok <==> && IsValidCapacity(route)
                    && TimeWindowCheck(route, tm, svc).0 == []
                    && (forall i :: 0 <= i < |r'.stops| && r'.stops[i].arrivalTime.Some? ==>
                          !r'.stops[i].store.HasForbiddenConflict(TimeOfDay(r'.stops[i].arrivalTime.value)))
                    && (forall i :: 0 <= i < |route.stops| ==> route.vehicle.CanServeStore(route.stops[i].store.id))
                    && (HasDay(route) ==> forall i :: 0 <= i < |route.stops| ==> route.stops[i].store.IsDayAllowed(route.day.value))
                    && IsValidDuration(r')
  {
    var r' := TimeWindowCheck(route, tm, svc).1;
    TimeWindowCheckKeeps(route, tm, svc);
    SameStores(route.stops, r'.stops);
    NoLaterViolations(r');
    var cap := if IsValidCapacity(route) then [] else [CapacityExceeded(route.totalLoadCbm, route.vehicle.capacityCbm)];
    var all := cap + TimeWindowCheck(route, tm, svc).0 + LaterViolations(r');
    assert Validate(route, tm, svc) == (all == [], all, r');
    assert all == [] <==> cap == [] && TimeWindowCheck(route, tm, svc).0 == [] && LaterViolations(r') == [];
  }

  /** The checks after the time-window pass report nothing exactly when no stamped stop
      arrives in a forbidden interval, the vehicle may serve every stop, every stop allows
      the route's day (when it has one) and the duration is within the limit. */
  lemma NoLaterViolations(r': Route)
    ensures LaterViolations(r') == [] <==>
              && (forall i :: 0 <= i < |r'.stops| && r'.stops[i].arrivalTime.Some? ==>
                    !r'.stops[i].store.HasForbiddenConflict(TimeOfDay(r'.stops[i].arrivalTime.value)))
              && (forall i :: 0 <= i < |r'.stops| ==> r'.vehicle.CanServeStore(r'.stops[i].store.id))
              && (HasDay(r') ==> forall i :: 0 <= i < |r'.stops| ==> r'.stops[i].store.IsDayAllowed(r'.day.value))
              && IsValidDuration(r')
  {
    NoForbiddenViolations(r'.stops);
    NoFleetViolations(r'.vehicle, r'.stops);
    if HasDay(r') {
      NoDayViolations(r'.stops, r'.day.value);
    }
  }

  lemma {:induction false} SameStores(a: seq<RouteStop>, b: seq<RouteStop>)
    requires StoresOf(a) == StoresOf(b)
    ensures |a| == |b| && forall i :: 0 <= i < |a| ==> a[i].store == b[i].store
  {
    forall i | 0 <= i < |a| ensures a[i].store == b[i].store {
      assert StoresOf(a)[i] == StoresOf(b)[i];
    }
  }

  /** `calculate_capacity_utilization_penalty`: distance of the utilization from the target. */
  function CapacityUtilizationPenalty(route: Route, target: real): (p: real)
    ensures p >= 0.0
    ensures p == 0.0 <==> LoadUtilization(route) == target
    ensures p >= LoadUtilization(route) - target && p >= target - LoadUtilization(route)
  {
    var u := LoadUtilization(route);
    if u >= target then u - target else target - u
  }
}
