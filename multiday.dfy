/** Weekly consolidation (vrp_solver/consolidation/multiday_optimizer.py): every store
    is given one weekday, Monday to Friday, and each weekday with stores is then planned
    by a single-day solver. */
module MultiDay {
  import opened Common
  import opened TimeWindows
  import opened Stores
  import opened Vehicles
  import opened Solutions
  import Distance

  /** What `_aggregate_weekly_demand` records for one store. */
  datatype Demand = Demand(
    store: Store,
    totalDemand: real,
    availableDays: seq<string>,
    timeWindows: map<string, TimeWindow>,
    preferredDays: seq<string>)

  /** The exceptions the planner can raise: `max()` of an empty fleet, and a division by
      a largest capacity of zero. */
  datatype Failure = EmptyFleet | ZeroCapacity

  datatype Result<T> = Ok(value: T) | Fail(failure: Failure)

  // ---------------------------------------------------------------------------
  // Weekly demand

  /** Position of a weekday in the week; 5 for anything else. */
  function DayNumber(d: string): (k: nat)
    ensures k <= 5
    ensures k < 5 <==> d in Weekdays
    ensures k < 5 ==> Weekdays[k] == d
  {
    if d == "Mon" then 0
    else if d == "Tue" then 1
    else if d == "Wed" then 2
    else if d == "Thu" then 3
    else if d == "Fri" then 4
    else 5
  }

  lemma DayNumberOf(k: nat)
    requires k < |Weekdays|
    ensures DayNumber(Weekdays[k]) == k
  {
  }

  /** The days have strictly increasing ranks. */
  ghost predicate Ascending(days: seq<string>, rank: string -> nat)
  {
    forall i, j :: 0 <= i < j < |days| ==> rank(days[i]) < rank(days[j])
  }

  /** The days are weekdays in strictly increasing calendar order. */
  ghost predicate InWeekOrder(days: seq<string>)
  {
    && (forall i :: 0 <= i < |days| ==> days[i] in Weekdays)
    && Ascending(days, DayNumber)
  }

  /** `[day for day in days if store.is_day_allowed(day)]`. */
  function AllowedAmong(s: Store, days: seq<string>): seq<string>
  {
    if days == [] then []
    else
      var last := days[|days| - 1];
      AllowedAmong(s, days[..|days| - 1]) + (if s.IsDayAllowed(last) then [last] else [])
  }

  /** The weekdays on which the store takes deliveries, in calendar order. */
  function AvailableDays(s: Store): seq<string>
  {
    AllowedAmong(s, Weekdays)
  }

  lemma {:induction false} AllowedAmongExact(s: Store, days: seq<string>, d: string)
    ensures d in AllowedAmong(s, days) <==> d in days && s.IsDayAllowed(d)
  {
    if days != [] {
      var init := days[..|days| - 1];
      AllowedAmongExact(s, init, d);
      assert days == init + [days[|days| - 1]];
    }
  }

  lemma {:induction false} AllowedAmongOrdered(s: Store, days: seq<string>)
    requires InWeekOrder(days)
    ensures InWeekOrder(AllowedAmong(s, days))
  {
    if days != [] {
      var init, last := days[..|days| - 1], days[|days| - 1];
      assert InWeekOrder(init);
      AllowedAmongOrdered(s, init);
      forall d | d in AllowedAmong(s, init)
        ensures DayNumber(d) < DayNumber(last)
      {
        AllowedAmongExact(s, init, d);
        var i :| 0 <= i < |init| && init[i] == d;
      }
    }
  }

  lemma WeekdaysInOrder()
    ensures InWeekOrder(Weekdays)
  {
    forall k | 0 <= k < |Weekdays| ensures DayNumber(Weekdays[k]) == k {
      DayNumberOf(k);
    }
  }

  /** `available_days` lists, in calendar order, exactly the weekdays the store allows. */
  lemma {:induction false} AvailableDaysExact(s: Store)
    ensures InWeekOrder(AvailableDays(s))
    ensures forall d :: d in AvailableDays(s) <==> d in Weekdays && s.IsDayAllowed(d)
  {
    WeekdaysInOrder();
    AllowedAmongOrdered(s, Weekdays);
    forall d ensures d in AvailableDays(s) <==> d in Weekdays && s.IsDayAllowed(d) {
      AllowedAmongExact(s, Weekdays, d);
    }
  }

  /** The `time_windows_by_day` dictionary: each listed day that has a window, mapped to it. */
  function WindowsByDay(s: Store, days: seq<string>): map<string, TimeWindow>
  {
    if days == [] then map[]
    else
      var last := days[|days| - 1];
      var m := WindowsByDay(s, days[..|days| - 1]);
      match s.GetTimeWindowForDay(Some(last))
      case Some(tw) => m[last := tw]
      case None => m
  }

  /** `time_windows` holds exactly the listed days that have a window, each with its window. */
  lemma {:induction false} WindowsByDayExact(s: Store, days: seq<string>, d: string)
    ensures d in WindowsByDay(s, days) <==> d in days && s.GetTimeWindowForDay(Some(d)).Some?
    ensures d in WindowsByDay(s, days) ==> Some(WindowsByDay(s, days)[d]) == s.GetTimeWindowForDay(Some(d))
  {
    if days != [] {
      var init := days[..|days| - 1];
      WindowsByDayExact(s, init, d);
      assert days == init + [days[|days| - 1]];
    }
  }

  /** The loop that fills `time_windows_by_day`. */
  method CollectWindows(s: Store, days: seq<string>) returns (m: map<string, TimeWindow>)
    ensures m == WindowsByDay(s, days)
  {
    m := map[];
    for i := 0 to |days|
      invariant m == WindowsByDay(s, days[..i])
    {
      assert days[..i + 1][..i] == days[..i];
      var tw := s.GetTimeWindowForDay(Some(days[i]));
      if tw.Some? {
        m := m[days[i] := tw.value];
      }
    }
    assert days[..|days|] == days;
  }

  /** The record kept for one store. */
  function DemandOf(s: Store): Demand
  {
    var days := AvailableDays(s);
    Demand(s, s.demandCbm, days, WindowsByDay(s, days), s.preferredDays)
  }

  /** Where the entry for `id` sits in the dictionary, if it has one. */
  function IndexOfId(entries: seq<Demand>, id: string): (k: Option<nat>)
    ensures k.Some? ==> k.value < |entries| && entries[k.value].store.id == id
    ensures k.None? ==> forall i :: 0 <= i < |entries| ==> entries[i].store.id != id
  {
    if entries == [] then None
    else if entries[|entries| - 1].store.id == id then Some(|entries| - 1)
    else IndexOfId(entries[..|entries| - 1], id)
  }

  /** `weekly_demand[x.store.id] = x`: a known id keeps its place and takes the new record,
      a new id goes last. */
  function Put(entries: seq<Demand>, x: Demand): seq<Demand>
  {
    match IndexOfId(entries, x.store.id)
    case Some(k) => entries[k := x]
    case None => entries + [x]
  }

  /** The dictionary left by assigning the records in turn, in insertion order. */
  function Keyed(records: seq<Demand>): seq<Demand>
  {
    if records == [] then []
    else Put(Keyed(records[..|records| - 1]), records[|records| - 1])
  }

  /** The `weekly_demand` dictionary. */
  function WeeklyDemandOf(stores: seq<Store>): seq<Demand>
  {
    Keyed(MapSeq(stores, DemandOf))
  }

  /** No two records share a store id. */
  ghost predicate UniqueIds(entries: seq<Demand>)
  {
    forall i, j :: 0 <= i < j < |entries| ==> entries[i].store.id != entries[j].store.id
  }

  /** The store ids that have a record. */
  ghost function Ids(entries: seq<Demand>): set<string>
  {
    set i | 0 <= i < |entries| :: entries[i].store.id
  }

  /** A dictionary assignment adds the key once and keeps the other keys. */
  lemma {:induction false} PutKeeps(entries: seq<Demand>, x: Demand)
    requires UniqueIds(entries)
    ensures var p := Put(entries, x);
            && UniqueIds(p)
            && Ids(p) == Ids(entries) + {x.store.id}
            && |p| <= |entries| + 1
            && (forall y :: y in p ==> y in entries || y == x)
  {
    var p := Put(entries, x);
    forall id | id in Ids(entries) ensures id in Ids(p) {
      var i :| 0 <= i < |entries| && entries[i].store.id == id;
      assert p[i].store.id == id;
    }
    if IndexOfId(entries, x.store.id).None? {
      assert p[|entries|].store.id == x.store.id;
    }
  }

  /** One record per distinct id, each one of the records assigned. */
  lemma {:induction false} KeyedEntries(records: seq<Demand>)
    ensures var w := Keyed(records);
            && UniqueIds(w)
            && Ids(w) == (set r | r in records :: r.store.id)
            && |w| <= |records|
            && (forall y :: y in w ==> y in records)
  {
    if records != [] {
      var init, last := records[..|records| - 1], records[|records| - 1];
      KeyedEntries(init);
      PutKeeps(Keyed(init), last);
      assert records == init + [last];
      assert (set r | r in records :: r.store.id) == (set r | r in init :: r.store.id) + {last.store.id};
    }
  }

  /** The weekly dictionary has one record per distinct store id, the record of a store
      of the list, so never more records than stores. */
  lemma {:induction false} WeeklyDemandEntries(stores: seq<Store>)
    ensures var w := WeeklyDemandOf(stores);
            && UniqueIds(w)
            && Ids(w) == (set s | s in stores :: s.id)
            && |w| <= |stores|
            && (forall y :: y in w ==> y == DemandOf(y.store) && y.store in stores)
  {
    var records := MapSeq(stores, DemandOf);
    KeyedEntries(records);
    forall y | y in records ensures y == DemandOf(y.store) && y.store in stores {
      var k :| 0 <= k < |records| && records[k] == y;
      MapSeqAt(stores, DemandOf, k);
    }
    var fromRecords, fromStores := set r | r in records :: r.store.id, set s | s in stores :: s.id;
    forall s | s in stores ensures s.id in fromRecords {
      var k :| 0 <= k < |stores| && stores[k] == s;
      MapSeqAt(stores, DemandOf, k);
      assert records[k].store.id == s.id;
    }
    assert fromRecords <= fromStores;
    assert fromRecords == fromStores;
  }

  /** The dictionary after one more store. */
  lemma KeyedStep(stores: seq<Store>, i: nat)
    requires i < |stores|
    ensures Keyed(MapSeq(stores[..i + 1], DemandOf)) == Put(Keyed(MapSeq(stores[..i], DemandOf)), DemandOf(stores[i]))
  {
    assert stores[..i + 1] == stores[..i] + [stores[i]];
    MapSeqSnoc(stores[..i], stores[i], DemandOf);
  }

  /** `_aggregate_weekly_demand`. */
  method AggregateWeeklyDemand(stores: seq<Store>) returns (weekly: seq<Demand>)
    ensures weekly == WeeklyDemandOf(stores)
  {
    weekly := [];
    for i := 0 to |stores|
      invariant weekly == Keyed(MapSeq(stores[..i], DemandOf))
    {
      var store := stores[i];
      var availableDays := AvailableDays(store);
      var windows := CollectWindows(store, availableDays);
      weekly := Put(weekly, Demand(store, store.demandCbm, availableDays, windows, store.preferredDays));
      KeyedStep(stores, i);
    }
    assert stores[..|stores|] == stores;
  }

  // ---------------------------------------------------------------------------
  // Scoring a day

  /** `max(v.capacity_cbm for v in vehicles)`. */
  function MaxCapacity(vehicles: seq<Vehicle>): (m: real)
    requires vehicles != []
    ensures exists i :: 0 <= i < |vehicles| && vehicles[i].capacityCbm == m
    ensures forall i :: 0 <= i < |vehicles| ==> vehicles[i].capacityCbm <= m
  {
    if |vehicles| == 1 then vehicles[0].capacityCbm
    else
      var init := vehicles[..|vehicles| - 1];
      assert forall i :: 0 <= i < |init| ==> init[i] == vehicles[i];
      var m := MaxCapacity(init);
      var c := vehicles[|vehicles| - 1].capacityCbm;
      if c > m then c else m
  }

  function Negated(p: (string, real)): real
  {
    -p.1
  }

  /** `days[0] if days else None`. */
  function FirstOf(days: seq<string>): Option<string>
  {
    if days == [] then None else Some(days[0])
  }

  /** `max(scores.items(), key=lambda x: x[1])[0]`: the first day of highest score. */
  function Highest(scores: seq<(string, real)>): Option<string>
  {
    if scores == [] then None else Some(scores[FirstMin(scores, Negated)].0)
  }

  /** The `scores` dictionary the day scorers build: each day of `days` the score function
      does not skip, with its score, in the order of `days`. */
  function Scored(days: seq<string>, score: string -> Option<real>): seq<(string, real)>
  {
    if days == [] then []
    else
      var last := days[|days| - 1];
      Scored(days[..|days| - 1], score) + (if score(last).Some? then [(last, score(last).value)] else [])
  }

  /** Every scored entry is a day of the list, with its score. */
  lemma {:induction false} ScoredFrom(days: seq<string>, score: string -> Option<real>)
    ensures forall p :: p in Scored(days, score) ==> p.0 in days && score(p.0) == Some(p.1)
  {
    if days != [] {
      var init := days[..|days| - 1];
      ScoredFrom(init, score);
      assert days == init + [days[|days| - 1]];
    }
  }

  /** The scored entries are exactly the days not skipped, each with its score, in order of rank. */
  lemma {:induction false} ScoredExact(days: seq<string>, score: string -> Option<real>, rank: string -> nat)
    requires Ascending(days, rank)
    ensures var scores := Scored(days, score);
            && (forall p :: p in scores ==> p.0 in days && score(p.0) == Some(p.1))
            && (forall d :: d in days && score(d).Some? ==> (d, score(d).value) in scores)
            && (forall i, j :: 0 <= i < j < |scores| ==> rank(scores[i].0) < rank(scores[j].0))
  {
    ScoredFrom(days, score);
    if days != [] {
      var init, last := days[..|days| - 1], days[|days| - 1];
      assert Ascending(init, rank);
      ScoredExact(init, score, rank);
      assert days == init + [last];
      assert forall i :: 0 <= i < |init| ==> rank(init[i]) < rank(last);
    }
  }

  /** Nothing is scored exactly when every day is skipped. */
  lemma {:induction false} ScoredNone(days: seq<string>, score: string -> Option<real>)
    ensures Scored(days, score) == [] <==> forall d :: d in days ==> score(d).None?
  {
    if days != [] {
      var init := days[..|days| - 1];
      ScoredNone(init, score);
      assert days == init + [days[|days| - 1]];
    }
  }

  /** Over days of ascending rank, the highest-scoring entry is a day not skipped, of
      highest score among those, and the earliest such. */
  lemma HighestOfScored(days: seq<string>, score: string -> Option<real>, rank: string -> nat)
    requires Ascending(days, rank) && Scored(days, score) != []
    ensures var best := Highest(Scored(days, score));
            && best.Some? && best.value in days && score(best.value).Some?
            && forall d :: d in days && score(d).Some? ==>
                 && score(d).value <= score(best.value).value
                 && (rank(d) < rank(best.value) ==> score(d).value < score(best.value).value)
  {
    var scores := Scored(days, score);
    ScoredExact(days, score, rank);
    var k := FirstMin(scores, Negated);
    assert Highest(scores) == Some(scores[k].0);
    assert scores[k] in scores;
    forall d | d in days && score(d).Some?
      ensures score(d).value <= scores[k].1
      ensures rank(d) < rank(scores[k].0) ==> score(d).value < scores[k].1
    {
      var j :| 0 <= j < |scores| && scores[j] == (d, score(d).value);
      FirstMinAt(scores, j);
    }
  }

  /** The entry `Highest` picks scores at least as much as the entry at `j`, and more when
      `j` comes before it. */
  lemma FirstMinAt(scores: seq<(string, real)>, j: nat)
    requires j < |scores|
    ensures var k := FirstMin(scores, Negated);
            && scores[j].1 <= scores[k].1
            && (j < k ==> scores[j].1 < scores[k].1)
  {
    var k := FirstMin(scores, Negated);
    assert Negated(scores[k]) <= Negated(scores[j]);
    if j < k {
      assert Negated(scores[k]) < Negated(scores[j]);
    }
  }

  /** The score `_find_best_single_day` gives `day`: lighter days, preferred days and days
      with longer windows score higher. */
  function SingleDayScore(info: Demand, loads: map<string, real>, day: string): real
    requires day in loads
  {
    1000.0 - loads[day]
    + (if day in info.preferredDays then 500.0 else 0.0)
    + (if day in info.timeWindows then info.timeWindows[day].DurationMinutes() as real else 0.0)
  }

  /** `_find_best_single_day`'s score for every day it may be asked about. */
  function SingleDayScoring(info: Demand, loads: map<string, real>): string -> Option<real>
  {
    d => if d in loads then Some(SingleDayScore(info, loads, d)) else None
  }

  /** `_find_best_single_day`. */
  function BestSingleDay(info: Demand, loads: map<string, real>): Option<string>
  {
    var scores := Scored(info.availableDays, SingleDayScoring(info, loads));
    if scores != [] then Highest(scores) else FirstOf(info.availableDays)
  }

  /** The single day chosen is an available day of highest score, the earliest such day;
      there is one exactly when some day is available. */
  lemma BestSingleDayIsArgmax(info: Demand, loads: map<string, real>)
    requires forall d :: d in info.availableDays ==> d in loads
    requires InWeekOrder(info.availableDays)
    ensures BestSingleDay(info, loads).Some? <==> info.availableDays != []
    ensures var best := BestSingleDay(info, loads);
            best.Some? ==>
              && best.value in info.availableDays
              && forall d :: d in info.availableDays ==>
                   && SingleDayScore(info, loads, d) <= SingleDayScore(info, loads, best.value)
                   && (DayNumber(d) < DayNumber(best.value) ==> SingleDayScore(info, loads, d) < SingleDayScore(info, loads, best.value))
  {
    var days, score := info.availableDays, SingleDayScoring(info, loads);
    assert forall d :: d in days ==> score(d) == Some(SingleDayScore(info, loads, d));
    ScoredNone(days, score);
    if days != [] {
      assert score(days[0]).Some?;
      HighestOfScored(days, score, DayNumber);
    }
  }

  /** `_find_best_single_day` as written: the scoring loop, then the maximum. */
  method FindBestSingleDay(info: Demand, loads: map<string, real>) returns (best: Option<string>)
    requires forall d :: d in info.availableDays ==> d in loads
    ensures best == BestSingleDay(info, loads)
  {
    var days := info.availableDays;
    var scores: seq<(string, real)> := [];
    for i := 0 to |days|
      invariant scores == Scored(days[..i], SingleDayScoring(info, loads))
    {
      assert days[..i + 1][..i] == days[..i];
      var day := days[i];
      var score := 0.0;
      score := score + (1000.0 - loads[day]);
      if day in info.preferredDays {
        score := score + 500.0;
      }
      if day in info.timeWindows {
        score := score + info.timeWindows[day].DurationMinutes() as real;
      }
      scores := scores + [(day, score)];
    }
    assert days[..|days|] == days;
    if scores != [] {
      return Highest(scores);
    }
    best := FirstOf(days);
  }

  /** `distance_matrix.get(a, {}).get(b, float("inf"))`, with None for infinity. */
  function Lookup(dm: Distance.Matrix, a: string, b: string): Option<real>
  {
    if a in dm && b in dm[a] then Some(dm[a][b]) else None
  }

  /** `min(x, y)` where None is infinity. */
  function Min(x: Option<real>, y: Option<real>): Option<real>
  {
    if y.Some? && (x.None? || y.value < x.value) then y else x
  }

  /** The distance from store `id` to the nearest of `others`; None when no distance is known. */
  function NearestOf(dm: Distance.Matrix, id: string, others: seq<Store>): Option<real>
  {
    if others == [] then None
    else Min(NearestOf(dm, id, others[..|others| - 1]), Lookup(dm, id, others[|others| - 1].id))
  }

  /** The nearest distance is under `bound` exactly when some known distance is. */
  lemma {:induction false} NearestWithin(dm: Distance.Matrix, id: string, others: seq<Store>, bound: real)
    ensures (NearestOf(dm, id, others).Some? && NearestOf(dm, id, others).value < bound)
        <==> exists k :: 0 <= k < |others| && Lookup(dm, id, others[k].id).Some? && Lookup(dm, id, others[k].id).value < bound
  {
    if others != [] {
      var init := others[..|others| - 1];
      NearestWithin(dm, id, init, bound);
      assert forall k :: 0 <= k < |init| ==> init[k] == others[k];
    }
  }

  /** The `min_dist` loop. */
  method MinDistance(dm: Distance.Matrix, id: string, others: seq<Store>) returns (minDist: Option<real>)
    ensures minDist == NearestOf(dm, id, others)
  {
    minDist := None;
    for i := 0 to |others|
      invariant minDist == NearestOf(dm, id, others[..i])
    {
      assert others[..i + 1][..i] == others[..i];
      var dist := Lookup(dm, id, others[i].id);
      minDist := Min(minDist, dist);
    }
    assert others[..|others|] == others;
  }

  /** The total capacity of the fleet, `max_capacity * len(vehicles)`. */
  function FleetCapacity(vehicles: seq<Vehicle>): real
    requires vehicles != []
  {
    MaxCapacity(vehicles) * |vehicles| as real
  }

  /** Adding the store to `day` keeps the day within the fleet's capacity. */
  predicate Fits(info: Demand, loads: map<string, real>, vehicles: seq<Vehicle>, day: string)
    requires day in loads && vehicles != []
  {
    loads[day] + info.totalDemand <= FleetCapacity(vehicles)
  }

  /** The score `_find_best_consolidation_day` gives `day`, or None when the day is skipped
      because the store would take it over the fleet's capacity. */
  function ConsolidationScore(info: Demand, loads: map<string, real>, assignments: map<string, seq<Store>>,
                              dm: Distance.Matrix, vehicles: seq<Vehicle>, day: string): Option<real>
    requires day in loads && vehicles != [] && MaxCapacity(vehicles) != 0.0
  {
    if !Fits(info, loads, vehicles, day) then None
    else
      var same := if day in assignments then assignments[day] else [];
      var nearby := same != [] && NearestOf(dm, info.store.id, same).Some? && NearestOf(dm, info.store.id, same).value < 10.0;
      Some((if loads[day] > 0.0 then 200.0 else 0.0)
           + (if loads[day] / FleetCapacity(vehicles) < 0.7 then 300.0 else 0.0)
           + (if day in info.preferredDays then 500.0 else 0.0)
           + (if nearby then 400.0 else 0.0))
  }

  /** `_find_best_consolidation_day`'s score for every day it may be asked about. */
  function ConsolidationScoring(info: Demand, loads: map<string, real>, assignments: map<string, seq<Store>>,
                                dm: Distance.Matrix, vehicles: seq<Vehicle>): string -> Option<real>
    requires vehicles != [] && MaxCapacity(vehicles) != 0.0
  {
    d => if d in loads then ConsolidationScore(info, loads, assignments, dm, vehicles, d) else None
  }

  /** `_find_best_consolidation_day`. */
  function BestConsolidationDay(info: Demand, loads: map<string, real>, assignments: map<string, seq<Store>>,
                                dm: Distance.Matrix, vehicles: seq<Vehicle>): Option<string>
    requires vehicles != [] && MaxCapacity(vehicles) != 0.0
  {
    var scores := Scored(info.availableDays, ConsolidationScoring(info, loads, assignments, dm, vehicles));
    if scores != [] then Highest(scores) else FirstOf(info.availableDays)
  }

  /** The consolidation day is an available day. When some available day fits, it is a
      day that fits, of highest score among those, and the earliest such; only when no day
      fits does it fall back to the first available day. There is one exactly when some
      day is available. */
  lemma BestConsolidationDayChoice(info: Demand, loads: map<string, real>, assignments: map<string, seq<Store>>,
                                   dm: Distance.Matrix, vehicles: seq<Vehicle>)
    requires forall d :: d in info.availableDays ==> d in loads
    requires vehicles != [] && MaxCapacity(vehicles) != 0.0
    requires InWeekOrder(info.availableDays)
    ensures var best, days := BestConsolidationDay(info, loads, assignments, dm, vehicles), info.availableDays;
            && (best.Some? <==> days != [])
            && (best.Some? ==> best.value in days)
            && (best.Some? && !Fits(info, loads, vehicles, best.value) ==>
                  best == Some(days[0]) && forall d :: d in days ==> !Fits(info, loads, vehicles, d))
    ensures var best, days := BestConsolidationDay(info, loads, assignments, dm, vehicles), info.availableDays;
            best.Some? && Fits(info, loads, vehicles, best.value) ==>
              var top := ConsolidationScore(info, loads, assignments, dm, vehicles, best.value).value;
              forall d :: d in days && Fits(info, loads, vehicles, d) ==>
                && ConsolidationScore(info, loads, assignments, dm, vehicles, d).value <= top
                && (DayNumber(d) < DayNumber(best.value) ==> ConsolidationScore(info, loads, assignments, dm, vehicles, d).value < top)
  {
    var days, score := info.availableDays, ConsolidationScoring(info, loads, assignments, dm, vehicles);
    assert forall d :: d in days ==> score(d) == ConsolidationScore(info, loads, assignments, dm, vehicles, d);
    ScoredNone(days, score);
    if Scored(days, score) != [] {
      HighestOfScored(days, score, DayNumber);
    }
  }

  /** One pass of the scoring loop of `_find_best_consolidation_day`; None is the
      `continue` taken for a day the store would overload. */
  method ScoreConsolidationDay(info: Demand, loads: map<string, real>, assignments: map<string, seq<Store>>,
                               dm: Distance.Matrix, vehicles: seq<Vehicle>, maxCapacity: real, day: string)
    returns (result: Option<real>)
    requires day in loads && vehicles != [] && maxCapacity == MaxCapacity(vehicles) && maxCapacity != 0.0
    ensures result == ConsolidationScore(info, loads, assignments, dm, vehicles, day)
  {
    var fleetCapacity := maxCapacity * |vehicles| as real;
    assert fleetCapacity == FleetCapacity(vehicles);
    var score := 0.0;
    var projectedLoad := loads[day] + info.totalDemand;
    if projectedLoad > fleetCapacity {
      score := score - 10000.0;
      return None;
    }
    var sameDayStores := if day in assignments then assignments[day] else [];
    var nearby := false;
    if sameDayStores != [] {
      var minDist := MinDistance(dm, info.store.id, sameDayStores);
      nearby := minDist.Some? && minDist.value < 10.0;
    }
    if loads[day] > 0.0 {
      score := score + 200.0;
    }
    var utilization := loads[day] / fleetCapacity;
    if utilization < 0.7 {
      score := score + 300.0;
    }
    if day in info.preferredDays {
      score := score + 500.0;
    }
    if nearby {
      score := score + 400.0;
    }
    return Some(score);
  }

  /** `_find_best_consolidation_day` as written: the scoring loop, then the maximum. */
  method FindBestConsolidationDay(info: Demand, loads: map<string, real>, assignments: map<string, seq<Store>>,
                                  dm: Distance.Matrix, vehicles: seq<Vehicle>) returns (best: Option<string>)
    requires forall d :: d in info.availableDays ==> d in loads
    requires vehicles != [] && MaxCapacity(vehicles) != 0.0
    ensures best == BestConsolidationDay(info, loads, assignments, dm, vehicles)
  {
    var days := info.availableDays;
    var maxCapacity := MaxCapacity(vehicles);
    ghost var scoring := ConsolidationScoring(info, loads, assignments, dm, vehicles);
    var scores: seq<(string, real)> := [];
    for i := 0 to |days|
      invariant scores == Scored(days[..i], scoring)
    {
      assert days[..i + 1][..i] == days[..i];
      var score := ScoreConsolidationDay(info, loads, assignments, dm, vehicles, maxCapacity, days[i]);
      assert score == scoring(days[i]);
      if score.Some? {
        scores := scores + [(days[i], score.value)];
      }
    }
    assert days[..|days|] == days;
    if scores != [] {
      return Highest(scores);
    }
    best := FirstOf(days);
  }

  // ---------------------------------------------------------------------------
  // Assigning stores to days

  /** The `day_assignments` and `day_loads` dictionaries. */
  datatype Buckets = Buckets(stores: map<string, seq<Store>>, loads: map<string, real>)

  const WeekdaySet: set<string> := {"Mon", "Tue", "Wed", "Thu", "Fri"}

  /** Both dictionaries are keyed by the five weekdays. */
  predicate OnWeekdays(b: Buckets)
  {
    b.stores.Keys == WeekdaySet && b.loads.Keys == WeekdaySet
  }

  /** The dictionaries before the first store: every weekday empty, with load 0. */
  function EmptyBuckets(): (b: Buckets)
    ensures OnWeekdays(b)
  {
    Buckets(map d | d in Weekdays :: [], map d | d in Weekdays :: 0.0)
  }

  /** The record's days are weekdays (true of every record `_aggregate_weekly_demand` makes). */
  ghost predicate OnlyWeekdays(x: Demand)
  {
    forall d :: d in x.availableDays ==> d in Weekdays
  }

  /** `demand_percentage >= consolidation_threshold` decides which scorer picks the day. */
  function ChosenDay(info: Demand, b: Buckets, vehicles: seq<Vehicle>, threshold: real, dm: Distance.Matrix): Option<string>
    requires vehicles != [] && MaxCapacity(vehicles) != 0.0
  {
    if info.totalDemand / MaxCapacity(vehicles) * 100.0 >= threshold then BestSingleDay(info, b.loads)
    else BestConsolidationDay(info, b.loads, b.stores, dm, vehicles)
  }

  /** Either scorer picks a day exactly when the store has an available day, and picks one
      of those. */
  lemma ChosenDayAvailable(info: Demand, b: Buckets, vehicles: seq<Vehicle>, threshold: real, dm: Distance.Matrix)
    requires OnWeekdays(b) && OnlyWeekdays(info)
    requires vehicles != [] && MaxCapacity(vehicles) != 0.0
    ensures var best := ChosenDay(info, b, vehicles, threshold, dm);
            && (best.Some? <==> info.availableDays != [])
            && (best.Some? ==> best.value in info.availableDays)
  {
    var days := info.availableDays;
    if info.totalDemand / MaxCapacity(vehicles) * 100.0 >= threshold {
      var score := SingleDayScoring(info, b.loads);
      ScoredFrom(days, score);
      ScoredNone(days, score);
    } else {
      ScoredFrom(days, ConsolidationScoring(info, b.loads, b.stores, dm, vehicles));
    }
  }

  /** `day_assignments[day].append(store)` and `day_loads[day] += demand`. */
  function Appended(b: Buckets, day: string, info: Demand): (b': Buckets)
    requires OnWeekdays(b) && day in WeekdaySet
    ensures OnWeekdays(b')
  {
    Buckets(b.stores[day := b.stores[day] + [info.store]], b.loads[day := b.loads[day] + info.totalDemand])
  }

  /** One pass of the loop of `_assign_stores_to_days`: a store with no available day is
      skipped; otherwise the fleet is measured (failing on an empty fleet or a largest
      capacity of zero), a day is chosen and the store is appended to it and its demand
      added to the day's load. */
  function Place(b: Buckets, info: Demand, vehicles: seq<Vehicle>, threshold: real, dm: Distance.Matrix): (r: Result<Buckets>)
    requires OnWeekdays(b) && OnlyWeekdays(info)
    ensures r.Ok? ==> OnWeekdays(r.value)
  {
    if info.availableDays == [] then Ok(b)
    else if vehicles == [] then Fail(EmptyFleet)
    else if MaxCapacity(vehicles) == 0.0 then Fail(ZeroCapacity)
    else
      var best := ChosenDay(info, b, vehicles, threshold, dm);
      ChosenDayAvailable(info, b, vehicles, threshold, dm);
      if best.Some? && best.value != "" then Ok(Appended(b, best.value, info)) else Ok(b)
  }

  /** The stores of every day, Monday first. */
  function AllAssigned(m: map<string, seq<Store>>): seq<Store>
    requires WeekdaySet <= m.Keys
  {
    m["Mon"] + m["Tue"] + m["Wed"] + m["Thu"] + m["Fri"]
  }

  function DemandCbm(s: Store): real
  {
    s.demandCbm
  }

  /** The loop's invariant: each day's load is the total demand of its stores, and each
      store sits on a day it allows. */
  ghost predicate Consistent(b: Buckets)
  {
    && OnWeekdays(b)
    && (forall d :: d in WeekdaySet ==> b.loads[d] == SumOf(b.stores[d], DemandCbm))
    && (forall d, s :: d in WeekdaySet && s in b.stores[d] ==> s.IsDayAllowed(d))
  }

  /** What the loop relies on in a record `_aggregate_weekly_demand` made: its demand is
      its store's, and its days are weekdays the store allows. */
  ghost predicate Recorded(x: Demand)
  {
    && x.totalDemand == x.store.demandCbm
    && forall d :: d in x.availableDays ==> d in WeekdaySet && x.store.IsDayAllowed(d)
  }

  /** The store a record puts on some day: the record's store when it has an available day. */
  function Placed(x: Demand): Option<Store>
  {
    if x.availableDays != [] then Some(x.store) else None
  }

  /** Appending a store to one weekday adds it to the week's stores once. */
  lemma AppendedOnce(m: map<string, seq<Store>>, d: string, s: Store)
    requires WeekdaySet <= m.Keys && d in WeekdaySet
    ensures multiset(AllAssigned(m[d := m[d] + [s]])) == multiset(AllAssigned(m)) + multiset{s}
  {
    var m' := m[d := m[d] + [s]];
    assert multiset(AllAssigned(m')) == multiset(m'["Mon"]) + multiset(m'["Tue"]) + multiset(m'["Wed"]) + multiset(m'["Thu"]) + multiset(m'["Fri"]);
    assert multiset(AllAssigned(m)) == multiset(m["Mon"]) + multiset(m["Tue"]) + multiset(m["Wed"]) + multiset(m["Thu"]) + multiset(m["Fri"]);
    assert multiset(m'[d]) == multiset(m[d]) + multiset{s};
  }

  /** Appending a recorded store to a day it allows keeps the invariant and adds the store
      to the week once. */
  lemma AppendedKeeps(b: Buckets, day: string, x: Demand)
    requires Consistent(b) && Recorded(x) && day in x.availableDays
    ensures Consistent(Appended(b, day, x))
    ensures multiset(AllAssigned(Appended(b, day, x).stores)) == multiset(AllAssigned(b.stores)) + multiset{x.store}
  {
    var b' := Appended(b, day, x);
    SumOfConcat(b.stores[day], [x.store], DemandCbm);
    SumOfSingle(x.store, DemandCbm);
    assert b'.loads[day] == SumOf(b'.stores[day], DemandCbm);
    AppendedOnce(b.stores, day, x.store);
  }

  /** One pass keeps the invariant, fails exactly when the store needs a day and the fleet
      is empty or has a largest capacity of zero, and otherwise puts the store on one day
      when it has an available day and nowhere when it has none. */
  lemma PlaceKeeps(b: Buckets, x: Demand, vehicles: seq<Vehicle>, threshold: real, dm: Distance.Matrix)
    requires Consistent(b) && Recorded(x) && OnlyWeekdays(x)
    ensures var r := Place(b, x, vehicles, threshold, dm);
            && (r.Ok? <==> x.availableDays == [] || (vehicles != [] && MaxCapacity(vehicles) != 0.0))
            && (r.Fail? ==> r.failure == if vehicles == [] then EmptyFleet else ZeroCapacity)
            && (r.Ok? ==> Consistent(r.value))
            && (r.Ok? ==> multiset(AllAssigned(r.value.stores))
                          == multiset(AllAssigned(b.stores)) + if x.availableDays != [] then multiset{x.store} else multiset{})
  {
    if x.availableDays == [] {
      assert Place(b, x, vehicles, threshold, dm) == Ok(b);
    } else if vehicles != [] && MaxCapacity(vehicles) != 0.0 {
      ChosenDayAvailable(x, b, vehicles, threshold, dm);
      var d := ChosenDay(x, b, vehicles, threshold, dm).value;
      assert d in WeekdaySet;
      assert Place(b, x, vehicles, threshold, dm) == Ok(Appended(b, d, x));
      AppendedKeeps(b, d, x);
    }
  }

  /** The loop starts with no store on any day and every load 0. */
  lemma EmptyConsistent()
    ensures Consistent(EmptyBuckets()) && AllAssigned(EmptyBuckets().stores) == []
  {
    var e := EmptyBuckets();
    forall d | d in WeekdaySet ensures e.loads[d] == SumOf(e.stores[d], DemandCbm) {
    }
  }

  /** `_assign_stores_to_days` over the records in the order given. */
  function Assigned(entries: seq<Demand>, vehicles: seq<Vehicle>, threshold: real, dm: Distance.Matrix): (r: Result<Buckets>)
    requires forall x :: x in entries ==> OnlyWeekdays(x)
    ensures r.Ok? ==> OnWeekdays(r.value)
  {
    if entries == [] then Ok(EmptyBuckets())
    else
      match Assigned(entries[..|entries| - 1], vehicles, threshold, dm)
      case Fail(f) => Fail(f)
      case Ok(b) => Place(b, entries[|entries| - 1], vehicles, threshold, dm)
  }

  /** After the loop, or after any prefix of it: it fails exactly when some store needs a
      day and the fleet is empty or has a largest capacity of zero; otherwise every store
      with an available day is on exactly one day, one it allows, the others on none, and
      each day's load is the total demand of its stores. */
  lemma {:induction false} AssignedAccounts(entries: seq<Demand>, vehicles: seq<Vehicle>, threshold: real, dm: Distance.Matrix)
    requires forall x :: x in entries ==> Recorded(x) && OnlyWeekdays(x)
    ensures var r, placed := Assigned(entries, vehicles, threshold, dm), Select(entries, Placed);
            && (r.Ok? <==> placed == [] || (vehicles != [] && MaxCapacity(vehicles) != 0.0))
            && (r.Fail? ==> r.failure == if vehicles == [] then EmptyFleet else ZeroCapacity)
            && (r.Ok? ==> Consistent(r.value) && multiset(AllAssigned(r.value.stores)) == multiset(placed))
  {
    if entries == [] {
      EmptyConsistent();
    } else {
      var init, last := entries[..|entries| - 1], entries[|entries| - 1];
      AssignedAccounts(init, vehicles, threshold, dm);
      SelectSnoc(init, last, Placed);
      assert entries == init + [last];
      var r := Assigned(init, vehicles, threshold, dm);
      if r.Ok? {
        assert Assigned(entries, vehicles, threshold, dm) == Place(r.value, last, vehicles, threshold, dm);
        PlaceKeeps(r.value, last, vehicles, threshold, dm);
      } else {
        assert Assigned(entries, vehicles, threshold, dm) == Fail(r.failure);
      }
    }
  }

  function NegatedDemand(x: Demand): real
  {
    -x.totalDemand
  }

  /** `sorted(weekly_demand.items(), key=total_demand, reverse=True)`: Python's stable sort,
      so records of equal demand keep their dictionary order. */
  function ByDemand(weekly: seq<Demand>): seq<Demand>
  {
    SortByKey(weekly, NegatedDemand)
  }

  /** Stores are processed in non-increasing order of demand, each record once. */
  lemma ProcessedByDemand(weekly: seq<Demand>)
    ensures var sorted := ByDemand(weekly);
            && multiset(sorted) == multiset(weekly)
            && (forall x :: x in sorted <==> x in weekly)
            && forall i, j :: 0 <= i < j < |sorted| ==> sorted[i].totalDemand >= sorted[j].totalDemand
  {
    var sorted := ByDemand(weekly);
    assert forall x :: x in sorted <==> x in multiset(sorted);
    SortByKeySorted(weekly, NegatedDemand);
    assert forall i, j :: 0 <= i < j < |sorted| ==> NegatedDemand(sorted[i]) <= NegatedDemand(sorted[j]);
  }

  /** `_assign_stores_to_days`: the stores of each weekday, or the exception raised. */
  function AssignmentsOf(weekly: seq<Demand>, vehicles: seq<Vehicle>, threshold: real, dm: Distance.Matrix): (r: Result<map<string, seq<Store>>>)
    requires forall x :: x in weekly ==> OnlyWeekdays(x)
    ensures r.Ok? ==> r.value.Keys == WeekdaySet
  {
    ProcessedByDemand(weekly);
    match Assigned(ByDemand(weekly), vehicles, threshold, dm)
    case Ok(b) => Ok(b.stores)
    case Fail(f) => Fail(f)
  }

  /** One pass of the loop of `_assign_stores_to_days` as written; `continue` leaves the
      dictionaries as they are. */
  method PlaceStore(dayAssignments: map<string, seq<Store>>, dayLoads: map<string, real>, info: Demand,
                    vehicles: seq<Vehicle>, threshold: real, dm: Distance.Matrix)
    returns (r: Result<Buckets>)
    requires OnWeekdays(Buckets(dayAssignments, dayLoads)) && OnlyWeekdays(info)
    ensures r == Place(Buckets(dayAssignments, dayLoads), info, vehicles, threshold, dm)
  {
    var availableDays := info.availableDays;
    if availableDays == [] {
      return Ok(Buckets(dayAssignments, dayLoads));
    }
    if vehicles == [] {
      return Fail(EmptyFleet);
    }
    var maxCapacity := MaxCapacity(vehicles);
    if maxCapacity == 0.0 {
      return Fail(ZeroCapacity);
    }
    var demandPercentage := (info.totalDemand / maxCapacity) * 100.0;
    var bestDay;
    if demandPercentage >= threshold {
      bestDay := FindBestSingleDay(info, dayLoads);
    } else {
      bestDay := FindBestConsolidationDay(info, dayLoads, dayAssignments, dm, vehicles);
    }
    ChosenDayAvailable(info, Buckets(dayAssignments, dayLoads), vehicles, threshold, dm);
    if bestDay.Some? && bestDay.value != "" {
      var day := bestDay.value;
      return Ok(Buckets(dayAssignments[day := dayAssignments[day] + [info.store]], dayLoads[day := dayLoads[day] + info.totalDemand]));
    }
    return Ok(Buckets(dayAssignments, dayLoads));
  }

  /** Sorting keeps every record's days on weekdays. */
  lemma ByDemandWeekdays(weekly: seq<Demand>)
    requires forall x :: x in weekly ==> OnlyWeekdays(x)
    ensures forall x :: x in ByDemand(weekly) ==> OnlyWeekdays(x)
  {
    ProcessedByDemand(weekly);
  }

  /** The loop body applied to the next record by demand. */
  method PlaceNext(sorted: seq<Demand>, i: nat, dayAssignments: map<string, seq<Store>>, dayLoads: map<string, real>,
                   vehicles: seq<Vehicle>, threshold: real, dm: Distance.Matrix)
    returns (placed: Result<Buckets>)
    requires i < |sorted| && forall x :: x in sorted ==> OnlyWeekdays(x)
    requires Assigned(sorted[..i], vehicles, threshold, dm) == Ok(Buckets(dayAssignments, dayLoads))
    ensures placed == Assigned(sorted[..i + 1], vehicles, threshold, dm)
  {
    AssignedStep(sorted, i, vehicles, threshold, dm);
    placed := PlaceStore(dayAssignments, dayLoads, sorted[i], vehicles, threshold, dm);
  }

  /** `_assign_stores_to_days` as written: the loop over the records by demand. */
  method AssignStoresToDays(weekly: seq<Demand>, vehicles: seq<Vehicle>, threshold: real, dm: Distance.Matrix)
    returns (r: Result<map<string, seq<Store>>>)
    requires forall x :: x in weekly ==> OnlyWeekdays(x)
    ensures r == AssignmentsOf(weekly, vehicles, threshold, dm)
  {
    ByDemandWeekdays(weekly);
    var sortedStores := ByDemand(weekly);
    var outcome := AssignInOrder(sortedStores, vehicles, threshold, dm);
    if outcome.Fail? {
      return Fail(outcome.failure);
    }
    return Ok(outcome.value.stores);
  }

  /** The loop of `_assign_stores_to_days` over the records already sorted by demand. */
  method AssignInOrder(sortedStores: seq<Demand>, vehicles: seq<Vehicle>, threshold: real, dm: Distance.Matrix)
    returns (r: Result<Buckets>)
    requires forall x :: x in sortedStores ==> OnlyWeekdays(x)
    ensures r == Assigned(sortedStores, vehicles, threshold, dm)
  {
    var empty := EmptyBuckets();
    var dayAssignments, dayLoads := empty.stores, empty.loads;
    for i := 0 to |sortedStores|
      invariant Assigned(sortedStores[..i], vehicles, threshold, dm) == Ok(Buckets(dayAssignments, dayLoads))
    {
      var placed := PlaceNext(sortedStores, i, dayAssignments, dayLoads, vehicles, threshold, dm);
      if placed.Fail? {
        AssignedFailureSticks(sortedStores, i + 1, vehicles, threshold, dm);
        assert sortedStores[..|sortedStores|] == sortedStores;
        return placed;
      }
      dayAssignments, dayLoads := placed.value.stores, placed.value.loads;
    }
    assert sortedStores[..|sortedStores|] == sortedStores;
    return Ok(Buckets(dayAssignments, dayLoads));
  }

  /** The fold over one more record: a raise is kept, otherwise the record is placed. */
  lemma AssignedStep(entries: seq<Demand>, i: nat, vehicles: seq<Vehicle>, threshold: real, dm: Distance.Matrix)
    requires i < |entries| && forall x :: x in entries ==> OnlyWeekdays(x)
    ensures Assigned(entries[..i], vehicles, threshold, dm).Fail? ==>
              Assigned(entries[..i + 1], vehicles, threshold, dm) == Assigned(entries[..i], vehicles, threshold, dm)
    ensures Assigned(entries[..i], vehicles, threshold, dm).Ok? ==>
              Assigned(entries[..i + 1], vehicles, threshold, dm)
              == Place(Assigned(entries[..i], vehicles, threshold, dm).value, entries[i], vehicles, threshold, dm)
  {
    assert entries[..i + 1][..i] == entries[..i];
  }

  /** Once the loop has raised, the later records do not matter. */
  lemma {:induction false} AssignedFailureSticks(entries: seq<Demand>, n: nat, vehicles: seq<Vehicle>, threshold: real, dm: Distance.Matrix)
    requires n <= |entries| && forall x :: x in entries ==> OnlyWeekdays(x)
    requires Assigned(entries[..n], vehicles, threshold, dm).Fail?
    ensures Assigned(entries, vehicles, threshold, dm) == Assigned(entries[..n], vehicles, threshold, dm)
    decreases |entries| - n
  {
    if n < |entries| {
      assert entries[..n + 1][..n] == entries[..n];
      AssignedFailureSticks(entries, n + 1, vehicles, threshold, dm);
    } else {
      assert entries[..n] == entries;
    }
  }

  // ---------------------------------------------------------------------------------------
  // The week: statistics and `optimize_week`
  // ---------------------------------------------------------------------------------------

  /** Every record of the weekly dictionary is one the assignment loop can rely on. */
  lemma WeeklyRecorded(stores: seq<Store>)
    ensures forall x :: x in WeeklyDemandOf(stores) ==> Recorded(x) && OnlyWeekdays(x)
  {
    WeeklyDemandEntries(stores);
    forall x | x in WeeklyDemandOf(stores) ensures Recorded(x) && OnlyWeekdays(x) {
      AvailableDaysExact(x.store);
    }
  }

  /** Steps 1 and 2 of `optimize_week`: the weekly dictionary and the stores put on each day. */
  function WeekAssignments(stores: seq<Store>, vehicles: seq<Vehicle>, threshold: real, dm: Distance.Matrix)
    : (r: Result<map<string, seq<Store>>>)
    ensures r.Ok? ==> r.value.Keys == WeekdaySet
  {
    WeeklyRecorded(stores);
    AssignmentsOf(WeeklyDemandOf(stores), vehicles, threshold, dm)
  }

  /** Sorting by demand keeps the records; the stores the loop places are stores of the
      records, there are none exactly when no record has an available day, and there are no
      more than records. */
  lemma ByDemandPlaced(weekly: seq<Demand>)
    ensures var sorted := ByDemand(weekly);
            && (forall x :: x in sorted <==> x in weekly)
            && (Select(sorted, Placed) == [] <==> forall x :: x in weekly ==> x.availableDays == [])
            && (forall s :: s in Select(sorted, Placed) ==> exists x :: x in weekly && x.store == s)
            && |Select(sorted, Placed)| <= |weekly|
  {
    var sorted := ByDemand(weekly);
    ProcessedByDemand(weekly);
    var placed := Select(sorted, Placed);
    NothingPlaced(sorted, weekly);
    forall s | s in placed ensures exists x :: x in weekly && x.store == s {
      SelectFrom(sorted, Placed, s);
      var i :| 0 <= i < |sorted| && Placed(sorted[i]) == Some(s);
      assert sorted[i] in weekly;
    }
    SelectLength(sorted, Placed);
    assert |sorted| == |multiset(sorted)| == |weekly|;
  }

  /** Nothing is placed from a list exactly when no record of a list with the same elements
      has an available day. */
  lemma NothingPlaced(sorted: seq<Demand>, weekly: seq<Demand>)
    requires forall x :: x in sorted <==> x in weekly
    ensures Select(sorted, Placed) == [] <==> forall x :: x in weekly ==> x.availableDays == []
  {
    SelectEmpty(sorted, Placed);
    assert forall i :: 0 <= i < |sorted| ==> sorted[i] in weekly;
    assert forall x :: x in weekly ==> exists i :: 0 <= i < |sorted| && sorted[i] == x;
  }

  /** The records in the order of the loop: each is one the loop can rely on; the stores the
      loop places are stores of the list, and there are none exactly when no record has an
      available day. */
  lemma SortedRecords(stores: seq<Store>)
    ensures var weekly := WeeklyDemandOf(stores);
            var sorted := ByDemand(weekly);
            && (forall x :: x in sorted ==> Recorded(x) && OnlyWeekdays(x))
            && (Select(sorted, Placed) == [] <==> forall x :: x in weekly ==> x.availableDays == [])
            && (forall s :: s in Select(sorted, Placed) ==> s in stores)
            && |Select(sorted, Placed)| <= |weekly| <= |stores|
  {
    WeeklyRecorded(stores);
    WeeklyDemandEntries(stores);
    ByDemandPlaced(WeeklyDemandOf(stores));
  }

  /** The assignment of the week as the fold of the loop over the records by demand. */
  lemma WeekAssignmentsFold(stores: seq<Store>, vehicles: seq<Vehicle>, threshold: real, dm: Distance.Matrix)
    ensures var sorted := ByDemand(WeeklyDemandOf(stores));
            && (forall x :: x in sorted ==> OnlyWeekdays(x))
            && var r := Assigned(sorted, vehicles, threshold, dm);
               WeekAssignments(stores, vehicles, threshold, dm) == if r.Ok? then Ok(r.value.stores) else Fail(r.failure)
  {
    SortedRecords(stores);
  }

  /** The assignment of the week succeeds unless a store has a day to go to and the fleet is
      empty or has no capacity; each store it puts on a day allows that day and is one of the
      stores, and it puts exactly the stores of the records that have an available day, once
      each, so never more than there are stores. */
  lemma WeekAssignmentsAccount(stores: seq<Store>, vehicles: seq<Vehicle>, threshold: real, dm: Distance.Matrix)
    ensures var weekly, r := WeeklyDemandOf(stores), WeekAssignments(stores, vehicles, threshold, dm);
            && (r.Ok? <==> (forall x :: x in weekly ==> x.availableDays == [])
                           || (vehicles != [] && MaxCapacity(vehicles) != 0.0))
            && (r.Fail? ==> r.failure == if vehicles == [] then EmptyFleet else ZeroCapacity)
            && (r.Ok? ==> forall d, s :: d in WeekdaySet && s in r.value[d] ==> s.IsDayAllowed(d) && s in stores)
            && (r.Ok? ==> multiset(AllAssigned(r.value)) == multiset(Select(ByDemand(weekly), Placed)))
            && (r.Ok? ==> |AllAssigned(r.value)| <= |stores|)
  {
    var sorted := ByDemand(WeeklyDemandOf(stores));
    SortedRecords(stores);
    WeekAssignmentsFold(stores, vehicles, threshold, dm);
    AssignedAccounts(sorted, vehicles, threshold, dm);
    var placed := Select(sorted, Placed);
    var r := Assigned(sorted, vehicles, threshold, dm);
    if r.Ok? {
      var m := r.value.stores;
      forall d, s | d in WeekdaySet && s in m[d] ensures s in stores {
        AllAssignedHas(m, d, s);
        assert s in multiset(placed);
      }
      assert |AllAssigned(m)| == |multiset(AllAssigned(m))| == |placed|;
    }
  }

  /** A store on some day is among all the assigned stores. */
  lemma AllAssignedHas(m: map<string, seq<Store>>, d: string, s: Store)
    requires WeekdaySet <= m.Keys && d in WeekdaySet && s in m[d]
    ensures s in AllAssigned(m)
  {
  }

  /** The number of records allowing more than one day. */
  function MultiDayCount(weekly: seq<Demand>): int
  {
    CountOf(weekly, (x: Demand) => if |x.availableDays| > 1 then 1 else 0)
  }

  /** `a / b * 100` when `b > 0`, otherwise 0. */
  function Percent(a: int, b: int): real
  {
    if b > 0 then a as real / b as real * 100.0 else 0.0
  }

  /** `_calculate_consolidation_stats` (without the rounding to two decimals). */
  function ConsolidationStatsOf(assignments: map<string, seq<Store>>, weekly: seq<Demand>): ConsolidationStats
    requires WeekdaySet <= assignments.Keys
  {
    var total := |weekly|;
    var placedCount := |AllAssigned(assignments)|;
    ConsolidationStats(
      total, placedCount, Percent(MultiDayCount(weekly), total), total, placedCount, Percent(total - placedCount, total),
      [("Mon", |assignments["Mon"]|), ("Tue", |assignments["Tue"]|), ("Wed", |assignments["Wed"]|),
       ("Thu", |assignments["Thu"]|), ("Fri", |assignments["Fri"]|)])
  }

  /** A count that is never negative and never more than its whole gives a percentage. */
  lemma PercentBounds(a: int, b: int)
    requires 0 <= a <= b
    ensures 0.0 <= Percent(a, b) <= 100.0
  {
    if b > 0 {
      assert a as real / b as real <= 1.0;
    }
  }

  /** Each record adds 0 or 1 to the count of multi-day records. */
  lemma {:induction false} MultiDayCountBounds(weekly: seq<Demand>)
    ensures 0 <= MultiDayCount(weekly) <= |weekly|
  {
    if weekly != [] {
      MultiDayCountBounds(weekly[..|weekly| - 1]);
    }
  }

  /** The per-day counts follow the weekdays and add up to all the assigned stores. */
  lemma PerDayCounts(m: map<string, seq<Store>>, weekly: seq<Demand>)
    requires WeekdaySet <= m.Keys
    ensures var st := ConsolidationStatsOf(m, weekly);
            && (forall k :: 0 <= k < 5 ==> st.storesPerDay[k].0 == Weekdays[k])
            && CountOf(st.storesPerDay, (p: (string, int)) => p.1) == st.storesAssigned
  {
    var st := ConsolidationStatsOf(m, weekly);
    var per := st.storesPerDay;
    var f := (p: (string, int)) => p.1;
    assert CountOf(per[..1], f) == |m["Mon"]| by {
      assert per[..1][..0] == [];
    }
    assert CountOf(per[..2], f) == CountOf(per[..1], f) + |m["Tue"]| by {
      assert per[..2][..1] == per[..1];
    }
    assert CountOf(per[..3], f) == CountOf(per[..2], f) + |m["Wed"]| by {
      assert per[..3][..2] == per[..2];
    }
    assert CountOf(per[..4], f) == CountOf(per[..3], f) + |m["Thu"]| by {
      assert per[..4][..3] == per[..3];
    }
    assert CountOf(per, f) == CountOf(per[..4], f) + |m["Fri"]| by {
      assert per[..4] == per[..|per| - 1];
    }
    assert |AllAssigned(m)| == |m["Mon"]| + |m["Tue"]| + |m["Wed"]| + |m["Thu"]| + |m["Fri"]|;
  }

  /** Statistics over a dictionary with no more assigned stores than records: both
      percentages lie between 0 and 100, and the trip reduction is 0 exactly when every
      record's store was assigned. */
  lemma StatsBounds(m: map<string, seq<Store>>, weekly: seq<Demand>)
    requires WeekdaySet <= m.Keys && |AllAssigned(m)| <= |weekly|
    ensures var st := ConsolidationStatsOf(m, weekly);
            && st.totalStores == st.baselineTrips == |weekly|
            && st.storesAssigned == st.optimizedTrips == |AllAssigned(m)|
            && 0.0 <= st.consolidationRatePercent <= 100.0
            && 0.0 <= st.tripReductionPercent <= 100.0
            && (st.tripReductionPercent == 0.0 <==> st.optimizedTrips == st.baselineTrips)
  {
    var placed := |AllAssigned(m)|;
    MultiDayCountBounds(weekly);
    PercentBounds(MultiDayCount(weekly), |weekly|);
    PercentBounds(|weekly| - placed, |weekly|);
    if |weekly| > 0 && Percent(|weekly| - placed, |weekly|) == 0.0 {
      assert (|weekly| - placed) as real / |weekly| as real == 0.0;
    }
  }

  /** The statistics of a successful week: one baseline trip per record, one optimised trip
      per store put on a day, which are the stores of the records with an available day;
      both percentages lie between 0 and 100; the per-day counts follow the weekdays and
      add up to the stores assigned. */
  lemma StatsOfWeek(stores: seq<Store>, vehicles: seq<Vehicle>, threshold: real, dm: Distance.Matrix)
    requires WeekAssignments(stores, vehicles, threshold, dm).Ok?
    ensures var weekly := WeeklyDemandOf(stores);
            var st := ConsolidationStatsOf(WeekAssignments(stores, vehicles, threshold, dm).value, weekly);
            && st.totalStores == st.baselineTrips == |weekly| <= |stores|
            && st.storesAssigned == st.optimizedTrips == |Select(ByDemand(weekly), Placed)| <= st.totalStores
            && 0.0 <= st.consolidationRatePercent <= 100.0
            && 0.0 <= st.tripReductionPercent <= 100.0
            && (st.tripReductionPercent == 0.0 <==> st.optimizedTrips == st.baselineTrips)
            && (forall k :: 0 <= k < 5 ==> st.storesPerDay[k].0 == Weekdays[k])
            && CountOf(st.storesPerDay, (p: (string, int)) => p.1) == st.storesAssigned
  {
    var weekly := WeeklyDemandOf(stores);
    var m := WeekAssignments(stores, vehicles, threshold, dm).value;
    WeekAssignmentsAccount(stores, vehicles, threshold, dm);
    SortedRecords(stores);
    var placed := Select(ByDemand(weekly), Placed);
    assert |AllAssigned(m)| == |multiset(AllAssigned(m))| == |placed|;
    StatsBounds(m, weekly);
    PerDayCounts(m, weekly);
  }

  /** A weekday with stores on it gets planned. */
  predicate HasStores(assignments: map<string, seq<Store>>, d: string)
  {
    d in assignments && assignments[d] != []
  }

  /** The days `optimize_week` plans, in the order it plans them. */
  function PlannedDays(assignments: map<string, seq<Store>>, days: seq<string>): seq<string>
  {
    if days == [] then []
    else
      var last := days[|days| - 1];
      PlannedDays(assignments, days[..|days| - 1]) + if HasStores(assignments, last) then [last] else []
  }

  /** The start of the week: the given start, or eight o'clock on the day of `now`. */
  function WeekStart(startDate: Option<real>, now: real): real
  {
    if startDate.Some? then startDate.value else (now / 1440.0).Floor as real * 1440.0 + 480.0
  }

  /** The start of a weekday: the start of the week plus one day per weekday before it. */
  function DayStart(start: real, d: string): real
  {
    start + 1440.0 * DayNumber(d) as real
  }

  /** The daily solutions `optimize_week` records: each planned day solved from its start. */
  function DayPlans(assignments: map<string, seq<Store>>, days: seq<string>, start: real,
                    solve: (string, real) -> Solution): map<string, Solution>
  {
    if days == [] then map[]
    else
      var last := days[|days| - 1];
      var plans := DayPlans(assignments, days[..|days| - 1], start, solve);
      if HasStores(assignments, last) then plans[last := solve(last, DayStart(start, last))] else plans
  }

  /** A day is planned exactly when it is listed and has stores; the planned days keep the
      order of the list. */
  lemma {:induction false} PlannedDaysExact(assignments: map<string, seq<Store>>, days: seq<string>, d: string)
    ensures d in PlannedDays(assignments, days) <==> d in days && HasStores(assignments, d)
  {
    if days != [] {
      PlannedDaysExact(assignments, days[..|days| - 1], d);
      assert days == days[..|days| - 1] + [days[|days| - 1]];
    }
  }

  /** The planned days in the order of the week, each at most once. */
  lemma {:induction false} PlannedDaysOrdered(assignments: map<string, seq<Store>>, days: seq<string>)
    requires InWeekOrder(days)
    ensures InWeekOrder(PlannedDays(assignments, days))
  {
    if days != [] {
      var init, last := days[..|days| - 1], days[|days| - 1];
      assert forall i :: 0 <= i < |init| ==> init[i] == days[i];
      PlannedDaysOrdered(assignments, init);
      if HasStores(assignments, last) {
        var p := PlannedDays(assignments, init);
        forall i | 0 <= i < |p| ensures DayNumber(p[i]) < DayNumber(last) {
          PlannedDaysExact(assignments, init, p[i]);
          var k :| 0 <= k < |init| && init[k] == p[i];
        }
      }
    }
  }

  /** A day has a solution exactly when it is planned; its solution is the solver's for that
      day, started on that day. */
  lemma {:induction false} DayPlansExact(assignments: map<string, seq<Store>>, days: seq<string>, start: real,
                                         solve: (string, real) -> Solution, d: string)
    ensures d in DayPlans(assignments, days, start, solve) <==> d in PlannedDays(assignments, days)
    ensures d in DayPlans(assignments, days, start, solve) ==>
              DayPlans(assignments, days, start, solve)[d] == solve(d, DayStart(start, d))
  {
    PlannedDaysExact(assignments, days, d);
    if days != [] {
      var init := days[..|days| - 1];
      DayPlansExact(assignments, init, start, solve, d);
      PlannedDaysExact(assignments, init, d);
      assert days == init + [days[|days| - 1]];
    }
  }

  /** `_calculate_consolidation_stats`, without the rounding of the percentages to two
      decimals: the loop counting the multi-day records. */
  method CalculateConsolidationStats(assignments: map<string, seq<Store>>, weekly: seq<Demand>)
    returns (st: ConsolidationStats)
    requires WeekdaySet <= assignments.Keys
    ensures st == ConsolidationStatsOf(assignments, weekly)
  {
    var totalStores := |weekly|;
    var assignedStores := |AllAssigned(assignments)|;
    var consolidatedCount := 0;
    for i := 0 to |weekly|
      invariant consolidatedCount == MultiDayCount(weekly[..i])
    {
      assert weekly[..i + 1][..i] == weekly[..i];
      if |weekly[i].availableDays| > 1 {
        consolidatedCount := consolidatedCount + 1;
      }
    }
    assert weekly[..|weekly|] == weekly;
    var consolidationRate := if totalStores > 0 then consolidatedCount as real / totalStores as real * 100.0 else 0.0;
    var baselineTrips := totalStores;
    var optimizedTrips := assignedStores;
    var tripReduction := if baselineTrips > 0 then (baselineTrips - optimizedTrips) as real / baselineTrips as real * 100.0 else 0.0;
    st := ConsolidationStats(
      totalStores, assignedStores, consolidationRate, baselineTrips, optimizedTrips, tripReduction,
      [("Mon", |assignments["Mon"]|), ("Tue", |assignments["Tue"]|), ("Wed", |assignments["Wed"]|),
       ("Thu", |assignments["Thu"]|), ("Fri", |assignments["Fri"]|)]);
  }

  /** Step 3 of `optimize_week`: a solution for each weekday with stores, in weekday order. */
  method SolveDays(m: map<string, seq<Store>>, start: real, solve: (string, real) -> Solution)
    returns (plan: MultiDaySolution)
    ensures fresh(plan) && plan.Valid() && plan.consolidationStats == None
    ensures plan.days == PlannedDays(m, Weekdays)
    ensures plan.dailySolutions == DayPlans(m, Weekdays, start, solve)
  {
    plan := new MultiDaySolution();
    for dayIdx := 0 to |Weekdays|
      invariant fresh(plan) && plan.Valid() && plan.consolidationStats == None
      invariant plan.days == PlannedDays(m, Weekdays[..dayIdx])
      invariant plan.dailySolutions == DayPlans(m, Weekdays[..dayIdx], start, solve)
    {
      var day := Weekdays[dayIdx];
      PlanStep(m, Weekdays, dayIdx, start, solve);
      if day !in m || m[day] == [] {
        continue;
      }
      var dayStart := start + 1440.0 * dayIdx as real;
      var solution := solve(day, dayStart);
      NewPlannedDay(m, dayIdx, start, solve);
      plan.AddDaySolution(day, solution);
    }
    assert Weekdays[..|Weekdays|] == Weekdays;
  }

  /** Planning one more listed day. */
  lemma PlanStep(m: map<string, seq<Store>>, days: seq<string>, k: nat, start: real, solve: (string, real) -> Solution)
    requires k < |days|
    ensures PlannedDays(m, days[..k + 1])
            == PlannedDays(m, days[..k]) + if HasStores(m, days[k]) then [days[k]] else []
    ensures DayPlans(m, days[..k + 1], start, solve)
            == if HasStores(m, days[k]) then DayPlans(m, days[..k], start, solve)[days[k] := solve(days[k], DayStart(start, days[k]))]
               else DayPlans(m, days[..k], start, solve)
  {
    assert days[..k + 1][..k] == days[..k];
  }

  /** The weekday at `k` is not yet planned before `k`, and starts `k` days after the week. */
  lemma NewPlannedDay(m: map<string, seq<Store>>, k: nat, start: real, solve: (string, real) -> Solution)
    requires k < |Weekdays|
    ensures Weekdays[k] !in DayPlans(m, Weekdays[..k], start, solve)
    ensures DayStart(start, Weekdays[k]) == start + 1440.0 * k as real
  {
    DayNumberOf(k);
    WeekdaysInOrder();
    DayPlansExact(m, Weekdays[..k], start, solve, Weekdays[k]);
    PlannedDaysExact(m, Weekdays[..k], Weekdays[k]);
  }

  /** `optimize_week`: the weekly dictionary, the stores put on each day, one solver run per
      weekday with stores, started that many days after the start of the week, and the
      statistics. The solver is a function of the day and the start. */
  method OptimizeWeek(stores: seq<Store>, vehicles: seq<Vehicle>, dm: Distance.Matrix, threshold: real,
                      startDate: Option<real>, now: real, solve: (string, real) -> Solution)
    returns (r: Result<MultiDaySolution>)
    ensures var a := WeekAssignments(stores, vehicles, threshold, dm);
            && (a.Fail? ==> r == Fail(a.failure))
            && (a.Ok? ==> && r.Ok? && fresh(r.value) && r.value.Valid()
                          && r.value.days == PlannedDays(a.value, Weekdays)
                          && r.value.dailySolutions == DayPlans(a.value, Weekdays, WeekStart(startDate, now), solve)
                          && r.value.consolidationStats == Some(ConsolidationStatsOf(a.value, WeeklyDemandOf(stores))))
  {
    var start := WeekStart(startDate, now);
    var weeklyDemand := AggregateWeeklyDemand(stores);
    WeeklyRecorded(stores);
    var dayAssignments := AssignStoresToDays(weeklyDemand, vehicles, threshold, dm);
    if dayAssignments.Fail? {
      return Fail(dayAssignments.failure);
    }
    var m := dayAssignments.value;
    var plan := SolveDays(m, start, solve);
    var stats := CalculateConsolidationStats(m, weeklyDemand);
    plan.consolidationStats := Some(stats);
    return Ok(plan);
  }
}
