/** A delivery location and its calendar and clock restrictions
    (vrp_solver/models/store.py). Name, coordinates, notes and priority are
    not used by the routing engine and are not part of this model. */
module Stores {
  import opened Common
  import opened TimeWindows

  datatype Store = Store(
    id: string,
    demandCbm: real,
    timeWindows: seq<TimeWindow>,
    forbiddenIntervals: seq<ForbiddenInterval>,
    excludedDays: seq<string>,
    preferredDays: seq<string>,
    serviceTimeMinutes: int)
  {
    /** Delivery is allowed on `day` unless the day is listed as excluded. */
    predicate IsDayAllowed(day: string)
    {
      day !in excludedDays
    }

    /** The window that applies on `day`: the first window scoped to that day,
        else the first window with no day, else none. */
    function GetTimeWindowForDay(day: Option<string>): Option<TimeWindow>
    {
      match FirstWindowFor(timeWindows, day)
      case Some(k) => Some(timeWindows[k])
      case None =>
        match FirstWindowFor(timeWindows, None)
        case Some(k) => Some(timeWindows[k])
        case None => None
    }

    /** Some forbidden interval of the store contains `t`. */
    predicate HasForbiddenConflict(t: Clock)
    {
      AnyConflict(forbiddenIntervals, t)
    }
  }

  /** Index of the first window whose day scope equals `day` (the early-return search). */
  function FirstWindowFor(tws: seq<TimeWindow>, day: Option<string>): (r: Option<nat>)
    ensures r.Some? ==> r.value < |tws|
  {
    if tws == [] then None
    else if tws[0].day == day then Some(0)
    else match FirstWindowFor(tws[1..], day)
         case Some(k) => Some(k + 1)
         case None => None
  }

  /** The search finds the first matching window, and finds none only when no window matches. */
  lemma {:induction false} FirstWindowForIsFirst(tws: seq<TimeWindow>, day: Option<string>)
    ensures var r := FirstWindowFor(tws, day);
            && (r.Some? ==> tws[r.value].day == day && forall j :: 0 <= j < r.value ==> tws[j].day != day)
            && (r.None? <==> forall j :: 0 <= j < |tws| ==> tws[j].day != day)
  {
    if tws != [] && tws[0].day != day {
      FirstWindowForIsFirst(tws[1..], day);
      assert forall j :: 1 <= j < |tws| ==> tws[j] == tws[1..][j - 1];
    }
  }

  /** The window chosen for a day is one of the store's windows, scoped to that day or to
      none; there is none exactly when every window is scoped to some other day. */
  lemma WindowForDayCases(s: Store, day: Option<string>)
    ensures var r := s.GetTimeWindowForDay(day);
            && (r.Some? ==> r.value in s.timeWindows && (r.value.day == day || r.value.day.None?))
            && (r.None? <==> forall i :: 0 <= i < |s.timeWindows| ==> s.timeWindows[i].day != day && s.timeWindows[i].day.Some?)
  {
    FirstWindowForIsFirst(s.timeWindows, day);
    FirstWindowForIsFirst(s.timeWindows, None);
  }

  /** The loop over forbidden intervals that returns on the first conflict. */
  function AnyConflict(fs: seq<ForbiddenInterval>, t: Clock): bool
  {
    if fs == [] then false
    else if fs[0].ConflictsWith(t) then true
    else AnyConflict(fs[1..], t)
  }

  /** `has_forbidden_conflict(t)` holds exactly when some forbidden interval contains t. */
  lemma {:induction false} ForbiddenConflictMeansSomeInterval(fs: seq<ForbiddenInterval>, t: Clock)
    ensures AnyConflict(fs, t) <==> exists i :: 0 <= i < |fs| && fs[i].ConflictsWith(t)
  {
    if fs != [] && !fs[0].ConflictsWith(t) {
      ForbiddenConflictMeansSomeInterval(fs[1..], t);
      assert forall i :: 1 <= i < |fs| ==> fs[i] == fs[1..][i - 1];
    }
  }

  /** A window scoped to `day` wins over any general window, whatever the list order. */
  lemma DaySpecificWindowFirst(s: Store, day: string, k: nat)
    requires k < |s.timeWindows| && s.timeWindows[k].day == Some(day)
    requires forall j :: 0 <= j < k ==> s.timeWindows[j].day != Some(day)
    ensures s.GetTimeWindowForDay(Some(day)) == Some(s.timeWindows[k])
  {
    FirstWindowForIsFirst(s.timeWindows, Some(day));
    var r := FirstWindowFor(s.timeWindows, Some(day));
    assert r.Some?;
  }

  /** Without a window for the day, the first general window is used. */
  lemma GeneralWindowFallback(s: Store, day: string, k: nat)
    requires forall j :: 0 <= j < |s.timeWindows| ==> s.timeWindows[j].day != Some(day)
    requires k < |s.timeWindows| && s.timeWindows[k].day.None?
    requires forall j :: 0 <= j < k ==> s.timeWindows[j].day.Some?
    ensures s.GetTimeWindowForDay(Some(day)) == Some(s.timeWindows[k])
  {
    FirstWindowForIsFirst(s.timeWindows, Some(day));
    FirstWindowForIsFirst(s.timeWindows, None);
    var r := FirstWindowFor(s.timeWindows, None);
    assert r.Some?;
  }
}
