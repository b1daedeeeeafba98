/** Delivery time windows and forbidden (blackout) intervals, as closed
    intervals of the time of day (vrp_solver/models/time_window.py).
    Window bounds are whole minutes of the day, as parsed from "HH:MM";
    the times tested against them carry a sub-minute part. */
module TimeWindows {
  import opened Common

  /** A minute of the day: 0 is 00:00, 1439 is 23:59. */
  type Minute = m: int | 0 <= m < 1440

  /** A time of day in minutes, including seconds as a fraction of a minute. */
  type Clock = t: real | 0.0 <= t < 1440.0

  /** The clock reading at the start of a minute. */
  function AtMinute(m: Minute): (c: Clock)
    ensures c == m as real
  {
    m as real
  }

  /** An allowed delivery window; `day` None means it applies on every day. */
  datatype TimeWindow = TimeWindow(earliest: Minute, latest: Minute, day: Option<string>)
  {
    /** `earliest <= t <= latest`: both ends are part of the window. */
    predicate Contains(t: Clock)
    {
      earliest as real <= t <= latest as real
    }

    /** Length of the window in minutes; negative when the window is inverted. */
    function DurationMinutes(): (d: int)
      ensures d >= 0 <==> earliest <= latest
      ensures earliest + d == latest
    {
      latest - earliest
    }
  }

  /** A blackout period during which no delivery may start. */
  datatype ForbiddenInterval = ForbiddenInterval(start: Minute, end: Minute, reason: string)
  {
    /** `start <= t <= end`: both ends are forbidden. */
    predicate ConflictsWith(t: Clock)
    {
      start as real <= t <= end as real
    }

    /** False exactly when the interval ends before the window opens or starts after it closes. */
    predicate OverlapsWithWindow(w: TimeWindow)
    {
      !(end < w.earliest || start > w.latest)
    }
  }

  /** A window is a closed interval: its earliest and latest minutes belong to it,
      and the times it contains are exactly those `DurationMinutes` after its start. */
  lemma WindowIsClosed(w: TimeWindow, t: Clock)
    requires w.earliest <= w.latest
    ensures w.Contains(AtMinute(w.earliest)) && w.Contains(AtMinute(w.latest))
    ensures w.Contains(t) <==> w.earliest as real <= t <= (w.earliest + w.DurationMinutes()) as real
  {
  }

  /** Overlap, read as a statement about times: for well-formed intervals it holds
      iff some time of day is both forbidden and inside the window. */
  lemma OverlapMeansCommonTime(f: ForbiddenInterval, w: TimeWindow)
    requires f.start <= f.end && w.earliest <= w.latest
    ensures f.OverlapsWithWindow(w) <==> exists t: Clock :: f.ConflictsWith(t) && w.Contains(t)
  {
    if f.OverlapsWithWindow(w) {
      var m: Minute := if f.start < w.earliest then w.earliest else f.start;
      var t := AtMinute(m);
      assert f.ConflictsWith(t) && w.Contains(t);
    }
    if exists t: Clock :: f.ConflictsWith(t) && w.Contains(t) {
      var t: Clock :| f.ConflictsWith(t) && w.Contains(t);
      assert !(f.end < w.earliest);
      assert !(f.start > w.latest);
    }
  }
}
