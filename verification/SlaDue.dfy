/** The walk proved against "the first instant by which the budget of open time has passed". */
module SlaDue {
  import opened BusinessCalendar
  import opened SlaWalk
  import opened SlaBooks

  /**
    In a zone that passes the schedule's midnights and edges once, the walk returns the exact due instant over the
    windows it sees, or the error exactly when the horizon comes first.
   */
  lemma WalkMeets(z: Zone, s: Schedule, from: int, budget: int)
    requires Regular(z, s) && ValidSchedule(s) && budget > 0
    ensures Meets(z, Effective(s), from, budget, Walk(z, s, from, budget))
  {
    DaysOnTrack(z, s, from, budget, MAX_WALK_DAYS);
    var p := AfterDays(z, s, from, budget, MAX_WALK_DAYS);
    hide AfterDays, Regular, IsDue;
    if p.Going? {
      var m := At(DayOf(z.toLocal(from)) + MAX_WALK_DAYS, 0);
      assert p.cursor == AtReading(z, m) by { WalkEndsAtMidnight(z, s, from, budget, MAX_WALK_DAYS); }
    }
  }

  // --- the code's own steps ---

  /** The inner loop over one day's windows; `Exhausted` when it falls through. */
  method WalkDay(z: Zone, s: Schedule, d: int, c: Cursor, budgetLeft: int)
    returns (landed: DueResult, cursor: Cursor, remaining: int)
    ensures UseWindows(z, d, WindowsOn(s, d), Going(c, budgetLeft))
            == match landed case Due(at) => Landed(at) case Exhausted => Going(cursor, remaining)
  {
    cursor, remaining := c, budgetLeft;
    var windows := WindowsOn(s, d);
    for i := 0 to |windows|
      invariant UseWindows(z, d, windows[..i], Going(c, budgetLeft)) == Going(cursor, remaining)
    {
      assert windows[..i + 1][..i] == windows[..i];
      var windowStart := AtReading(z, At(d, windows[i].start));
      var windowEnd := AtReading(z, At(d, windows[i].end));
      if cursor.local < windowEnd.local {
        var effectiveStart := if windowStart.local > cursor.local then windowStart else cursor;
        var available := windowEnd.utc - effectiveStart.utc;
        if remaining <= available {
          landed := Due(effectiveStart.utc + remaining);
          LandedFrom(z, d, windows, i + 1, Going(c, budgetLeft));
          return;
        }
        remaining := remaining - available;
        cursor := windowEnd;
      }
    }
    assert windows[..|windows|] == windows;
    landed := Exhausted;
  }

  /** The outer loop over the days. */
  method WalkDays(z: Zone, s: Schedule, from: int, budget: int) returns (r: DueResult)
    requires ValidSchedule(s)
    ensures r == Walk(z, s, from, budget)
  {
    hide ValidSchedule, UseWindows, AfterDays, WindowsOn, DayOf, At;
    var cursor := Cursor(z.toLocal(from), from);
    var remaining := budget;
    ghost var day0 := DayOf(z.toLocal(from));
    DayStep(z, s, from, budget, 0);
    DayBounds(cursor.local);
    for n := 0 to MAX_WALK_DAYS
      invariant At(day0 + n, 0) <= cursor.local < At(day0 + n + 1, 0)
      invariant AfterDays(z, s, from, budget, n) == Going(cursor, remaining)
    {
      SameDay(day0 + n, cursor.local);
      var d := DayOf(cursor.local);
      StaysInDay(z, s, d, Going(cursor, remaining));
      DayStep(z, s, from, budget, n);
      r, cursor, remaining := WalkDay(z, s, d, cursor, remaining);
      if r.Due? {
        LandedForGood(z, s, from, budget, n + 1, MAX_WALK_DAYS);
        return r;
      }
      SameDay(d, cursor.local);
      var midnight := At(DayOf(cursor.local) + 1, 0);
      cursor := Cursor(midnight, z.toUtc(midnight));
    }
    return Exhausted;
  }

  /**
    The walk. In every zone and for every accepted schedule the loops compute `Walk`; where the zone passes the edges
    once that is the exact due instant over the windows the walk sees, or the error when the horizon comes first.
   */
  method ComputeSlaDueAt(from: int, slaHours: int, respectsBusinessHours: bool, z: Zone, s: Schedule)
    returns (r: DueResult)
    requires ValidSchedule(s)
    ensures !respectsBusinessHours ==> r == Due(from + slaHours * HOUR)
    ensures respectsBusinessHours ==> r == Walk(z, s, from, slaHours * HOUR)
    ensures respectsBusinessHours && slaHours > 0 && Regular(z, s) ==>
              Meets(z, Effective(s), from, slaHours * HOUR, r)
  {
    hide Walk, Regular, Effective, Meets, ValidSchedule;
    if !respectsBusinessHours {
      return Due(from + slaHours * HOUR);
    }
    r := WalkDays(z, s, from, slaHours * HOUR);
    if slaHours > 0 && Regular(z, s) { WalkMeets(z, s, from, slaHours * HOUR); }
  }
}
