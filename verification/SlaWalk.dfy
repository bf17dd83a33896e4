/**
  The business-hours walk of `compute_sla_due_at`: day by day and window by window, for any zone and schedule.
 */
module SlaWalk {
  import opened BusinessCalendar

  const MAX_WALK_DAYS: nat := 366

  datatype DueResult = Due(at: int) | Exhausted

  /** `due` is the first instant with `budget` open microseconds between `from` and it. */
  ghost predicate IsDue(z: Zone, s: Schedule, from: int, budget: int, due: int) {
    && from <= due
    && OpenTime(z, s, from, due) == budget
    && (forall x :: from <= x < due ==> OpenTime(z, s, from, x) < budget)
  }

  /** The end of the 366th local day, counting the day of `from` as the first. */
  function Horizon(z: Zone, from: int): int {
    z.toUtc(At(DayOf(z.toLocal(from)) + MAX_WALK_DAYS, 0))
  }

  /** What the walk promises: the due instant if it lies within the horizon, else the error. */
  ghost predicate Meets(z: Zone, s: Schedule, from: int, budget: int, r: DueResult) {
    match r
    case Due(at) => IsDue(z, s, from, budget, at) && at <= Horizon(z, from)
    case Exhausted => OpenTime(z, s, from, Horizon(z, from)) < budget
  }

  /** An aware datetime: its wall-clock reading and the UTC instant it stands for (so `fold` is kept). */
  datatype Cursor = Cursor(local: int, utc: int)

  function AtReading(z: Zone, w: int): Cursor { Cursor(w, z.toUtc(w)) }

  // --- what the walk computes, whatever the zone and the schedule ---

  datatype Progress = Landed(at: int) | Going(cursor: Cursor, remaining: int)

  /** One window of day `d`: passed by already, enough for what remains, or used up. */
  function UseWindow(z: Zone, d: int, w: Window, p: Progress): Progress {
    if p.Landed? || p.cursor.local >= At(d, w.end) then p
    else
      var start := if At(d, w.start) > p.cursor.local then AtReading(z, At(d, w.start)) else p.cursor;
      var end := AtReading(z, At(d, w.end));
      if p.remaining <= end.utc - start.utc then Landed(start.utc + p.remaining)
      else Going(end, p.remaining - (end.utc - start.utc))
  }

  function UseWindows(z: Zone, d: int, ws: seq<Window>, p: Progress): Progress {
    if ws == [] then p else UseWindow(z, d, ws[|ws| - 1], UseWindows(z, d, ws[..|ws| - 1], p))
  }

  /** On to the midnight that ends day `d`. */
  function NextDay(z: Zone, d: int, p: Progress): Progress {
    if p.Landed? then p else Going(AtReading(z, At(d + 1, 0)), p.remaining)
  }

  function AfterDays(z: Zone, s: Schedule, from: int, budget: int, n: nat): Progress {
    if n == 0 then Going(Cursor(z.toLocal(from), from), budget)
    else
      var d := DayOf(z.toLocal(from)) + n - 1;
      NextDay(z, d, UseWindows(z, d, WindowsOn(s, d), AfterDays(z, s, from, budget, n - 1)))
  }

  function Walk(z: Zone, s: Schedule, from: int, budget: int): DueResult {
    var p := AfterDays(z, s, from, budget, MAX_WALK_DAYS);
    if p.Landed? then Due(p.at) else Exhausted
  }

  /** A walk that goes on has passed the end of every window listed. */
  lemma {:induction false} EndsPassed(z: Zone, d: int, ws: seq<Window>, p: Progress)
    requires p.Going?
    ensures var q := UseWindows(z, d, ws, p); q.Going? ==>
      p.cursor.local <= q.cursor.local && (forall i :: 0 <= i < |ws| ==> At(d, ws[i].end) <= q.cursor.local)
  {
    if ws != [] {
      var n := |ws| - 1;
      EndsPassed(z, d, ws[..n], p);
      var q' := UseWindows(z, d, ws, p);
      if q'.Going? {
        forall i | 0 <= i < n ensures At(d, ws[i].end) <= q'.cursor.local { assert ws[i] == ws[..n][i]; }
      }
    }
  }

  /** It stands at the end of one of them, or where it stood. */
  ghost predicate AtSomeEnd(z: Zone, d: int, ws: seq<Window>, c: Cursor) {
    exists i :: 0 <= i < |ws| && c == AtReading(z, At(d, ws[i].end))
  }

  lemma {:induction false} StandsAtEnd(z: Zone, d: int, ws: seq<Window>, p: Progress)
    requires p.Going?
    ensures var q := UseWindows(z, d, ws, p); q.Going? ==> q.cursor == p.cursor || AtSomeEnd(z, d, ws, q.cursor)
  {
    if ws != [] {
      var n := |ws| - 1;
      StandsAtEnd(z, d, ws[..n], p);
      var q := UseWindows(z, d, ws[..n], p);
      if q.Going? && AtSomeEnd(z, d, ws[..n], q.cursor) {
        var i :| 0 <= i < n && q.cursor == AtReading(z, At(d, ws[..n][i].end));
        assert ws[i] == ws[..n][i];
      }
    }
  }

  lemma UseNone(z: Zone, d: int, ws: seq<Window>, p: Progress)
    ensures UseWindows(z, d, ws[..0], p) == p
  {
  }

  lemma UseNext(z: Zone, d: int, ws: seq<Window>, n: nat, p: Progress)
    requires n < |ws|
    ensures UseWindows(z, d, ws[..n + 1], p) == UseWindow(z, d, ws[n], UseWindows(z, d, ws[..n], p))
    ensures UseWindows(z, d, ws[..n], p).Landed? ==> UseWindows(z, d, ws[..n + 1], p) == UseWindows(z, d, ws[..n], p)
  {
    assert ws[..n + 1][..n] == ws[..n];
  }

  /** Windows that end no later than an earlier one are never entered. */
  lemma {:induction false} UseRecords(z: Zone, d: int, ws: seq<Window>, p: Progress)
    ensures UseWindows(z, d, Records(ws), p) == UseWindows(z, d, ws, p)
  {
    if ws != [] {
      var n := |ws| - 1;
      UseRecords(z, d, ws[..n], p);
      if Records(ws) == Records(ws[..n]) + [ws[n]] {
        assert Records(ws)[..|Records(ws)| - 1] == Records(ws[..n]);
      } else {
        assert Records(ws) == Records(ws[..n]);
        var i :| 0 <= i < n && ws[..n][i].end >= ws[n].end;
        if p.Going? { EndsPassed(z, d, ws[..n], p); } else { LandedStays(z, d, ws[..n], p); }
      }
    }
  }

  lemma {:induction false} LandedStays(z: Zone, d: int, ws: seq<Window>, p: Progress)
    requires p.Landed?
    ensures UseWindows(z, d, ws, p) == p
  {
    if ws != [] { LandedStays(z, d, ws[..|ws| - 1], p); }
  }

  lemma EffectiveDay(s: Schedule, d: int)
    ensures WindowsOn(Effective(s), d) == Records(WindowsOn(s, d))
  {
  }

  lemma DayStep(z: Zone, s: Schedule, from: int, budget: int, n: nat)
    ensures AfterDays(z, s, from, budget, 0) == Going(Cursor(z.toLocal(from), from), budget)
    ensures var d := DayOf(z.toLocal(from)) + n;
      AfterDays(z, s, from, budget, n + 1)
      == NextDay(z, d, UseWindows(z, d, WindowsOn(s, d), AfterDays(z, s, from, budget, n)))
  {
  }

  /** In every zone, the walk over a schedule is the walk over the windows it sees. */
  lemma {:induction false} AfterDaysEffective(z: Zone, s: Schedule, from: int, budget: int, n: nat)
    ensures AfterDays(z, Effective(s), from, budget, n) == AfterDays(z, s, from, budget, n)
  {
    hide *;
    if n == 0 {
      DayStep(z, s, from, budget, 0);
      DayStep(z, Effective(s), from, budget, 0);
    } else {
      var d := DayOf(z.toLocal(from)) + n - 1;
      EffectiveDay(s, d);
      DayStep(z, s, from, budget, n - 1);
      DayStep(z, Effective(s), from, budget, n - 1);
      AfterDaysEffective(z, s, from, budget, n - 1);
      UseRecords(z, d, WindowsOn(s, d), AfterDays(z, s, from, budget, n - 1));
    }
  }

  lemma WalkEffective(z: Zone, s: Schedule, from: int, budget: int)
    ensures Walk(z, Effective(s), from, budget) == Walk(z, s, from, budget)
  {
    AfterDaysEffective(z, s, from, budget, MAX_WALK_DAYS);
  }

  // --- where the walk stands ---

  lemma {:induction false} LandedFrom(z: Zone, d: int, ws: seq<Window>, i: nat, p: Progress)
    requires i <= |ws| && UseWindows(z, d, ws[..i], p).Landed?
    ensures UseWindows(z, d, ws, p) == UseWindows(z, d, ws[..i], p)
  {
    if i < |ws| {
      assert ws[..|ws| - 1][..i] == ws[..i];
      LandedFrom(z, d, ws[..|ws| - 1], i, p);
    } else {
      assert ws[..i] == ws;
    }
  }

  lemma {:induction false} LandedForGood(z: Zone, s: Schedule, from: int, budget: int, m: nat, n: nat)
    requires m <= n && AfterDays(z, s, from, budget, m).Landed?
    ensures AfterDays(z, s, from, budget, n) == AfterDays(z, s, from, budget, m)
  {
    if m < n {
      LandedForGood(z, s, from, budget, m, n - 1);
      var d := DayOf(z.toLocal(from)) + n - 1;
      LandedStays(z, d, WindowsOn(s, d), AfterDays(z, s, from, budget, n - 1));
    }
  }

  /** A day's windows do not take the walk out of the day. */
  lemma StaysInDay(z: Zone, s: Schedule, d: int, p: Progress)
    requires ValidSchedule(s) && p.Going? && At(d, 0) <= p.cursor.local < At(d + 1, 0)
    ensures var q := UseWindows(z, d, WindowsOn(s, d), p);
      q.Going? ==> At(d, 0) <= q.cursor.local < At(d + 1, 0)
  {
    var ws := WindowsOn(s, d);
    hide UseWindows, WindowsOn, At, ValidSchedule;
    StaysWhile(z, s, d, p, |ws|);
    assert ws[..|ws|] == ws;
  }

  lemma StaysWhile(z: Zone, s: Schedule, d: int, p: Progress, n: nat)
    requires ValidSchedule(s) && p.Going? && At(d, 0) <= p.cursor.local < At(d + 1, 0) && n <= |WindowsOn(s, d)|
    ensures var q := UseWindows(z, d, WindowsOn(s, d)[..n], p);
      q.Going? ==> At(d, 0) <= q.cursor.local < At(d + 1, 0)
  {
    var ws := WindowsOn(s, d);
    EndsPassed(z, d, ws[..n], p);
    StandsAtEnd(z, d, ws[..n], p);
    assert forall i :: 0 <= i < n ==> ws[..n][i] == ws[i];
    forall i | 0 <= i < |ws| ensures At(d, 0) <= At(d, ws[i].end) < At(d + 1, 0) { assert WithinDay(ws[i]); }
  }

  lemma SameDay(d: int, w: int)
    requires At(d, 0) <= w < At(d + 1, 0)
    ensures DayOf(w) == d && At(d + 1, 0) < At(d + 2, 0)
  {
  }

  lemma DayBounds(w: int)
    ensures At(DayOf(w), 0) <= w < At(DayOf(w) + 1, 0)
  {
  }
}
