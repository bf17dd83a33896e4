/**
  The books of a walk in a zone that passes the schedule's midnights and edges once. A cursor is placed: the readings
  before it have passed by its instant, and the later ones have not. What has been open since the start and what remains
  to be charged add up to the budget. Between the cursor and the window it enters nothing is open that the walk sees,
  and from there to the window's end everything is, so using a window either lands on the first instant with the whole
  budget behind it or leaves the books balanced at its end, and so does a day, and so do any number of days.
 */
module SlaBooks {
  import opened BusinessCalendar
  import opened SlaWalk

  // --- exact in zones that pass the schedule's edges once ---

  /** Readings up to the cursor's have passed by its instant, and later ones have not. */
  ghost predicate Placed(z: Zone, c: Cursor) {
    forall w :: PassesOnce(z, w) ==>
      (w <= c.local ==> z.toUtc(w) <= c.utc) && (c.local < w ==> c.utc <= z.toUtc(w))
  }

  lemma PlacedAtReading(z: Zone, w: int)
    requires PassesOnce(z, w)
    ensures Placed(z, Cursor(w, z.toUtc(w)))
  {
    forall v | PassesOnce(z, v)
      ensures (v <= w ==> z.toUtc(v) <= z.toUtc(w)) && (w < v ==> z.toUtc(w) <= z.toUtc(v))
    {
      if v <= w { PassesOnceMonotone(z, v, w); } else { PassesOnceMonotone(z, w, v); }
    }
  }

  /** The windows of days other than `d` lie wholly before or wholly after day `d`. */
  lemma OtherDay(z: Zone, s: Schedule, d: int, e: int, w: Window)
    requires Regular(z, s) && ValidSchedule(s) && w in WindowsOn(s, e)
    ensures e < d ==> z.toUtc(At(e, w.end)) <= z.toUtc(At(d, 0))
    ensures e > d ==> z.toUtc(At(d + 1, 0)) <= z.toUtc(At(e, w.start))
  {
    assert WithinDay(w);
    if e < d { PassesOnceMonotone(z, At(e, w.end), At(d, 0)); }
    if e > d { PassesOnceMonotone(z, At(d + 1, 0), At(e, w.start)); }
  }

  /** No window the walk sees covers an instant between the cursor and the window it enters next. */
  lemma NotCoveredYet(z: Zone, s: Schedule, c: Cursor, d: int, i: nat, u: int, e: int, k: nat)
    requires Regular(z, s) && ValidSchedule(s) && Placed(z, c)
    requires At(d, 0) <= c.local && i < |WindowsOn(s, d)|
    requires forall j :: 0 <= j < i ==> At(d, WindowsOn(s, d)[j].end) <= c.local
    requires c.utc <= u < z.toUtc(At(d, WindowsOn(s, d)[i].start))
    requires k < |WindowsOn(s, e)| && IsRecord(WindowsOn(s, e), k)
    ensures !Covers(z, e, WindowsOn(s, e)[k], u)
  {
    var w, wi := WindowsOn(s, e)[k], WindowsOn(s, d)[i];
    assert WithinDay(w) && WithinDay(wi);
    CoversBetween(z, e, w, u);
    if e < d {
      assert At(e, w.end) <= c.local;
    } else if e > d {
      PassesOnceMonotone(z, At(d, wi.start), At(e, w.start));
    } else if k > i {
      assert Disjoint(wi, w) && wi.end < w.end;
      PassesOnceMonotone(z, At(d, wi.start), At(d, w.start));
    }
  }

  /** Between the cursor and the next window it will use, nothing the walk sees is open. */
  lemma ClosedUpToWindow(z: Zone, s: Schedule, c: Cursor, d: int, i: nat, u: int)
    requires Regular(z, s) && ValidSchedule(s) && Placed(z, c)
    requires At(d, 0) <= c.local && i < |WindowsOn(s, d)|
    requires forall j :: 0 <= j < i ==> At(d, WindowsOn(s, d)[j].end) <= c.local
    requires c.utc <= u < z.toUtc(At(d, WindowsOn(s, d)[i].start))
    ensures !Open(z, Effective(s), u)
  {
    hide Regular, Placed, Covers, Effective;
    forall e, w | w in WindowsOn(Effective(s), e) ensures !Covers(z, e, w, u) {
      EffectiveMembers(s, e, w);
      var k :| 0 <= k < |WindowsOn(s, e)| && WindowsOn(s, e)[k] == w && IsRecord(WindowsOn(s, e), k);
      NotCoveredYet(z, s, c, d, i, u, e, k);
    }
  }

  /** After the last window of the day, nothing is open until midnight. */
  lemma ClosedUpToMidnight(z: Zone, s: Schedule, c: Cursor, d: int, u: int)
    requires Regular(z, s) && ValidSchedule(s) && Placed(z, c)
    requires At(d, 0) <= c.local
    requires forall w :: w in WindowsOn(s, d) ==> At(d, w.end) <= c.local
    requires c.utc <= u < z.toUtc(At(d + 1, 0))
    ensures !Open(z, Effective(s), u)
  {
    forall e, w | w in WindowsOn(Effective(s), e) ensures !Covers(z, e, w, u) {
      EffectiveMembers(s, e, w);
      CoversBetween(z, e, w, u);
      if e != d { OtherDay(z, s, d, e, w); }
    }
  }

  /** The rest of a record window is open. */
  lemma OpenInsideWindow(z: Zone, s: Schedule, d: int, i: nat, u: int)
    requires i < |WindowsOn(s, d)| && IsRecord(WindowsOn(s, d), i)
    requires Covers(z, d, WindowsOn(s, d)[i], u)
    ensures Open(z, Effective(s), u)
  {
    EffectiveMembers(s, d, WindowsOn(s, d)[i]);
  }

  ghost predicate Idle(z: Zone, s: Schedule, a: int, b: int) { forall u :: a <= u < b ==> !Open(z, s, u) }

  ghost predicate Busy(z: Zone, s: Schedule, a: int, b: int) { forall u :: a <= u < b ==> Open(z, s, u) }

  /** Open time accrued from `from`: idle up to `a`, then open up to `b`. */
  lemma Accrue(z: Zone, s: Schedule, from: int, c: int, a: int, b: int)
    requires from <= c <= a <= b
    requires Idle(z, s, c, a)
    requires Busy(z, s, a, b)
    ensures OpenTime(z, s, from, b) == OpenTime(z, s, from, c) + (b - a)
  {
    OpenTimeSplit(z, s, from, c, b);
    OpenTimeSplit(z, s, c, a, b);
    OpenTimeAllClosed(z, s, c, a);
    OpenTimeAllOpen(z, s, a, b);
  }

  /** Landing inside an open stretch is landing on the first instant that reaches the budget. */
  lemma Landing(z: Zone, s: Schedule, from: int, c: int, a: int, b: int, due: int, budget: int)
    requires from <= c <= a < due <= b
    requires Idle(z, s, c, a)
    requires Busy(z, s, a, b)
    requires OpenTime(z, s, from, c) + (due - a) == budget
    ensures IsDue(z, s, from, budget, due)
  {
    Accrue(z, s, from, c, a, due);
    forall x | from <= x < due ensures OpenTime(z, s, from, x) < budget {
      if x <= a {
        Accrue(z, s, from, c, a, a);
        OpenTimeSplit(z, s, from, x, a);
      } else {
        Accrue(z, s, from, c, a, x);
      }
    }
  }

  /** The walk's books: open time accrued up to the cursor, plus what remains, is the budget. */
  ghost predicate Balanced(z: Zone, s: Schedule, from: int, budget: int, c: Cursor, remaining: int) {
    && Placed(z, c) && from <= c.utc
    && remaining > 0
    && OpenTime(z, s, from, c.utc) + remaining == budget
  }

  /** `start` is where the walk enters window `i` of day `d` from cursor `c`, and `end` is the window's end. */
  ghost predicate Enters(z: Zone, s: Schedule, c: Cursor, d: int, i: nat, start: Cursor, end: Cursor) {
    && At(d, 0) <= c.local && i < |WindowsOn(s, d)|
    && (forall j :: 0 <= j < i ==> At(d, WindowsOn(s, d)[j].end) <= c.local)
    && var w := WindowsOn(s, d)[i];
    && c.local < At(d, w.end)
    && end == Cursor(At(d, w.end), z.toUtc(At(d, w.end)))
    && start == if At(d, w.start) > c.local then Cursor(At(d, w.start), z.toUtc(At(d, w.start))) else c
  }

  lemma EnteredWindow(z: Zone, s: Schedule, c: Cursor, d: int, i: nat, start: Cursor, end: Cursor)
    requires Regular(z, s) && ValidSchedule(s) && Placed(z, c) && Enters(z, s, c, d, i, start, end)
    ensures c.utc <= start.utc <= end.utc && Placed(z, end)
    ensures Idle(z, Effective(s), c.utc, start.utc)
    ensures Busy(z, Effective(s), start.utc, end.utc)
  {
    var w := WindowsOn(s, d)[i];
    assert WithinDay(w);
    PassesOnceMonotone(z, At(d, w.start), At(d, w.end));
    PlacedAtReading(z, end.local);
    forall u | c.utc <= u < start.utc ensures !Open(z, Effective(s), u) {
      ClosedUpToWindow(z, s, c, d, i, u);
    }
    forall u | start.utc <= u < end.utc ensures Open(z, Effective(s), u) {
      assert IsRecord(WindowsOn(s, d), i);
      CoversBetween(z, d, w, u);
      OpenInsideWindow(z, s, d, i, u);
    }
  }

  /** Either the walk lands inside the stretch it entered, or the whole stretch is charged. */
  lemma UseStretch(z: Zone, e: Schedule, from: int, budget: int, c: Cursor, remaining: int,
                   start: Cursor, end: Cursor)
    requires Balanced(z, e, from, budget, c, remaining)
    requires c.utc <= start.utc <= end.utc && Placed(z, end)
    requires Idle(z, e, c.utc, start.utc) && Busy(z, e, start.utc, end.utc)
    ensures remaining <= end.utc - start.utc ==>
              IsDue(z, e, from, budget, start.utc + remaining) && start.utc + remaining <= end.utc
    ensures remaining > end.utc - start.utc ==>
              Balanced(z, e, from, budget, end, remaining - (end.utc - start.utc))
  {
    if remaining <= end.utc - start.utc {
      Landing(z, e, from, c.utc, start.utc, end.utc, start.utc + remaining, budget);
    } else {
      Accrue(z, e, from, c.utc, start.utc, end.utc);
    }
  }

  /** Using window `i` of day `d` from a balanced cursor. */
  lemma UsedWindow(z: Zone, s: Schedule, from: int, budget: int, c: Cursor, remaining: int, d: int, i: nat,
                   start: Cursor, end: Cursor)
    requires Regular(z, s) && ValidSchedule(s) && Balanced(z, Effective(s), from, budget, c, remaining)
    requires Enters(z, s, c, d, i, start, end)
    ensures remaining <= end.utc - start.utc ==>
              IsDue(z, Effective(s), from, budget, start.utc + remaining) && start.utc + remaining <= end.utc
    ensures remaining > end.utc - start.utc ==>
              Balanced(z, Effective(s), from, budget, end, remaining - (end.utc - start.utc))
    ensures WithinDay(WindowsOn(s, d)[i])
  {
    hide Placed, Idle, Busy, IsDue, Regular, Effective;
    EnteredWindow(z, s, c, d, i, start, end);
    UseStretch(z, Effective(s), from, budget, c, remaining, start, end);
  }

  /** Moving on to the next midnight charges nothing. */
  lemma NextMidnight(z: Zone, s: Schedule, from: int, budget: int, c: Cursor, remaining: int, d: int)
    requires Regular(z, s) && ValidSchedule(s) && Balanced(z, Effective(s), from, budget, c, remaining)
    requires At(d, 0) <= c.local < At(d + 1, 0)
    requires forall i :: 0 <= i < |WindowsOn(s, d)| ==> At(d, WindowsOn(s, d)[i].end) <= c.local
    ensures Balanced(z, Effective(s), from, budget, Cursor(At(d + 1, 0), z.toUtc(At(d + 1, 0))), remaining)
  {
    var m := z.toUtc(At(d + 1, 0));
    assert PassesOnce(z, At(d + 1, 0));
    forall u | c.utc <= u < m ensures !Open(z, Effective(s), u) {
      ClosedUpToMidnight(z, s, c, d, u);
    }
    Accrue(z, Effective(s), from, c.utc, m, m);
    PlacedAtReading(z, At(d + 1, 0));
  }

  lemma EndWithinDay(z: Zone, s: Schedule, d: int, i: nat)
    requires Regular(z, s) && ValidSchedule(s) && i < |WindowsOn(s, d)|
    ensures WithinDay(WindowsOn(s, d)[i]) && z.toUtc(At(d, WindowsOn(s, d)[i].end)) <= z.toUtc(At(d + 1, 0))
  {
    assert WithinDay(WindowsOn(s, d)[i]);
    PassesOnceMonotone(z, At(d, WindowsOn(s, d)[i].end), At(d + 1, 0));
  }

  /** The walk has landed where the budget is due, no later than `till`, or its books are still balanced. */
  ghost predicate OnTrack(z: Zone, e: Schedule, from: int, budget: int, till: int, p: Progress) {
    match p
    case Landed(at) => IsDue(z, e, from, budget, at) && at <= till
    case Going(cursor, remaining) => Balanced(z, e, from, budget, cursor, remaining)
  }

  lemma WindowOnTrack(z: Zone, s: Schedule, from: int, budget: int, d: int, i: nat, p: Progress)
    requires Regular(z, s) && ValidSchedule(s) && i < |WindowsOn(s, d)|
    requires OnTrack(z, Effective(s), from, budget, z.toUtc(At(d + 1, 0)), p)
    requires p.Going? ==> At(d, 0) <= p.cursor.local < At(d + 1, 0)
    requires p.Going? ==> forall j :: 0 <= j < i ==> At(d, WindowsOn(s, d)[j].end) <= p.cursor.local
    ensures var q := UseWindow(z, d, WindowsOn(s, d)[i], p);
      && OnTrack(z, Effective(s), from, budget, z.toUtc(At(d + 1, 0)), q)
      && (q.Going? ==> At(d, 0) <= q.cursor.local < At(d + 1, 0))
  {
    var w := WindowsOn(s, d)[i];
    EndWithinDay(z, s, d, i);
    if p.Going? && p.cursor.local < At(d, w.end) {
      var start := if At(d, w.start) > p.cursor.local then AtReading(z, At(d, w.start)) else p.cursor;
      var end := AtReading(z, At(d, w.end));
      hide Regular, Effective, Balanced, IsDue;
      UsedWindow(z, s, from, budget, p.cursor, p.remaining, d, i, start, end);
    }
  }

  /** From balanced books, one day's windows land the walk on the due instant or leave the books balanced. */
  lemma {:induction false} DayOnTrack(z: Zone, s: Schedule, from: int, budget: int, d: int, p: Progress, n: nat)
    requires Regular(z, s) && ValidSchedule(s) && n <= |WindowsOn(s, d)|
    requires OnTrack(z, Effective(s), from, budget, z.toUtc(At(d + 1, 0)), p)
    requires p.Going? ==> At(d, 0) <= p.cursor.local < At(d + 1, 0)
    ensures OnTrack(z, Effective(s), from, budget, z.toUtc(At(d + 1, 0)), UseWindows(z, d, WindowsOn(s, d)[..n], p))
  {
    hide Regular, Effective, OnTrack, ValidSchedule;
    if n > 0 {
      DayOnTrack(z, s, from, budget, d, p, n - 1);
      var ws := WindowsOn(s, d);
      var q := UseWindows(z, d, ws[..n - 1], p);
      if p.Going? {
        EndsPassed(z, d, ws[..n - 1], p);
        StaysWhile(z, s, d, p, n - 1);
      } else {
        LandedStays(z, d, ws[..n - 1], p);
      }
      assert q.Going? ==> forall j :: 0 <= j < n - 1 ==> At(d, ws[j].end) <= q.cursor.local by {
        assert forall j :: 0 <= j < n - 1 ==> ws[..n - 1][j] == ws[j];
      }
      assert ws[..n][..n - 1] == ws[..n - 1];
      WindowOnTrack(z, s, from, budget, d, n - 1, q);
    }
  }

  lemma StartBalanced(z: Zone, e: Schedule, from: int, budget: int)
    requires budget > 0
    ensures Balanced(z, e, from, budget, Cursor(z.toLocal(from), from), budget)
  {
  }

  lemma {:induction false} DaysOnTrack(z: Zone, s: Schedule, from: int, budget: int, n: nat)
    requires Regular(z, s) && ValidSchedule(s) && budget > 0
    ensures var p, day := AfterDays(z, s, from, budget, n), DayOf(z.toLocal(from)) + n;
      && OnTrack(z, Effective(s), from, budget, z.toUtc(At(day, 0)), p)
      && (p.Going? ==> At(day, 0) <= p.cursor.local < At(day + 1, 0))
  {
    hide Effective, Balanced, IsDue, UseWindows;
    if n == 0 {
      StartBalanced(z, Effective(s), from, budget);
    } else {
      var d := DayOf(z.toLocal(from)) + n - 1;
      var p := AfterDays(z, s, from, budget, n - 1);
      DaysOnTrack(z, s, from, budget, n - 1);
      PassesOnceMonotone(z, At(d, 0), At(d + 1, 0));
      hide Regular;
      var ws := WindowsOn(s, d);
      DayOnTrack(z, s, from, budget, d, p, |ws|);
      assert ws[..|ws|] == ws;
      var q := UseWindows(z, d, ws, p);
      if q.Going? {
        if p.Going? {
          EndsPassed(z, d, ws, p);
          StaysInDay(z, s, d, p);
        } else {
          LandedStays(z, d, ws, p);
        }
        NextMidnight(z, s, from, budget, q.cursor, q.remaining, d);
      }
    }
  }

  lemma WalkEndsAtMidnight(z: Zone, s: Schedule, from: int, budget: int, n: nat)
    requires n > 0
    ensures var p := AfterDays(z, s, from, budget, n);
      p.Going? ==> p.cursor == AtReading(z, At(DayOf(z.toLocal(from)) + n, 0))
  {
  }
}
