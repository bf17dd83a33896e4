/**
  The accounting behind clock changes in business hours. In a zone with one offset change the walk charges each window
  the difference of two conversions to UTC, and conversions on either side of the change disagree. The ledger follows
  what has been charged in terms of the local clock: open readings passed, plus a correction once the walk has moved
  across the skipped or repeated stretch. It holds for every start, budget and schedule, and tells where a walk lands
  that is led over the stretch in one stride, and where one lands that stops at an edge inside it.
 */
module SlaLedger {
  import opened BusinessCalendar
  import opened SlaWalk
  import opened SlaBooks
  import SlaLaws
  import BusinessHours

  /** An offset change at UTC instant `t`. */
  datatype Change = Change(t: int, before: int, after: int)

  function ZoneOf(c: Change): Zone { OneTransition(c.t, c.before, c.after) }

  /** The skipped or repeated stretch of local time is `[Lo(c), Hi(c))`. */
  function Lo(c: Change): int { c.t + if c.before < c.after then c.before else c.after }

  function Hi(c: Change): int { c.t + if c.before < c.after then c.after else c.before }

  function Utc(c: Change, w: int): int { if w < Hi(c) then w - c.before else w - c.after }

  lemma UtcOf(c: Change, w: int)
    ensures ZoneOf(c).toUtc(w) == Utc(c, w)
  {
  }

  // --- open readings of the local clock ---

  const CLOCK: Zone := ConstantOffset(0)

  ghost predicate OpenAt(s: Schedule, r: int) { Open(CLOCK, s, r) }

  /** How many readings of `[a, b)` are open. */
  ghost function Readings(s: Schedule, a: int, b: int): nat { OpenTime(CLOCK, s, a, b) }

  lemma OpenByClock(z: Zone, s: Schedule, u: int)
    ensures Open(z, s, u) <==> OpenAt(s, z.toLocal(u))
  {
    forall d, w ensures Covers(z, d, w, u) <==> Covers(CLOCK, d, w, z.toLocal(u)) {}
    hide Covers;
  }

  /** While the offset stays the same, open time is the number of open readings. */
  lemma {:induction false} OpenTimeShift(z: Zone, s: Schedule, a: int, b: int, offset: int)
    requires forall u :: a <= u < b ==> z.toLocal(u) == u + offset
    ensures OpenTime(z, s, a, b) == Readings(s, a + offset, b + offset)
    decreases b - a
  {
    if a < b {
      OpenTimeShift(z, s, a, b - 1, offset);
      OpenByClock(z, s, b - 1);
      hide Open;
    }
  }

  lemma OpenTimeAcross(c: Change, s: Schedule, from: int, till: int)
    requires from <= c.t <= till
    ensures OpenTime(ZoneOf(c), s, from, till)
            == Readings(s, from + c.before, c.t + c.before) + Readings(s, c.t + c.after, till + c.after)
  {
    OpenTimeSplit(ZoneOf(c), s, from, c.t, till);
    OpenTimeShift(ZoneOf(c), s, from, c.t, c.before);
    OpenTimeShift(ZoneOf(c), s, c.t, till, c.after);
  }

  // --- what the walk charges ---

  /** What the walk charges too little or too much once it has passed an open end of the stretch. */
  ghost function Jump(c: Change, s: Schedule, first: int, r: int): int {
    if first < Hi(c) <= r && OpenAt(s, Hi(c) - 1) then c.before - c.after else 0
  }

  /** At reading `r` the walk, started at reading `first`, has charged the open readings and the jump. */
  ghost predicate Ledger(c: Change, s: Schedule, first: int, budget: int, r: int, remaining: int) {
    first <= r && remaining > 0 && remaining + Readings(s, first, r) + Jump(c, s, first, r) == budget
  }

  lemma LedgerIdle(c: Change, s: Schedule, first: int, budget: int, r: int, remaining: int, a: int)
    requires Ledger(c, s, first, budget, r, remaining) && r <= a && Idle(CLOCK, s, r, a)
    ensures Ledger(c, s, first, budget, a, remaining)
  {
    OpenTimeSplit(CLOCK, s, first, r, a);
    OpenTimeAllClosed(CLOCK, s, r, a);
    assert r < Hi(c) <= a ==> !OpenAt(s, Hi(c) - 1);
  }

  lemma LedgerBusy(c: Change, s: Schedule, first: int, budget: int, a: int, remaining: int, b: int)
    requires Ledger(c, s, first, budget, a, remaining) && a <= b && Busy(CLOCK, s, a, b)
    requires remaining > Utc(c, b) - Utc(c, a)
    ensures Ledger(c, s, first, budget, b, remaining - (Utc(c, b) - Utc(c, a)))
  {
    OpenTimeSplit(CLOCK, s, first, a, b);
    OpenTimeAllOpen(CLOCK, s, a, b);
    assert a < Hi(c) <= b ==> OpenAt(s, Hi(c) - 1);
  }

  ghost predicate Sound(s: Schedule) { ValidSchedule(s) && Ascending(s) }

  lemma SoundEffective(s: Schedule)
    requires Sound(s)
    ensures Effective(s) == s && Regular(CLOCK, s)
  {
    ConstantOffsetRegular(0, s);
    BusinessHours.EffectiveWellFormed(CLOCK, s);
  }

  /** The walk stands at a reading of its own zone, with balanced ledger. */
  ghost predicate Kept(c: Change, s: Schedule, first: int, budget: int, p: Progress) {
    p.Going? && p.cursor == AtReading(ZoneOf(c), p.cursor.local)
    && Ledger(c, s, first, budget, p.cursor.local, p.remaining)
  }

  /** The walk has landed in the open readings `[r, e)`. */
  ghost predicate LandedIn(c: Change, s: Schedule, first: int, budget: int, at: int, r: int, e: int) {
    && Ledger(c, s, first, budget, r, at - Utc(c, r))
    && r < e && at <= Utc(c, e) && Busy(CLOCK, s, r, e)
  }

  /** Between the cursor and the window it enters nothing is open, and from there the window is. */
  lemma Entered(s: Schedule, d: int, i: nat, r: int, a: int)
    requires Sound(s) && i < |WindowsOn(s, d)| && At(d, 0) <= r < At(d, WindowsOn(s, d)[i].end)
    requires forall j :: 0 <= j < i ==> At(d, WindowsOn(s, d)[j].end) <= r
    requires a == if At(d, WindowsOn(s, d)[i].start) > r then At(d, WindowsOn(s, d)[i].start) else r
    ensures Idle(CLOCK, s, r, a) && Busy(CLOCK, s, a, At(d, WindowsOn(s, d)[i].end))
  {
    SoundEffective(s);
    var e := At(d, WindowsOn(s, d)[i].end);
    assert Placed(CLOCK, Cursor(r, r));
    assert Enters(CLOCK, s, Cursor(r, r), d, i, Cursor(a, a), Cursor(e, e));
    hide Placed, Enters, Idle, Busy, Effective, Regular;
    EnteredWindow(CLOCK, s, Cursor(r, r), d, i, Cursor(a, a), Cursor(e, e));
  }

  lemma WindowKept(c: Change, s: Schedule, first: int, budget: int, d: int, i: nat, p: Progress) returns (r: int)
    requires Sound(s) && i < |WindowsOn(s, d)| && Kept(c, s, first, budget, p) && At(d, 0) <= p.cursor.local
    requires forall j :: 0 <= j < i ==> At(d, WindowsOn(s, d)[j].end) <= p.cursor.local
    ensures var q := UseWindow(ZoneOf(c), d, WindowsOn(s, d)[i], p);
      && (q.Going? ==> Kept(c, s, first, budget, q))
      && (q.Landed? ==> p.cursor.local <= r && LandedIn(c, s, first, budget, q.at, r, At(d, WindowsOn(s, d)[i].end)))
  {
    var w := WindowsOn(s, d)[i];
    var e := At(d, w.end);
    r := if At(d, w.start) > p.cursor.local then At(d, w.start) else p.cursor.local;
    if p.cursor.local < e {
      assert WithinDay(w);
      Entered(s, d, i, p.cursor.local, r);
      UtcOf(c, r);
      UtcOf(c, e);
      hide ZoneOf, Utc, Ledger, Idle, Busy, WindowsOn, Sound;
      LedgerIdle(c, s, first, budget, p.cursor.local, p.remaining, r);
      if p.remaining > Utc(c, e) - Utc(c, r) { LedgerBusy(c, s, first, budget, r, p.remaining, e); }
    }
  }

  lemma {:induction false} DayKept(c: Change, s: Schedule, first: int, budget: int, d: int, p: Progress, n: nat)
    returns (r: int, k: nat)
    requires Sound(s) && n <= |WindowsOn(s, d)| && Kept(c, s, first, budget, p)
    requires p.Going? && At(d, 0) <= p.cursor.local
    ensures var q := UseWindows(ZoneOf(c), d, WindowsOn(s, d)[..n], p);
      && (q.Going? ==> Kept(c, s, first, budget, q))
      && (q.Landed? ==> k < n && p.cursor.local <= r
                        && LandedIn(c, s, first, budget, q.at, r, At(d, WindowsOn(s, d)[k].end)))
  {
    hide Kept, LandedIn, ZoneOf, Sound, UseWindow, UseWindows, WindowsOn;
    var ws, z := WindowsOn(s, d), ZoneOf(c);
    r, k := 0, 0;
    if n == 0 {
      UseNone(z, d, ws, p);
    } else {
      r, k := DayKept(c, s, first, budget, d, p, n - 1);
      UseNext(z, d, ws, n - 1, p);
      var q := UseWindows(z, d, ws[..n - 1], p);
      if q.Going? {
        EndsPassed(z, d, ws[..n - 1], p);
        assert forall j :: 0 <= j < n - 1 ==> ws[..n - 1][j] == ws[j];
        r := WindowKept(c, s, first, budget, d, n - 1, q);
        k := n - 1;
      }
    }
  }

  lemma MidnightKept(c: Change, s: Schedule, first: int, budget: int, d: int, p: Progress)
    requires Sound(s) && Kept(c, s, first, budget, p) && At(d, 0) <= p.cursor.local < At(d + 1, 0)
    requires forall i :: 0 <= i < |WindowsOn(s, d)| ==> At(d, WindowsOn(s, d)[i].end) <= p.cursor.local
    ensures Kept(c, s, first, budget, NextDay(ZoneOf(c), d, p))
  {
    SoundEffective(s);
    var r, m := p.cursor.local, At(d + 1, 0);
    assert Placed(CLOCK, Cursor(r, r));
    forall u | r <= u < m ensures !Open(CLOCK, s, u) { ClosedUpToMidnight(CLOCK, s, Cursor(r, r), d, u); }
    LedgerIdle(c, s, first, budget, r, p.remaining, m);
  }

  /** The start reading `first`, on its first pass. */
  ghost predicate Starts(c: Change, from: int, first: int) {
    ZoneOf(c).toLocal(from) == first && from == Utc(c, first)
  }

  /** One whole day. */
  lemma WholeDayKept(c: Change, s: Schedule, first: int, budget: int, d: int, p: Progress) returns (r: int, e: int)
    requires Sound(s) && Kept(c, s, first, budget, p) && p.Going? && At(d, 0) <= p.cursor.local < At(d + 1, 0)
    ensures var q := NextDay(ZoneOf(c), d, UseWindows(ZoneOf(c), d, WindowsOn(s, d), p));
      && (q.Going? ==> Kept(c, s, first, budget, q) && q.cursor.local == At(d + 1, 0))
      && (q.Landed? ==> LandedIn(c, s, first, budget, q.at, r, e) && At(d, 0) <= r && e < At(d + 1, 0))
  {
    var z, ws := ZoneOf(c), WindowsOn(s, d);
    r, e := 0, 0;
    forall i | 0 <= i < |ws| ensures WithinDay(ws[i]) {}
    hide Kept, LandedIn, ZoneOf, Sound, UseWindow, UseWindows, WindowsOn;
    var k;
    r, k := DayKept(c, s, first, budget, d, p, |ws|);
    assert ws[..|ws|] == ws;
    var q := UseWindows(z, d, ws, p);
    if q.Going? {
      EndsPassed(z, d, ws, p);
      DayStays(z, s, d, p);
      MidnightKept(c, s, first, budget, d, q);
    } else {
      e := At(d, ws[k].end);
      assert WithinDay(ws[k]);
    }
  }

  lemma DayStays(z: Zone, s: Schedule, d: int, p: Progress)
    requires Sound(s) && p.Going? && At(d, 0) <= p.cursor.local < At(d + 1, 0)
    ensures var q := UseWindows(z, d, WindowsOn(s, d), p);
      q.Going? ==> At(d, 0) <= q.cursor.local < At(d + 1, 0)
  {
    hide UseWindows;
    StaysInDay(z, s, d, p);
  }

  lemma StartKept(c: Change, s: Schedule, from: int, first: int, budget: int)
    requires Starts(c, from, first) && budget > 0
    ensures ZoneOf(c).toLocal(from) == first
    ensures AfterDays(ZoneOf(c), s, from, budget, 0) == Going(Cursor(first, from), budget)
    ensures Kept(c, s, first, budget, Going(Cursor(first, from), budget))
  {
    UtcOf(c, first);
    assert Readings(s, first, first) == 0;
  }

  /** At the beginning of day `day` the ledger is kept, or the walk has landed on an earlier day. */
  ghost predicate DayBegins(c: Change, s: Schedule, first: int, budget: int, day: int, p: Progress, r: int, e: int) {
    && (p.Going? ==> Kept(c, s, first, budget, p) && At(day, 0) <= p.cursor.local < At(day + 1, 0))
    && (p.Landed? ==> LandedIn(c, s, first, budget, p.at, r, e) && e < At(DayOf(r) + 1, 0) && e < At(day, 0))
  }

  lemma NextDayBegins(c: Change, s: Schedule, first: int, budget: int, d: int, p: Progress, r0: int, e0: int)
    returns (r: int, e: int)
    requires Sound(s) && DayBegins(c, s, first, budget, d, p, r0, e0)
    ensures DayBegins(c, s, first, budget, d + 1,
                      NextDay(ZoneOf(c), d, UseWindows(ZoneOf(c), d, WindowsOn(s, d), p)), r, e)
  {
    hide Kept, LandedIn, ZoneOf, Sound, UseWindows, WindowsOn;
    var ws, z := WindowsOn(s, d), ZoneOf(c);
    r, e := r0, e0;
    if p.Going? {
      r, e := WholeDayKept(c, s, first, budget, d, p);
      var q := NextDay(z, d, UseWindows(z, d, ws, p));
      if q.Landed? { LandingDay(c, s, first, budget, q.at, r, e, d); }
    } else {
      LandedStays(z, d, ws, p);
    }
  }

  lemma FirstDayBegins(c: Change, s: Schedule, from: int, first: int, budget: int)
    requires Starts(c, from, first) && budget > 0
    ensures DayBegins(c, s, first, budget, DayOf(first), AfterDays(ZoneOf(c), s, from, budget, 0), 0, 0)
  {
    StartKept(c, s, from, first, budget);
    hide Kept, ZoneOf, Starts, AfterDays, LandedIn;
    DayBounds(first);
  }

  lemma StartsLocal(c: Change, from: int, first: int)
    requires Starts(c, from, first)
    ensures ZoneOf(c).toLocal(from) == first
  {
  }

  lemma AnotherDay(c: Change, s: Schedule, from: int, first: int, budget: int, n: nat, r0: int, e0: int)
    returns (r: int, e: int)
    requires Sound(s) && Starts(c, from, first)
    requires DayBegins(c, s, first, budget, DayOf(first) + n, AfterDays(ZoneOf(c), s, from, budget, n), r0, e0)
    ensures DayBegins(c, s, first, budget, DayOf(first) + n + 1, AfterDays(ZoneOf(c), s, from, budget, n + 1), r, e)
  {
    hide *;
    var d, z := DayOf(first) + n, ZoneOf(c);
    StartsLocal(c, from, first);
    DayStep(z, s, from, budget, n);
    r, e := NextDayBegins(c, s, first, budget, d, AfterDays(z, s, from, budget, n), r0, e0);
  }

  /** Every day of the walk keeps the ledger, or the walk has landed within a day. */
  lemma {:induction false} DaysKept(c: Change, s: Schedule, from: int, first: int, budget: int, n: nat)
    returns (r: int, e: int)
    requires Sound(s) && Starts(c, from, first) && budget > 0
    ensures DayBegins(c, s, first, budget, DayOf(first) + n, AfterDays(ZoneOf(c), s, from, budget, n), r, e)
  {
    hide *;
    if n == 0 {
      r, e := 0, 0;
      FirstDayBegins(c, s, from, first, budget);
    } else {
      r, e := DaysKept(c, s, from, first, budget, n - 1);
      r, e := AnotherDay(c, s, from, first, budget, n - 1, r, e);
    }
  }

  lemma LandingDay(c: Change, s: Schedule, first: int, budget: int, at: int, r: int, e: int, d: int)
    requires LandedIn(c, s, first, budget, at, r, e) && At(d, 0) <= r && e < At(d + 1, 0)
    ensures e < At(DayOf(r) + 1, 0)
  {
  }

  // --- a stretch that is neither open nor closed throughout ---

  lemma MixedReadings(s: Schedule, a: int, b: int, open: int, closed: int)
    requires a <= open < b && OpenAt(s, open) && a <= closed < b && !OpenAt(s, closed)
    ensures 0 < Readings(s, a, b) < b - a
  {
    SplitAt(s, a, open, b);
    SplitAt(s, a, closed, b);
    OpenTimeAtMost(CLOCK, s, a, closed);
    OpenTimeAtMost(CLOCK, s, closed + 1, b);
  }

  lemma SplitAt(s: Schedule, a: int, r: int, b: int)
    requires a <= r < b
    ensures Readings(s, a, b) == Readings(s, a, r) + (if OpenAt(s, r) then 1 else 0) + Readings(s, r + 1, b)
  {
    OpenTimeSplit(CLOCK, s, a, r, b);
    OpenTimeSplit(CLOCK, s, r, r + 1, b);
    assert Readings(s, r, r) == 0;
  }

  /** The day that holds the stretch. */
  function DayOfChange(c: Change): int { DayOf(Lo(c)) }

  lemma StretchInDay(c: Change)
    requires RegularMidnights(ZoneOf(c)) && Lo(c) < Hi(c)
    ensures At(DayOfChange(c), 0) <= Lo(c) < Hi(c) <= At(DayOfChange(c) + 1, 0)
  {
    assert PassesOnce(ZoneOf(c), At(DayOfChange(c) + 1, 0));
    OneTransitionPassesOnce(c.t, c.before, c.after, At(DayOfChange(c) + 1, 0));
  }

  /** Where to start: at the last reading before a skipped stretch, or at the first of a repeated one. */
  function FirstReading(c: Change): int { if c.before < c.after then Lo(c) - 1 else Lo(c) }

  lemma StartsThere(c: Change)
    requires Lo(c) < Hi(c)
    ensures Starts(c, FirstReading(c) - c.before, FirstReading(c))
    ensures FirstReading(c) < Hi(c) && FirstReading(c) - c.before <= c.t
  {
  }

  /** The open time up to an instant past the change, reading by reading. */
  lemma OpenTimePast(c: Change, s: Schedule, r: int, rest: int)
    requires Lo(c) < Hi(c) <= r && 0 <= rest && Busy(CLOCK, s, r, r + rest)
    ensures OpenTime(ZoneOf(c), s, FirstReading(c) - c.before, r + rest - c.after)
            == Readings(s, FirstReading(c), c.t + c.before) + Readings(s, c.t + c.after, r) + rest
  {
    StartsThere(c);
    OpenTimeAcross(c, s, FirstReading(c) - c.before, r + rest - c.after);
    OpenTimeSplit(CLOCK, s, c.t + c.after, r, r + rest);
    OpenTimeAllOpen(CLOCK, s, r, r + rest);
  }

  /** The same readings in the order in which the walk charges them. */
  lemma ReadingsPast(c: Change, s: Schedule, r: int)
    requires Lo(c) < Hi(c) <= r
    ensures Readings(s, FirstReading(c), r)
            == Readings(s, FirstReading(c), Lo(c)) + Readings(s, Lo(c), Hi(c)) + Readings(s, Hi(c), r)
    ensures Readings(s, Lo(c), r) == Readings(s, Lo(c), Hi(c)) + Readings(s, Hi(c), r)
    ensures Readings(s, Lo(c), Lo(c)) == 0
  {
    OpenTimeSplit(CLOCK, s, FirstReading(c), Lo(c), r);
    OpenTimeSplit(CLOCK, s, Lo(c), Hi(c), r);
  }

  /** A landing past the stretch is right only if the charges there were. */
  lemma LandingPast(c: Change, s: Schedule, budget: int, at: int, r: int, e: int)
    requires Lo(c) < Hi(c) <= r
    requires LandedIn(c, s, FirstReading(c), budget, at, r, e)
    requires OpenTime(ZoneOf(c), s, FirstReading(c) - c.before, at) == budget
    ensures Readings(s, Lo(c), Hi(c)) == if OpenAt(s, Hi(c) - 1) then Hi(c) - Lo(c) else 0
  {
    var rest := at - Utc(c, r);
    BusyPart(s, r, e, r + rest);
    hide Busy, Readings, OpenAt, OpenTime, ZoneOf;
    OpenTimePast(c, s, r, rest);
    ReadingsPast(c, s, r);
  }

  lemma BusyPart(s: Schedule, a: int, b: int, x: int)
    requires Busy(CLOCK, s, a, b) && x <= b
    ensures Busy(CLOCK, s, a, x)
  {
  }

  /** A landing before the end of the stretch comes before the next week begins. */
  lemma LandingBefore(c: Change, s: Schedule, first: int, budget: int, at: int, r: int, e: int)
    requires RegularMidnights(ZoneOf(c)) && Lo(c) < Hi(c) && r < Hi(c)
    requires LandedIn(c, s, first, budget, at, r, e) && e < At(DayOf(r) + 1, 0)
    ensures at <= Utc(c, At(DayOfChange(c) + 7, 0))
  {
    StretchInDay(c);
  }

  lemma {:induction false} OpenInstantCounts(z: Zone, s: Schedule, a: int, u: int, b: int)
    requires a <= u < b && Open(z, s, u)
    ensures OpenTime(z, s, a, b) > 0
  {
    OpenTimeSplit(z, s, a, u, b);
    OpenTimeSplit(z, s, u, u + 1, b);
  }

  /** Days within which a mistake at the change shows: one before it, and the week after it. */
  const SPAN_DAYS: nat := 9

  /** The midnight that ends them. */
  function SpanEnd(c: Change): int { Utc(c, At(DayOf(FirstReading(c)) + SPAN_DAYS, 0)) }

  /** The week after the stretch lies past the change and within the span. */
  lemma NextWeekBounds(c: Change, tod: int)
    requires RegularMidnights(ZoneOf(c)) && Lo(c) < Hi(c) && 0 <= tod < 86_400_000_000
    ensures var next, u := At(DayOfChange(c) + 7, 0), At(DayOfChange(c) + 7, tod) - c.after;
      && FirstReading(c) - c.before <= Utc(c, next) <= u < SpanEnd(c)
      && ZoneOf(c).toLocal(u) == At(DayOfChange(c) + 7, tod)
  {
    StretchInDay(c);
    StartsThere(c);
    hide RegularMidnights;
    assert DayOf(FirstReading(c)) >= DayOfChange(c) - 1;
  }

  lemma OpensAgain(s: Schedule, r: int, day: int) returns (w: Window)
    requires Sound(s) && OpenAt(s, r) && At(day, 0) <= r < At(day + 1, 0)
    ensures w in WindowsOn(s, day + 7) && WithinDay(w)
  {
    var k := OpenOnDay(s, r, day);
    w := WindowsOn(s, day)[k];
  }

  lemma OpenAtStart(z: Zone, s: Schedule, d: int, w: Window, u: int)
    requires w in WindowsOn(s, d) && w.start < w.end && z.toLocal(u) == At(d, w.start)
    ensures Open(z, s, u)
  {
    assert Covers(z, d, w, u);
  }

  /** A week later the organization is open again, within the span. */
  lemma OpenNextWeek(c: Change, s: Schedule, r: int, from: int)
    requires RegularMidnights(ZoneOf(c)) && Lo(c) <= r < Hi(c) && Sound(s) && OpenAt(s, r)
    requires from == FirstReading(c) - c.before
    ensures from <= Utc(c, At(DayOfChange(c) + 7, 0)) <= SpanEnd(c)
    ensures OpenTime(ZoneOf(c), s, Utc(c, At(DayOfChange(c) + 7, 0)), SpanEnd(c)) > 0
  {
    hide RegularMidnights, ZoneOf, Sound, OpenAt, DayOfChange, Lo, Hi, FirstReading, Utc, SpanEnd, OpenTime,
         WindowsOn, At;
    var z, day := ZoneOf(c), DayOfChange(c);
    StretchInDay(c);
    var w := OpensAgain(s, r, day);
    NextWeekBounds(c, w.start);
    var u := At(day + 7, w.start) - c.after;
    OpenAtStart(z, s, day + 7, w, u);
    OpenInstantCounts(z, s, Utc(c, At(day + 7, 0)), u, SpanEnd(c));
  }

  /** No landing is right for one microsecond more than the open time up to the next week. */
  lemma LandingWrong(c: Change, s: Schedule, open: int, closed: int, budget: int, at: int, r: int, e: int)
    requires RegularMidnights(ZoneOf(c)) && Lo(c) < Hi(c)
    requires Lo(c) <= open < Hi(c) && OpenAt(s, open) && Lo(c) <= closed < Hi(c) && !OpenAt(s, closed)
    requires LandedIn(c, s, FirstReading(c), budget, at, r, e) && e < At(DayOf(r) + 1, 0)
    requires FirstReading(c) - c.before <= Utc(c, At(DayOfChange(c) + 7, 0))
    requires budget == OpenTime(ZoneOf(c), s, FirstReading(c) - c.before, Utc(c, At(DayOfChange(c) + 7, 0))) + 1
    ensures !IsDue(ZoneOf(c), s, FirstReading(c) - c.before, budget, at)
  {
    var z, from, next := ZoneOf(c), FirstReading(c) - c.before, Utc(c, At(DayOfChange(c) + 7, 0));
    hide RegularMidnights, ZoneOf, LandedIn, OpenAt, Readings, OpenTime, DayOfChange, Lo, Hi, FirstReading,
         Utc, At, DayOf;
    if IsDue(z, s, from, budget, at) {
      if r < Hi(c) {
        LandingBefore(c, s, FirstReading(c), budget, at, r, e);
        SlaLaws.OpenTimeMonotone(z, s, from, at, next);
      } else {
        LandingPast(c, s, budget, at, r, e);
        MixedReadings(s, Lo(c), Hi(c), open, closed);
      }
    }
  }

  // --- a skipped stretch that is open throughout, with an edge inside ---

  ghost predicate IsEdge(s: Schedule, m: int) {
    exists d, w :: w in WindowsOn(s, d) && (m == At(d, w.start) || m == At(d, w.end))
  }

  /** How far the organization must stay open for an edge at `m` inside the stretch to do no harm. */
  function Reach(c: Change, m: int): int { if c.before < c.after then m + (Hi(c) - Lo(c)) else Hi(c) }

  /**
    Every edge strictly inside the stretch lies between abutting windows that are open throughout the stretch and, if
    the stretch is skipped, for as long after it as the edge lies into it.
   */
  ghost predicate Safe(c: Change, s: Schedule) {
    forall m, r :: IsEdge(s, m) && Lo(c) < m < Hi(c) && Lo(c) <= r < Reach(c, m) ==> OpenAt(s, r)
  }

  ghost predicate AllSafe(cs: seq<Change>, s: Schedule) { forall k :: 0 <= k < |cs| ==> Safe(cs[k], s) }

  /** An edge strictly inside the stretch has an open reading of the stretch next to it. */
  lemma OpenBesideEdge(c: Change, s: Schedule, m: int) returns (r: int)
    requires Sound(s) && IsEdge(s, m) && Lo(c) < m < Hi(c)
    ensures Lo(c) <= r < Hi(c) && OpenAt(s, r)
  {
    var d, w :| w in WindowsOn(s, d) && (m == At(d, w.start) || m == At(d, w.end));
    assert WithinDay(w);
    r := if m == At(d, w.start) then m else m - 1;
    assert Covers(CLOCK, d, w, r);
  }

  lemma OnDay(s: Schedule, d: int, w: Window, r: int, day: int)
    requires Sound(s) && w in WindowsOn(s, d) && At(d, w.start) <= r <= At(d, w.end)
    requires At(day, 0) <= r < At(day + 1, 0)
    ensures d == day
  {
    assert WithinDay(w);
  }

  /** A window that is open just before another one starts ends there. */
  lemma MeetsStart(ws: seq<Window>, i: nat, k: nat, x: int)
    requires ValidDay(ws) && AscendingDay(ws) && i < |ws| && k < |ws|
    requires ws[i].start == x && ws[k].start <= x - 1 < ws[k].end
    ensures ws[k].end == x
  {
    assert WithinDay(ws[i]);
  }

  lemma EdgeOnDay(s: Schedule, m: int, day: int) returns (i: nat)
    requires Sound(s) && IsEdge(s, m) && At(day, 0) < m < At(day + 1, 0)
    ensures i < |WindowsOn(s, day)|
    ensures m == At(day, WindowsOn(s, day)[i].start) || m == At(day, WindowsOn(s, day)[i].end)
  {
    var d, w :| w in WindowsOn(s, d) && (m == At(d, w.start) || m == At(d, w.end));
    assert WithinDay(w);
    OnDay(s, d, w, m, day);
    i :| 0 <= i < |WindowsOn(s, d)| && WindowsOn(s, d)[i] == w;
  }

  lemma OpenOnDay(s: Schedule, r: int, day: int) returns (k: nat)
    requires Sound(s) && OpenAt(s, r) && At(day, 0) <= r < At(day + 1, 0)
    ensures k < |WindowsOn(s, day)| && At(day, WindowsOn(s, day)[k].start) <= r < At(day, WindowsOn(s, day)[k].end)
  {
    var d, v :| v in WindowsOn(s, d) && Covers(CLOCK, d, v, r);
    OnDay(s, d, v, r, day);
    k :| 0 <= k < |WindowsOn(s, d)| && WindowsOn(s, d)[k] == v;
  }

  /** An edge with an open reading before it is the end of a window, one of the day the reading is in. */
  lemma EndsAtEdge(s: Schedule, m: int, day: int) returns (k: nat)
    requires Sound(s) && IsEdge(s, m) && OpenAt(s, m - 1) && At(day, 0) < m < At(day + 1, 0)
    ensures k < |WindowsOn(s, day)| && At(day, WindowsOn(s, day)[k].end) == m
  {
    var ws := WindowsOn(s, day);
    assert ValidDay(ws) && AscendingDay(ws);
    hide ValidDay, AscendingDay, Sound, WindowsOn, IsEdge, OpenAt;
    k := EdgeOnDay(s, m, day);
    if m != At(day, ws[k].end) {
      var i := k;
      k := OpenOnDay(s, m - 1, day);
      MeetsStart(ws, i, k, ws[i].start);
    }
  }

  /** The first closed reading from `a` on. */
  lemma {:induction false} FirstClosed(s: Schedule, a: int, r: int) returns (x: int)
    requires a <= r && !OpenAt(s, r)
    ensures a <= x <= r && !OpenAt(s, x) && Busy(CLOCK, s, a, x)
    decreases r - a
  {
    if !OpenAt(s, a) {
      x := a;
    } else {
      x := FirstClosed(s, a + 1, r);
    }
  }

  /** Inside an open stretch the ledger depends on the reading alone. */
  lemma LedgerInside(c: Change, s: Schedule, budget: int, r: int, remaining: int)
    requires c.before < c.after && Busy(CLOCK, s, Lo(c), Hi(c)) && Lo(c) <= r < Hi(c)
    requires Ledger(c, s, Lo(c) - 1, budget, r, remaining)
    ensures remaining == budget - Readings(s, Lo(c) - 1, Lo(c)) - (r - Lo(c))
  {
    OpenTimeSplit(CLOCK, s, Lo(c) - 1, Lo(c), r);
    OpenTimeAllOpen(CLOCK, s, Lo(c), r);
  }

  /** Wherever the walk lands inside the stretch, it is at the same instant. */
  lemma LandingInside(c: Change, s: Schedule, x: int, budget: int, at: int, r: int, e: int)
    requires c.before < c.after && Busy(CLOCK, s, Lo(c), Hi(c)) && r < Hi(c) <= x
    requires budget == Readings(s, Lo(c) - 1, Lo(c)) + (x - Hi(c)) + 1
    requires LandedIn(c, s, Lo(c) - 1, budget, at, r, e)
    ensures at == Utc(c, x) + 1
  {
    if Lo(c) <= r {
      LedgerInside(c, s, budget, r, at - Utc(c, r));
    } else {
      assert OpenAt(s, r);
      SplitAt(s, r, r, Lo(c));
    }
  }

  lemma StandsAt(c: Change, s: Schedule, budget: int, day: int, k: nat, p: Progress)
    requires Sound(s) && k < |WindowsOn(s, day)| && p.Going? && p.cursor.local < At(day, WindowsOn(s, day)[k].end)
    ensures var q := UseWindows(ZoneOf(c), day, WindowsOn(s, day)[..k + 1], p);
      q.Going? ==> q.cursor.local == At(day, WindowsOn(s, day)[k].end)
  {
    var ws := WindowsOn(s, day);
    AscendingEnds(s, day, k);
    hide Sound, WindowsOn, UseWindows;
    EndsPassed(ZoneOf(c), day, ws[..k + 1], p);
    StandsAtEnd(ZoneOf(c), day, ws[..k + 1], p);
    assert forall i :: 0 <= i <= k ==> ws[..k + 1][i] == ws[i];
    assert ws[..k + 1][k] == ws[k];
  }

  /** Past the edge nothing would remain to be charged. */
  lemma NotPastEdge(c: Change, s: Schedule, m: int, x: int, budget: int, p: Progress)
    requires c.before < c.after && Busy(CLOCK, s, Lo(c), Hi(c))
    requires Lo(c) < m < Hi(c) <= x < m + (Hi(c) - Lo(c))
    requires budget == Readings(s, Lo(c) - 1, Lo(c)) + (x - Hi(c)) + 1
    requires p.Going? && p.cursor.local == m
    ensures !Kept(c, s, Lo(c) - 1, budget, p)
  {
    if Kept(c, s, Lo(c) - 1, budget, p) { LedgerInside(c, s, budget, m, p.remaining); }
  }

  /** The windows up to the one that ends at `m` are enough. */
  lemma LandsByEdge(c: Change, s: Schedule, m: int, x: int, budget: int, day: int, k: nat, p: Progress)
    requires Sound(s) && c.before < c.after && Busy(CLOCK, s, Lo(c), Hi(c))
    requires Lo(c) < m < Hi(c) <= x < m + (Hi(c) - Lo(c))
    requires budget == Readings(s, Lo(c) - 1, Lo(c)) + (x - Hi(c)) + 1
    requires k < |WindowsOn(s, day)| && At(day, WindowsOn(s, day)[k].end) == m
    requires Kept(c, s, Lo(c) - 1, budget, p) && p.Going? && At(day, 0) <= p.cursor.local <= Lo(c)
    ensures UseWindows(ZoneOf(c), day, WindowsOn(s, day), p) == Landed(Utc(c, x) + 1)
  {
    hide *;
    var z, ws := ZoneOf(c), WindowsOn(s, day);
    StandsAt(c, s, budget, day, k, p);
    var r, i := DayKept(c, s, Lo(c) - 1, budget, day, p, k + 1);
    var q := UseWindows(z, day, ws[..k + 1], p);
    if q.Going? {
      NotPastEdge(c, s, m, x, budget, q);
    } else {
      EndsBy(s, day, i, k);
      LandedBeforeEnd(c, s, Lo(c) - 1, budget, q.at, r, At(day, ws[i].end));
      LandingInside(c, s, x, budget, q.at, r, At(day, ws[i].end));
      LandedFrom(z, day, ws, k + 1, p);
    }
  }

  lemma EndsBy(s: Schedule, day: int, i: nat, k: nat)
    requires Sound(s) && i <= k < |WindowsOn(s, day)|
    ensures At(day, WindowsOn(s, day)[i].end) <= At(day, WindowsOn(s, day)[k].end)
  {
    AscendingEnds(s, day, k);
  }

  lemma LandedBeforeEnd(c: Change, s: Schedule, first: int, budget: int, at: int, r: int, e: int)
    requires LandedIn(c, s, first, budget, at, r, e)
    ensures first <= r < e
  {
  }

  lemma AscendingEnds(s: Schedule, day: int, k: nat)
    requires Sound(s) && k < |WindowsOn(s, day)|
    ensures forall i :: 0 <= i <= k ==> WindowsOn(s, day)[i].end <= WindowsOn(s, day)[k].end
  {
    var ws := WindowsOn(s, day);
    forall i | 0 <= i <= k ensures ws[i].end <= ws[k].end {
      assert WithinDay(ws[k]);
      if i < k { assert ws[i].end <= ws[k].start; }
    }
  }

  /** Days from the reading before the stretch to the day of the stretch: one if that begins at midnight, or none. */
  function DaysBefore(c: Change): nat { if At(DayOfChange(c), 0) == Lo(c) then 1 else 0 }

  lemma StretchBegins(c: Change)
    requires RegularMidnights(ZoneOf(c)) && c.before < c.after
    ensures At(DayOfChange(c), 0) <= Lo(c) < Hi(c)
  {
    StretchInDay(c);
  }

  lemma DayBefore(c: Change)
    ensures DayOf(Lo(c) - 1) + DaysBefore(c) == DayOfChange(c)
    ensures DaysBefore(c) == 0 ==> At(DayOfChange(c), 0) < Lo(c)
    ensures DaysBefore(c) != 0 ==> DaysBefore(c) == 1 && At(DayOfChange(c), 0) == Lo(c)
  {
    DayBounds(Lo(c));
    SameDay(DayOfChange(c) - DaysBefore(c), Lo(c) - 1);
  }

  lemma StartsBefore(c: Change)
    requires c.before < c.after
    ensures Starts(c, c.t - 1, Lo(c) - 1)
  {
  }

  /** A walk cannot have landed before the day of its start reading, or of the next one. */
  lemma NotLandedYet(c: Change, s: Schedule, first: int, budget: int, day: int, p: Progress, r: int, e: int)
    requires DayBegins(c, s, first, budget, day, p, r, e) && At(day, 0) <= first + 1
    ensures p.Going? && Kept(c, s, first, budget, p) && At(day, 0) <= p.cursor.local
  {
    if p.Landed? { LandedBeforeEnd(c, s, first, budget, p.at, r, e); }
  }

  /** The day of the stretch begins with the walk at its first reading or before. */
  lemma BeginsBeforeStretch(c: Change, s: Schedule, budget: int)
    requires RegularMidnights(ZoneOf(c)) && Sound(s) && c.before < c.after && budget > 0
    ensures var p := AfterDays(ZoneOf(c), s, c.t - 1, budget, DaysBefore(c));
      && p.Going? && Kept(c, s, Lo(c) - 1, budget, p) && At(DayOfChange(c), 0) <= p.cursor.local <= Lo(c)
  {
    hide *;
    var z, n, day := ZoneOf(c), DaysBefore(c), DayOfChange(c);
    StretchBegins(c);
    DayBefore(c);
    StartsBefore(c);
    StartKept(c, s, c.t - 1, Lo(c) - 1, budget);
    var r, e := DaysKept(c, s, c.t - 1, Lo(c) - 1, budget, n);
    NotLandedYet(c, s, Lo(c) - 1, budget, day, AfterDays(z, s, c.t - 1, budget, n), r, e);
    if n == 1 {
      WalkEndsAtMidnight(z, s, c.t - 1, budget, 1);
      ReadingOf(z, At(day, 0));
    }
  }

  lemma ReadingOf(z: Zone, w: int)
    ensures AtReading(z, w).local == w
  {
  }

  /** On the day of the stretch the walk lands, before the budget is due. */
  lemma LandsOnDay(c: Change, s: Schedule, m: int, x: int, budget: int)
    requires RegularMidnights(ZoneOf(c)) && Sound(s) && c.before < c.after && Busy(CLOCK, s, Lo(c), Hi(c))
    requires IsEdge(s, m) && OpenAt(s, m - 1) && Lo(c) < m < Hi(c) <= x < m + (Hi(c) - Lo(c))
    requires budget == Readings(s, Lo(c) - 1, Lo(c)) + (x - Hi(c)) + 1
    ensures AfterDays(ZoneOf(c), s, c.t - 1, budget, DaysBefore(c) + 1) == Landed(Utc(c, x) + 1)
  {
    hide *;
    var z, day, n := ZoneOf(c), DayOfChange(c), DaysBefore(c);
    StretchInDay(c);
    DayBefore(c);
    var k := EndsAtEdge(s, m, day);
    BeginsBeforeStretch(c, s, budget);
    LandsByEdge(c, s, m, x, budget, day, k, AfterDays(z, s, c.t - 1, budget, n));
    StartsBefore(c);
    StartKept(c, s, c.t - 1, Lo(c) - 1, budget);
    DayStep(z, s, c.t - 1, budget, n);
    NextDayLanded(z, day, Utc(c, x) + 1);
  }

  lemma BusyAt(s: Schedule, a: int, b: int, r: int)
    requires Busy(CLOCK, s, a, b) && a <= r < b
    ensures OpenAt(s, r)
  {
  }

  lemma NextDayLanded(z: Zone, d: int, at: int)
    ensures NextDay(z, d, Landed(at)) == Landed(at)
  {
  }

  lemma ShortNotDue(z: Zone, s: Schedule, from: int, budget: int, at: int)
    requires OpenTime(z, s, from, at) < budget
    ensures !IsDue(z, s, from, budget, at)
  {
  }

  lemma OneShort(c: Change, s: Schedule, x: int)
    requires c.before < c.after && Hi(c) <= x && Busy(CLOCK, s, Hi(c), x) && !OpenAt(s, x)
    ensures OpenTime(ZoneOf(c), s, c.t - 1, Utc(c, x) + 1) == Readings(s, Lo(c) - 1, Lo(c)) + (x - Hi(c))
  {
    OpenTimeAcross(c, s, c.t - 1, Utc(c, x) + 1);
    SplitAt(s, Hi(c), x, x + 1);
    OpenTimeAllOpen(CLOCK, s, Hi(c), x);
  }
}
