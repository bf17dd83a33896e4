/**
  Zones with any finite number of offset changes. Around each change, from the end of the stretch before it to the end
  of the stretch after it, the zone is the one-change zone of that change, so what the walk does there carries over: as
  many days as lie between the changes are walked alike, and as much time is open. A reading outside every stretch is
  passed once, an instant that a reading is taken for never shows an earlier one, and a walk that has gone on beyond a
  midnight never lands before it. What goes wrong at an edge that is not harmless goes wrong in those days.
 */
module SlaTimeline {
  import opened BusinessCalendar
  import opened SlaWalk
  import opened SlaBooks
  import opened SlaLedger

  /** Each change starts from the offset that the one before it has left, and comes ten days later or more. */
  ghost predicate Timeline(cs: seq<Change>) {
    && cs != []
    && (forall k :: 0 <= k < |cs| ==> RegularMidnights(ZoneOf(cs[k])))
    && (forall k :: 0 < k < |cs| ==> cs[k - 1].after == cs[k].before && Hi(cs[k - 1]) + At(10, 0) <= Lo(cs[k]))
  }

  function LocalAt(cs: seq<Change>, u: int): int
    requires cs != []
  {
    var n := |cs| - 1;
    if cs[n].t <= u then u + cs[n].after else if n == 0 then u + cs[0].before else LocalAt(cs[..n], u)
  }

  /** A skipped reading takes the offset before the change, and a repeated one its first occurrence. */
  function UtcAt(cs: seq<Change>, w: int): int
    requires cs != []
  {
    var n := |cs| - 1;
    if Hi(cs[n]) <= w then w - cs[n].after else if n == 0 then w - cs[0].before else UtcAt(cs[..n], w)
  }

  function Zoned(cs: seq<Change>): Zone
    requires cs != []
  {
    Zone((w: int) => UtcAt(cs, w), (u: int) => LocalAt(cs, u))
  }

  // --- around one change ---

  lemma TimelinePrefix(cs: seq<Change>)
    requires Timeline(cs) && |cs| > 1
    ensures Timeline(cs[..|cs| - 1]) && cs[|cs| - 2].t < cs[|cs| - 1].t
  {
    var n := |cs| - 1;
    assert forall k :: 0 <= k < n ==> cs[..n][k] == cs[k];
  }

  /** Stretches and changes come in order. */
  lemma {:induction false} InSequence(cs: seq<Change>, j: nat, k: nat)
    requires Timeline(cs) && j < k < |cs|
    ensures cs[j].t < cs[k].t && Hi(cs[j]) + At(10, 0) <= Lo(cs[k]) <= Hi(cs[k])
  {
    if j < k - 1 { InSequence(cs, j, k - 1); }
  }

  /** Readings after the stretch before change `k`, up to the end of the stretch after it. */
  predicate NearReading(cs: seq<Change>, k: nat, w: int)
    requires k < |cs|
  {
    (k > 0 ==> Hi(cs[k - 1]) <= w) && (k + 1 < |cs| ==> w < Hi(cs[k + 1]))
  }

  predicate NearInstant(cs: seq<Change>, k: nat, u: int)
    requires k < |cs|
  {
    (k > 0 ==> cs[k - 1].t <= u) && (k + 1 < |cs| ==> u < cs[k + 1].t)
  }

  lemma Linked(cs: seq<Change>, k: nat)
    requires Timeline(cs) && 0 < k < |cs|
    ensures cs[k - 1].after == cs[k].before
  {
  }

  lemma {:induction false} NearUtc(cs: seq<Change>, k: nat, w: int)
    requires Timeline(cs) && k < |cs| && NearReading(cs, k, w)
    ensures UtcAt(cs, w) == Utc(cs[k], w)
    decreases |cs|
  {
    hide Timeline, Lo, Hi;
    var n := |cs| - 1;
    if k < n {
      TimelinePrefix(cs);
      if k + 1 < n { InSequence(cs, k + 1, n); }
      NearUtc(cs[..n], k, w);
    } else if n > 0 {
      Linked(cs, n);
      assert cs[..n][n - 1] == cs[n - 1];
    }
  }

  lemma {:induction false} NearLocal(cs: seq<Change>, k: nat, u: int)
    requires Timeline(cs) && k < |cs| && NearInstant(cs, k, u)
    ensures LocalAt(cs, u) == ZoneOf(cs[k]).toLocal(u)
    decreases |cs|
  {
    hide Timeline, Lo, Hi;
    var n := |cs| - 1;
    if k < n {
      TimelinePrefix(cs);
      if k + 1 < n { InSequence(cs, k + 1, n); }
      NearLocal(cs[..n], k, u);
    } else if n > 0 {
      Linked(cs, n);
      assert cs[..n][n - 1] == cs[n - 1];
    }
  }

  /** Every reading, with the day before it, is near some change. */
  lemma {:induction false} Locate(cs: seq<Change>, w: int) returns (k: nat)
    requires Timeline(cs)
    ensures k < |cs| && forall v :: w - At(1, 0) <= v <= w ==> NearReading(cs, k, v)
    decreases |cs|
  {
    assert cs != [];
    hide Timeline, Lo, Hi;
    var n := |cs| - 1;
    if n == 0 {
      k := 0;
    } else if Hi(cs[n]) <= w {
      InSequence(cs, n - 1, n);
      k := n;
    } else {
      TimelinePrefix(cs);
      k := Locate(cs[..n], w);
      forall v | w - At(1, 0) <= v <= w ensures NearReading(cs, k, v) {
        assert NearReading(cs[..n], k, v);
      }
    }
  }

  // --- readings that are passed once ---

  predicate Inside(c: Change, w: int) { Lo(c) < w < Hi(c) }

  predicate OutsideAll(cs: seq<Change>, w: int) { forall k :: 0 <= k < |cs| ==> !Inside(cs[k], w) }

  /** Once the changes of the prefix are over, its clock shows the offset before the last change. */
  lemma AfterPrefix(cs: seq<Change>, u: int)
    requires Timeline(cs) && |cs| > 1
    ensures var n := |cs| - 1; UtcAt(cs[..n], cs[n].t + cs[n].before) == cs[n].t
    ensures var n := |cs| - 1; LocalAt(cs[..n], cs[n].t) == cs[n].t + cs[n].before
    ensures var n := |cs| - 1; OutsideAll(cs[..n], cs[n].t + cs[n].before)
  {
    var n := |cs| - 1;
    assert cs[..n][n - 1] == cs[n - 1];
    forall k | 0 <= k < n ensures !Inside(cs[..n][k], cs[n].t + cs[n].before) { InSequence(cs, k, n); }
  }

  /** A reading strictly inside no stretch is passed once. */
  lemma {:induction false} PassedOnce(cs: seq<Change>, w: int, u: int)
    requires Timeline(cs) && OutsideAll(cs, w)
    ensures w <= LocalAt(cs, u) <==> UtcAt(cs, w) <= u
    decreases |cs|
  {
    var n := |cs| - 1;
    assert !Inside(cs[n], w);
    if n > 0 {
      TimelinePrefix(cs);
      AfterPrefix(cs, u);
      assert OutsideAll(cs[..n], w);
      PassedOnce(cs[..n], w, u);
      PassedOnce(cs[..n], w, cs[n].t);
      PassedOnce(cs[..n], cs[n].t + cs[n].before, u);
    }
  }

  lemma OutsidePassesOnce(cs: seq<Change>, w: int)
    requires Timeline(cs) && OutsideAll(cs, w)
    ensures PassesOnce(Zoned(cs), w)
  {
    forall u ensures w <= LocalAt(cs, u) <==> UtcAt(cs, w) <= u { PassedOnce(cs, w, u); }
  }

  lemma MidnightsRegular(cs: seq<Change>)
    requires Timeline(cs)
    ensures RegularMidnights(Zoned(cs))
  {
    forall d ensures PassesOnce(Zoned(cs), At(d, 0)) {
      forall k | 0 <= k < |cs| ensures !Inside(cs[k], At(d, 0)) {
        assert PassesOnce(ZoneOf(cs[k]), At(d, 0));
        OneTransitionPassesOnce(cs[k].t, cs[k].before, cs[k].after, At(d, 0));
      }
      OutsidePassesOnce(cs, At(d, 0));
    }
  }

  // --- the instant a reading is taken for ---

  /** The instant that a reading is taken for shows that reading or, when it is skipped, a later one. */
  ghost predicate Advancing(z: Zone) { forall r :: r <= z.toLocal(z.toUtc(r)) }

  lemma InsideNear(cs: seq<Change>, k: nat, w: int)
    requires Timeline(cs) && k < |cs| && Inside(cs[k], w)
    ensures NearReading(cs, k, w) && NearInstant(cs, k, Utc(cs[k], w))
  {
    StretchInDay(cs[k]);
    if k > 0 { InSequence(cs, k - 1, k); }
    if k + 1 < |cs| {
      InSequence(cs, k, k + 1);
      assert cs[k].after == cs[k + 1].before;
    }
  }

  lemma ZonedAdvances(cs: seq<Change>)
    requires Timeline(cs)
    ensures Advancing(Zoned(cs))
  {
    var z := Zoned(cs);
    forall r ensures r <= z.toLocal(z.toUtc(r)) {
      if OutsideAll(cs, r) {
        OutsidePassesOnce(cs, r);
      } else {
        var k :| 0 <= k < |cs| && Inside(cs[k], r);
        InsideNear(cs, k, r);
        NearUtc(cs, k, r);
        NearLocal(cs, k, Utc(cs[k], r));
      }
    }
  }

  /** The walk stands at a reading past `m`, or has landed past it. */
  ghost predicate Beyond(z: Zone, m: int, p: Progress) {
    match p
    case Landed(at) => z.toUtc(m) < at
    case Going(cursor, remaining) => cursor == AtReading(z, cursor.local) && m <= cursor.local && remaining > 0
  }

  lemma BeyondWindow(z: Zone, m: int, d: int, w: Window, p: Progress)
    requires Advancing(z) && PassesOnce(z, m) && Beyond(z, m, p)
    ensures Beyond(z, m, UseWindow(z, d, w, p))
  {
    assert forall r :: m <= r ==> z.toUtc(m) <= z.toUtc(r) by {
      forall r | m <= r ensures z.toUtc(m) <= z.toUtc(r) { assert m <= z.toLocal(z.toUtc(r)); }
    }
  }

  lemma {:induction false} BeyondWindows(z: Zone, m: int, d: int, ws: seq<Window>, p: Progress)
    requires Advancing(z) && PassesOnce(z, m) && Beyond(z, m, p)
    ensures Beyond(z, m, UseWindows(z, d, ws, p))
  {
    if ws != [] {
      var n := |ws| - 1;
      BeyondWindows(z, m, d, ws[..n], p);
      BeyondWindow(z, m, d, ws[n], UseWindows(z, d, ws[..n], p));
    }
  }

  lemma BeyondMidnight(z: Zone, m: int, d: int, p: Progress)
    requires Beyond(z, m, p) && m <= At(d + 1, 0)
    ensures Beyond(z, m, NextDay(z, d, p))
  {
  }

  lemma BeyondAtMidnight(z: Zone, d: int, p: Progress)
    requires p.Going? && p.remaining > 0 && p.cursor == AtReading(z, At(d, 0))
    ensures Beyond(z, At(d, 0), p)
  {
  }

  lemma DaysInOrder(d: int, e: int)
    requires d <= e
    ensures At(d, 0) <= At(e, 0)
  {
  }

  /** A walk that goes on after `n` days does not land before the midnight at which they end. */
  lemma {:induction false} StaysBeyond(z: Zone, s: Schedule, from: int, budget: int, n: nat, more: nat)
    requires Advancing(z) && RegularMidnights(z) && n > 0
    requires var p := AfterDays(z, s, from, budget, n); p.Going? && p.remaining > 0
    ensures Beyond(z, At(DayOf(z.toLocal(from)) + n, 0), AfterDays(z, s, from, budget, n + more))
  {
    hide AfterDays, UseWindows, Advancing, PassesOnce, At, DayOf;
    var m := At(DayOf(z.toLocal(from)) + n, 0);
    if more == 0 {
      WalkEndsAtMidnight(z, s, from, budget, n);
      BeyondAtMidnight(z, DayOf(z.toLocal(from)) + n, AfterDays(z, s, from, budget, n));
    } else {
      StaysBeyond(z, s, from, budget, n, more - 1);
      var d, p := DayOf(z.toLocal(from)) + n + more - 1, AfterDays(z, s, from, budget, n + more - 1);
      DayStep(z, s, from, budget, n + more - 1);
      assert PassesOnce(z, m);
      hide Beyond, RegularMidnights;
      BeyondWindows(z, m, d, WindowsOn(s, d), p);
      DaysInOrder(DayOf(z.toLocal(from)) + n, d + 1);
      BeyondMidnight(z, m, d, UseWindows(z, d, WindowsOn(s, d), p));
    }
  }

  // --- what the walk has got wrong by the end of `n` days ---

  /** Landed where the budget is not due, or still going when it has been due. */
  ghost predicate WrongBy(z: Zone, s: Schedule, from: int, budget: int, n: nat) {
    var p, till := AfterDays(z, s, from, budget, n), z.toUtc(At(DayOf(z.toLocal(from)) + n, 0));
    && budget > 0 && from <= till
    && (p.Landed? ==> !IsDue(z, s, from, budget, p.at))
    && (p.Going? ==> p.remaining > 0 && OpenTime(z, s, from, till) >= budget)
  }

  /** What is wrong stays wrong. */
  lemma WrongForGood(z: Zone, s: Schedule, from: int, budget: int, n: nat)
    requires Advancing(z) && RegularMidnights(z) && 0 < n <= MAX_WALK_DAYS && WrongBy(z, s, from, budget, n)
    ensures !Meets(z, s, from, budget, Walk(z, s, from, budget))
  {
    var day := DayOf(z.toLocal(from));
    var p, q := AfterDays(z, s, from, budget, n), AfterDays(z, s, from, budget, MAX_WALK_DAYS);
    var till := z.toUtc(At(day + n, 0));
    if p.Landed? {
      LandedForGood(z, s, from, budget, n, MAX_WALK_DAYS);
    } else {
      StaysBeyond(z, s, from, budget, n, MAX_WALK_DAYS - n);
      PassesOnceMonotone(z, At(day + n, 0), At(day + MAX_WALK_DAYS, 0));
      SlaLawsMonotone(z, s, from, till, Horizon(z, from));
    }
    hide AfterDays, OpenTime;
  }

  lemma SlaLawsMonotone(z: Zone, s: Schedule, a: int, b: int, c: int)
    requires a <= b <= c
    ensures OpenTime(z, s, a, b) <= OpenTime(z, s, a, c)
  {
    OpenTimeSplit(z, s, a, b, c);
  }

  // --- two zones that agree for some days ---

  lemma {:induction false} SameWindows(z: Zone, z': Zone, d: int, ws: seq<Window>, p: Progress)
    requires ValidDay(ws) && forall w :: At(d, 0) <= w < At(d + 1, 0) ==> z.toUtc(w) == z'.toUtc(w)
    ensures UseWindows(z, d, ws, p) == UseWindows(z', d, ws, p)
  {
    if ws != [] {
      var n := |ws| - 1;
      SameWindows(z, z', d, ws[..n], p);
      assert WithinDay(ws[n]);
    }
  }

  /** Two zones that show the same start and agree on every reading of the next `n` days are walked alike. */
  lemma {:induction false} SameDays(z: Zone, z': Zone, s: Schedule, from: int, budget: int, n: nat)
    requires ValidSchedule(s) && z.toLocal(from) == z'.toLocal(from)
    requires forall w :: At(DayOf(z.toLocal(from)), 0) <= w <= At(DayOf(z.toLocal(from)) + n, 0) ==>
               z.toUtc(w) == z'.toUtc(w)
    ensures AfterDays(z, s, from, budget, n) == AfterDays(z', s, from, budget, n)
  {
    hide UseWindows, ValidSchedule, WindowsOn;
    if n > 0 {
      var d := DayOf(z.toLocal(from)) + n - 1;
      SameDays(z, z', s, from, budget, n - 1);
      ValidOn(s, d);
      SameWindows(z, z', d, WindowsOn(s, d), AfterDays(z, s, from, budget, n - 1));
    }
  }

  lemma ValidOn(s: Schedule, d: int)
    requires ValidSchedule(s)
    ensures ValidDay(WindowsOn(s, d))
  {
  }

  /** As long as they show the same, the same time is open. */
  lemma {:induction false} SameOpenTime(z: Zone, z': Zone, s: Schedule, a: int, b: int)
    requires forall u :: a <= u < b ==> z.toLocal(u) == z'.toLocal(u)
    ensures OpenTime(z, s, a, b) == OpenTime(z', s, a, b)
    decreases b - a
  {
    if a < b {
      SameOpenTime(z, z', s, a, b - 1);
      OpenByClock(z, s, b - 1);
      OpenByClock(z', s, b - 1);
      hide Open;
    }
  }

  lemma SameDue(z: Zone, z': Zone, s: Schedule, from: int, budget: int, at: int)
    requires forall u :: from <= u < at ==> z.toLocal(u) == z'.toLocal(u)
    ensures IsDue(z, s, from, budget, at) <==> IsDue(z', s, from, budget, at)
  {
    forall x | from <= x <= at ensures OpenTime(z, s, from, x) == OpenTime(z', s, from, x) {
      SameOpenTime(z, z', s, from, x);
    }
  }

  /** So what is wrong in the one is wrong in the other. */
  lemma SameWrong(z: Zone, z': Zone, s: Schedule, from: int, budget: int, n: nat, end: int)
    requires ValidSchedule(s) && WrongBy(z, s, from, budget, n) && z.toLocal(from) == z'.toLocal(from)
    requires forall w :: At(DayOf(z.toLocal(from)), 0) <= w <= At(DayOf(z.toLocal(from)) + n, 0) ==>
               z.toUtc(w) == z'.toUtc(w)
    requires forall u :: from <= u < end ==> z.toLocal(u) == z'.toLocal(u)
    requires z.toUtc(At(DayOf(z.toLocal(from)) + n, 0)) <= end
    requires var p := AfterDays(z, s, from, budget, n); p.Landed? ==> p.at <= end
    ensures WrongBy(z', s, from, budget, n)
  {
    hide AfterDays, OpenTime, IsDue, DayOf, At, ValidSchedule;
    SameDays(z, z', s, from, budget, n);
    var p, till := AfterDays(z, s, from, budget, n), z.toUtc(At(DayOf(z.toLocal(from)) + n, 0));
    SameOpenTime(z, z', s, from, till);
    if p.Landed? { SameDue(z, z', s, from, budget, p.at); }
    DaysInOrder(DayOf(z.toLocal(from)), DayOf(z.toLocal(from)) + n);
  }

  // --- two ways to go wrong ---

  /** What goes wrong at one change shows in the days around it. */
  ghost predicate WrongHere(c: Change, s: Schedule, from: int, budget: int) {
    && Lo(c) < Hi(c) && from == FirstReading(c) - c.before && WrongBy(ZoneOf(c), s, from, budget, SPAN_DAYS)
    && var p := AfterDays(ZoneOf(c), s, from, budget, SPAN_DAYS);
    p.Landed? ==> p.at <= NearEnd(c)
  }

  function NearEnd(c: Change): int { Hi(c) + At(10, 0) - c.after }

  /** With an open and a closed reading in the stretch, some start and budget get the wrong answer. */
  lemma MixedWrong(c: Change, s: Schedule, open: int, closed: int) returns (from: int, budget: int)
    requires RegularMidnights(ZoneOf(c)) && Sound(s)
    requires Lo(c) <= open < Hi(c) && OpenAt(s, open) && Lo(c) <= closed < Hi(c) && !OpenAt(s, closed)
    ensures WrongHere(c, s, from, budget)
  {
    hide *;
    var z, next := ZoneOf(c), Utc(c, At(DayOfChange(c) + 7, 0));
    from := FirstReading(c) - c.before;
    budget := OpenTime(z, s, from, next) + 1;
    StartsThere(c);
    OpenNextWeek(c, s, open, from);
    var r, e := DaysKept(c, s, from, FirstReading(c), budget, SPAN_DAYS);
    var p := AfterDays(z, s, from, budget, SPAN_DAYS);
    StartsLocal(c, from, FirstReading(c));
    OpenTimeSplit(z, s, from, next, SpanEnd(c));
    DayBeginsWith(c, s, FirstReading(c), budget, DayOf(FirstReading(c)) + SPAN_DAYS, p, r, e);
    if p.Landed? {
      LandingWrong(c, s, open, closed, budget, p.at, r, e);
      LandsNear(c, s, FirstReading(c), budget, p.at, r, e);
    }
    SpanWrong(c, s, from, budget);
  }

  lemma DayBeginsWith(c: Change, s: Schedule, first: int, budget: int, day: int, p: Progress, r: int, e: int)
    requires DayBegins(c, s, first, budget, day, p, r, e)
    ensures p.Going? ==> p.remaining > 0
    ensures p.Landed? ==> LandedIn(c, s, first, budget, p.at, r, e) && e < At(DayOf(r) + 1, 0) && e < At(day, 0)
  {
  }

  lemma SpanWrong(c: Change, s: Schedule, from: int, budget: int)
    requires Lo(c) < Hi(c) && from == FirstReading(c) - c.before <= SpanEnd(c) && budget > 0
    requires ZoneOf(c).toLocal(from) == FirstReading(c)
    requires var p := AfterDays(ZoneOf(c), s, from, budget, SPAN_DAYS);
      && (p.Landed? ==> !IsDue(ZoneOf(c), s, from, budget, p.at) && p.at <= NearEnd(c))
      && (p.Going? ==> p.remaining > 0 && OpenTime(ZoneOf(c), s, from, SpanEnd(c)) >= budget)
    ensures WrongHere(c, s, from, budget)
  {
    UtcOf(c, At(DayOf(FirstReading(c)) + SPAN_DAYS, 0));
    hide AfterDays, ZoneOf, OpenTime, IsDue, NearEnd;
  }

  lemma LandsNear(c: Change, s: Schedule, first: int, budget: int, at: int, r: int, e: int)
    requires RegularMidnights(ZoneOf(c)) && Lo(c) < Hi(c) && LandedIn(c, s, first, budget, at, r, e)
    requires e < At(DayOf(FirstReading(c)) + SPAN_DAYS, 0)
    ensures at <= NearEnd(c)
  {
    StretchInDay(c);
  }

  /** The walk started just before the stretch lands although one more microsecond of open time is missing. */
  lemma EdgeWrong(c: Change, s: Schedule, m: int, closed: int) returns (from: int, budget: int)
    requires RegularMidnights(ZoneOf(c)) && Sound(s) && c.before < c.after && Busy(CLOCK, s, Lo(c), Hi(c))
    requires IsEdge(s, m) && Lo(c) < m < Hi(c) <= closed < m + (Hi(c) - Lo(c)) && !OpenAt(s, closed)
    ensures WrongHere(c, s, from, budget)
  {
    hide *;
    BusyAt(s, Lo(c), Hi(c), m - 1);
    var x := FirstClosed(s, Hi(c), closed);
    from, budget := c.t - 1, Readings(s, Lo(c) - 1, Lo(c)) + (x - Hi(c)) + 1;
    LandsOnDay(c, s, m, x, budget);
    OneShort(c, s, x);
    ShortNotDue(ZoneOf(c), s, from, budget, Utc(c, x) + 1);
    EdgeBounds(c, m, x);
    LandedForGood(ZoneOf(c), s, from, budget, DaysBefore(c) + 1, SPAN_DAYS);
    SpanWrong(c, s, from, budget);
  }

  lemma EdgeBounds(c: Change, m: int, x: int)
    requires RegularMidnights(ZoneOf(c)) && c.before < c.after && Lo(c) < m < Hi(c) <= x < m + (Hi(c) - Lo(c))
    ensures c.t - 1 == FirstReading(c) - c.before <= SpanEnd(c) && ZoneOf(c).toLocal(c.t - 1) == FirstReading(c)
    ensures Utc(c, x) + 1 <= NearEnd(c) && DaysBefore(c) + 1 <= SPAN_DAYS
  {
    StretchInDay(c);
    NextWeekBounds(c, 0);
  }

  /** An edge that can do harm makes the walk wrong in the days around the change. */
  lemma UnsafeWrong(c: Change, s: Schedule) returns (from: int, budget: int)
    requires RegularMidnights(ZoneOf(c)) && Sound(s) && !Safe(c, s)
    ensures WrongHere(c, s, from, budget)
  {
    var m, r :| IsEdge(s, m) && Lo(c) < m < Hi(c) && Lo(c) <= r < Reach(c, m) && !OpenAt(s, r);
    var open := OpenBesideEdge(c, s, m);
    hide WrongHere, ZoneOf, Sound, Safe, IsEdge, RegularMidnights, OpenAt;
    if r < Hi(c) {
      from, budget := MixedWrong(c, s, open, r);
    } else if x :| Lo(c) <= x < Hi(c) && !OpenAt(s, x) {
      from, budget := MixedWrong(c, s, open, x);
    } else {
      AllOpenBusy(s, Lo(c), Hi(c));
      from, budget := EdgeWrong(c, s, m, r);
    }
  }

  lemma AllOpenBusy(s: Schedule, a: int, b: int)
    requires forall x :: a <= x < b ==> OpenAt(s, x)
    ensures Busy(CLOCK, s, a, b)
  {
    forall u | a <= u < b ensures Open(CLOCK, s, u) { assert OpenAt(s, u); }
  }

  /** The days around one change lie clear of the others. */
  lemma SpanNear(cs: seq<Change>, k: nat, w: int)
    requires Timeline(cs) && k < |cs| && Lo(cs[k]) < Hi(cs[k])
    requires At(DayOf(FirstReading(cs[k])), 0) <= w <= At(DayOf(FirstReading(cs[k])) + SPAN_DAYS, 0)
    ensures NearReading(cs, k, w)
  {
    StretchInDay(cs[k]);
    if k > 0 { InSequence(cs, k - 1, k); }
    if k + 1 < |cs| { InSequence(cs, k, k + 1); }
    hide Timeline, RegularMidnights;
    DayBounds(FirstReading(cs[k]));
  }

  lemma InstantsNear(cs: seq<Change>, k: nat, u: int)
    requires Timeline(cs) && k < |cs| && Lo(cs[k]) < Hi(cs[k])
    requires FirstReading(cs[k]) - cs[k].before <= u < NearEnd(cs[k])
    ensures NearInstant(cs, k, u)
  {
    if k > 0 { InSequence(cs, k - 1, k); Linked(cs, k); }
    if k + 1 < |cs| { InSequence(cs, k, k + 1); Linked(cs, k + 1); }
    hide Timeline;
  }

  lemma SpanBounds(cs: seq<Change>, k: nat)
    requires Timeline(cs) && k < |cs| && Lo(cs[k]) < Hi(cs[k])
    ensures var c := cs[k]; FirstReading(c) - c.before < NearEnd(c) && SpanEnd(c) <= NearEnd(c)
  {
    StretchInDay(cs[k]);
    hide RegularMidnights;
    DayBounds(FirstReading(cs[k]));
  }

  /** So the walk is wrong there in the whole zone too. */
  lemma WrongThere(cs: seq<Change>, k: nat, s: Schedule, from: int, budget: int)
    requires Timeline(cs) && k < |cs| && ValidSchedule(s) && WrongHere(cs[k], s, from, budget)
    ensures WrongBy(Zoned(cs), s, from, budget, SPAN_DAYS)
  {
    hide WrongBy, ZoneOf, Timeline, AfterDays, NearEnd, At, DayOf, Lo, Hi, NearReading, NearInstant, FirstReading,
         UtcAt, LocalAt, Utc;
    var c, z, z' := cs[k], ZoneOf(cs[k]), Zoned(cs);
    var day := DayOf(FirstReading(c));
    SpanBounds(cs, k);
    StartsThere(c);
    StartsLocal(c, from, FirstReading(c));
    forall w | At(day, 0) <= w <= At(day + SPAN_DAYS, 0) ensures z.toUtc(w) == z'.toUtc(w) {
      SpanNear(cs, k, w);
      UtcOf(c, w);
      NearUtc(cs, k, w);
    }
    forall u | from <= u < NearEnd(c) ensures z.toLocal(u) == z'.toLocal(u) {
      InstantsNear(cs, k, u);
      NearLocal(cs, k, u);
    }
    UtcOf(c, At(day + SPAN_DAYS, 0));
    SameWrong(z, z', s, from, budget, SPAN_DAYS, NearEnd(c));
  }
}
