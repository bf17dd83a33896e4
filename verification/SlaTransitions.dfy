/**
  Zones whose offset changes, where a window edge may fall strictly inside a stretch of local time that the clock skips
  or repeats: exactly when the walk is right on every start and budget all the same.
 */
module SlaTransitions {
  import opened BusinessCalendar
  import opened SlaWalk
  import opened SlaLedger
  import opened SlaMerging
  import opened SlaTimeline
  import BusinessHours
  import SlaLaws

  /** On every start and budget the walk is right for the windows it sees. */
  ghost predicate Exact(z: Zone, s: Schedule) {
    forall from, budget :: budget > 0 ==> Meets(z, Effective(s), from, budget, Walk(z, s, from, budget))
  }

  // --- the exact condition ---

  /**
    In a zone with any number of offset changes, ten days apart and with no midnight inside their stretches, the walk
    over an accepted schedule is exact on every start and budget if and only if every edge strictly inside a skipped or
    repeated stretch is harmless.
   */
  lemma ExactIffAllSafe(cs: seq<Change>, s: Schedule)
    requires Timeline(cs) && ValidSchedule(s)
    ensures Exact(Zoned(cs), s) <==> AllSafe(cs, Effective(s))
  {
    var z, e := Zoned(cs), Effective(s);
    EffectiveSound(s);
    hide Meets, Walk, Zoned, Sound, Safe, Timeline, Effective;
    if AllSafe(cs, e) {
      forall from, budget | budget > 0 ensures Meets(z, e, from, budget, Walk(z, s, from, budget)) {
        AllSafeExact(cs, e, from, budget);
        WalkEffective(z, s, from, budget);
      }
    } else {
      var k :| 0 <= k < |cs| && !Safe(cs[k], e);
      var from, budget := UnsafeNotExact(cs, k, e);
      WalkEffective(z, s, from, budget);
    }
  }

  /** In particular with one change. */
  lemma ExactIffSafe(c: Change, s: Schedule)
    requires RegularMidnights(ZoneOf(c)) && ValidSchedule(s)
    ensures Exact(ZoneOf(c), s) <==> Safe(c, Effective(s))
  {
    ExactIffAllSafe([c], s);
    OneChange(c);
    hide Zoned, ZoneOf, Safe, Exact;
    SameExact(Zoned([c]), ZoneOf(c), s);
  }

  /** For a schedule without abutting windows: exact if and only if no edge lies strictly inside a stretch. */
  lemma ExactIffNoEdgeInside(cs: seq<Change>, s: Schedule)
    requires Timeline(cs) && ValidSchedule(s) && Gapped(Effective(s))
    ensures Exact(Zoned(cs), s) <==> forall m :: IsEdge(Effective(s), m) ==> OutsideAll(cs, m)
  {
    var e := Effective(s);
    ExactIffAllSafe(cs, s);
    EffectiveSound(s);
    if m :| IsEdge(e, m) && !OutsideAll(cs, m) {
      var k :| 0 <= k < |cs| && Inside(cs[k], m);
      hide Exact, Effective, Sound, Gapped, Safe, IsEdge;
      GappedUnsafe(cs[k], e, m);
    }
  }

  /** Where the walk is exact, a later start is never due earlier. */
  lemma SafeMonotone(cs: seq<Change>, s: Schedule, from: int, from': int, budget: int)
    requires Timeline(cs) && ValidSchedule(s) && AllSafe(cs, Effective(s)) && from <= from' && budget > 0
    ensures var r, r' := Walk(Zoned(cs), s, from, budget), Walk(Zoned(cs), s, from', budget);
      r.Due? && r'.Due? ==> r.at <= r'.at
  {
    ExactIffAllSafe(cs, s);
    var z, e := Zoned(cs), Effective(s);
    var r, r' := Walk(z, s, from, budget), Walk(z, s, from', budget);
    assert Meets(z, e, from, budget, r) && Meets(z, e, from', budget, r');
    hide Walk, Effective, Zoned, Timeline, AllSafe, Exact, IsDue;
    if r.Due? && r'.Due? { SlaLaws.MonotoneInStart(z, e, from, from', budget, r.at, r'.at); }
  }

  // --- both directions ---

  lemma UnsafeNotExact(cs: seq<Change>, k: nat, s: Schedule) returns (from: int, budget: int)
    requires Timeline(cs) && k < |cs| && Sound(s) && !Safe(cs[k], s)
    ensures budget > 0 && !Meets(Zoned(cs), s, from, budget, Walk(Zoned(cs), s, from, budget))
  {
    hide Safe, Meets, Walk, WrongHere, Zoned, ZoneOf, Advancing, RegularMidnights;
    from, budget := UnsafeWrong(cs[k], s);
    WrongThere(cs, k, s, from, budget);
    ZonedAdvances(cs);
    MidnightsRegular(cs);
    WrongForGood(Zoned(cs), s, from, budget, SPAN_DAYS);
  }

  /** Where every edge is harmless the walk is right. */
  lemma AllSafeExact(cs: seq<Change>, s: Schedule, from: int, budget: int)
    requires Timeline(cs) && Sound(s) && AllSafe(cs, s) && budget > 0
    ensures Meets(Zoned(cs), s, from, budget, Walk(Zoned(cs), s, from, budget))
  {
    assert cs != [];
    hide Meets, Walk, Zoned, Sound, AllSafe, Clear, IsEdge, Timeline, Regular, OpenAt;
    var s' := ClearFirst(cs, s, |cs|);
    ClearRegular(cs, s');
    RegularExact(Zoned(cs), s', from, budget);
    SameMeets(Zoned(cs), s, s', from, budget, Walk(Zoned(cs), s', from, budget));
  }

  // --- one change ---

  ghost predicate SameZone(z: Zone, z': Zone) {
    (forall w :: z.toUtc(w) == z'.toUtc(w)) && (forall u :: z.toLocal(u) == z'.toLocal(u))
  }

  lemma OneChange(c: Change)
    requires RegularMidnights(ZoneOf(c))
    ensures Timeline([c]) && SameZone(Zoned([c]), ZoneOf(c))
    ensures forall s :: AllSafe([c], s) <==> Safe(c, s)
  {
    forall s ensures AllSafe([c], s) <==> Safe(c, s) {
      assert AllSafe([c], s) ==> Safe([c][0], s);
    }
  }

  lemma SameExact(z: Zone, z': Zone, s: Schedule)
    requires ValidSchedule(s) && SameZone(z, z')
    ensures Exact(z, s) <==> Exact(z', s)
  {
    forall from, budget
      ensures Meets(z, Effective(s), from, budget, Walk(z, s, from, budget))
              <==> Meets(z', Effective(s), from, budget, Walk(z', s, from, budget))
    {
      SameDays(z, z', s, from, budget, MAX_WALK_DAYS);
      forall at { SameDue(z, z', Effective(s), from, budget, at); }
      SameOpenTime(z, z', Effective(s), from, Horizon(z, from));
      hide AfterDays, OpenTime, IsDue, Effective;
    }
  }

  // --- without abutting windows ---

  /** No window of a day starts where another one ends. */
  ghost predicate Gapped(s: Schedule) {
    forall d, i :: 0 < i < |WindowsOn(s, d)| ==> WindowsOn(s, d)[i - 1].end != WindowsOn(s, d)[i].start
  }

  lemma GappedDay(s: Schedule, day: int)
    requires Gapped(s)
    ensures forall i :: 0 < i < |WindowsOn(s, day)| ==> WindowsOn(s, day)[i - 1].end != WindowsOn(s, day)[i].start
  {
  }

  /** Without abutting windows one side of every edge is closed. */
  lemma GappedEdge(s: Schedule, m: int, day: int)
    requires Sound(s) && Gapped(s) && IsEdge(s, m) && At(day, 0) < m < At(day + 1, 0)
    ensures !OpenAt(s, m - 1) || !OpenAt(s, m)
  {
    hide *;
    if OpenAt(s, m - 1) && OpenAt(s, m) {
      DayValid(s, day);
      GappedDay(s, day);
      var k := EndsAtEdge(s, m, day);
      var h := OpenOnDay(s, m, day);
      assert k + 1 < |WindowsOn(s, day)| ==> WindowsOn(s, day)[k].end != WindowsOn(s, day)[k + 1].start;
      SameTime(day, WindowsOn(s, day)[k].end, WindowsOn(s, day)[h]);
      AfterEnd(WindowsOn(s, day), k, h);
    }
  }

  lemma SameTime(day: int, x: int, w: Window)
    ensures w.start <= x < w.end <==> At(day, w.start) <= At(day, x) < At(day, w.end)
  {
  }

  lemma BothSidesOpen(c: Change, s: Schedule, m: int)
    requires Safe(c, s) && IsEdge(s, m) && Lo(c) < m < Hi(c)
    ensures OpenAt(s, m - 1) && OpenAt(s, m)
  {
  }

  /** So none inside the stretch is harmless. */
  lemma GappedUnsafe(c: Change, s: Schedule, m: int)
    requires RegularMidnights(ZoneOf(c)) && Sound(s) && Gapped(s) && IsEdge(s, m) && Lo(c) < m < Hi(c)
    ensures !Safe(c, s)
  {
    hide *;
    StretchInDay(c);
    GappedEdge(s, m, DayOfChange(c));
    if Safe(c, s) { BothSidesOpen(c, s, m); }
  }

  lemma EffectiveSound(s: Schedule)
    requires ValidSchedule(s)
    ensures Sound(Effective(s))
  {
    ConstantOffsetRegular(0, s);
    BusinessHours.EffectiveWellFormed(CLOCK, s);
  }

  // --- what goes wrong ---

  lemma FirstDayLands(z: Zone, s: Schedule, from: int, budget: int, day: int, w: Window)
    requires WindowsOn(s, day) == [w] && At(day, 0) <= z.toLocal(from) < At(day + 1, 0)
    ensures var p := UseWindow(z, day, w, Going(Cursor(z.toLocal(from), from), budget));
      p.Landed? ==> Walk(z, s, from, budget) == Due(p.at)
  {
    var p := UseWindow(z, day, w, Going(Cursor(z.toLocal(from), from), budget));
    SameDay(day, z.toLocal(from));
    DayStep(z, s, from, budget, 0);
    UseSingle(z, day, w, Going(Cursor(z.toLocal(from), from), budget));
    if p.Landed? {
      hide AfterDays, UseWindow, UseWindows, At, DayOf;
      assert AfterDays(z, s, from, budget, 1) == p;
      LandedForGood(z, s, from, budget, 1, MAX_WALK_DAYS);
    }
  }

  /**
    A window that opens at a skipped reading: of two starts on that day, one before the skip and one after it but before
    the instant the skipped reading is taken for, the earlier is due later. The walk is then not even monotone in its
    start. With offset 0 until 02:00 UTC and one hour after, and opening at 02:30, one hour from 01:00 UTC is due at
    03:30 UTC and one hour from 02:10 UTC at 03:10 UTC.
   */
  lemma LaterStartDueEarlier(c: Change, s: Schedule, day: int, w: Window, early: int, late: int, budget: int)
    requires c.before < c.after && WindowsOn(s, day) == [w]
    requires Lo(c) < At(day, w.start) < Hi(c) < At(day, w.end) < At(day + 1, 0)
    requires At(day, 0) <= early + c.before && early < c.t <= late < Utc(c, At(day, w.start))
    requires 0 < budget <= Utc(c, At(day, w.end)) - Utc(c, At(day, w.start))
    ensures Walk(ZoneOf(c), s, early, budget) == Due(Utc(c, At(day, w.start)) + budget)
    ensures Walk(ZoneOf(c), s, late, budget) == Due(late + budget)
    ensures late + budget < Utc(c, At(day, w.start)) + budget
  {
    var z := ZoneOf(c);
    UtcOf(c, At(day, w.start));
    UtcOf(c, At(day, w.end));
    assert z.toLocal(early) == early + c.before && z.toLocal(late) == late + c.after;
    FirstDayLands(z, s, early, budget, day, w);
    FirstDayLands(z, s, late, budget, day, w);
  }

  /**
    A window that ends at a repeated reading: of two starts in the second pass, one before that reading and one after
    it, the earlier is due later, because the walk takes the window to have ended in the first pass and charges it less
    than nothing.
   */
  lemma LaterStartDueEarlierRepeated(c: Change, s: Schedule, day: int, w: Window, v: Window, early: int, late: int,
                                     budget: int)
    requires c.after < c.before && WindowsOn(s, day) == [w] && WindowsOn(s, day + 1) == [v]
    requires Lo(c) < At(day, w.end) < Hi(c) <= At(day + 1, 0) && 0 <= v.start
    requires c.t <= early && At(day, 0) <= early + c.after && At(day, w.start) <= early + c.after < At(day, w.end)
    requires At(day, w.end) <= late + c.after < At(day + 1, 0)
    requires 0 < budget && budget + (early - Utc(c, At(day, w.end))) <= v.end - v.start
    ensures early < late && early > Utc(c, At(day, w.end))
    ensures var opens := Utc(c, At(day + 1, v.start));
      && Walk(ZoneOf(c), s, early, budget) == Due(opens + budget + (early - Utc(c, At(day, w.end))))
      && Walk(ZoneOf(c), s, late, budget) == Due(opens + budget)
  {
    var extra := early - Utc(c, At(day, w.end));
    DayPassed(c, s, day, w, early, budget, budget + extra);
    DayPassed(c, s, day, w, late, budget, budget);
    SecondDayLands(c, s, day, v, early, budget, budget + extra);
    SecondDayLands(c, s, day, v, late, budget, budget);
  }

  lemma DayPassed(c: Change, s: Schedule, day: int, w: Window, from: int, budget: int, remaining: int)
    requires WindowsOn(s, day) == [w] && c.t <= from && At(day, 0) <= from + c.after < At(day + 1, 0)
    requires At(day, w.start) <= from + c.after
    requires if At(day, w.end) <= from + c.after then remaining == budget
             else remaining == budget - (Utc(c, At(day, w.end)) - from) && remaining > 0
    ensures DayOf(ZoneOf(c).toLocal(from)) == day
    ensures AfterDays(ZoneOf(c), s, from, budget, 1) == Going(AtReading(ZoneOf(c), At(day + 1, 0)), remaining)
  {
    var z := ZoneOf(c);
    SameDay(day, z.toLocal(from));
    UtcOf(c, At(day, w.end));
    DayStep(z, s, from, budget, 0);
    UseSingle(z, day, w, Going(Cursor(z.toLocal(from), from), budget));
  }

  lemma SecondDayLands(c: Change, s: Schedule, day: int, v: Window, from: int, budget: int, remaining: int)
    requires WindowsOn(s, day + 1) == [v] && Hi(c) <= At(day + 1, 0) && 0 <= v.start && 0 < remaining <= v.end - v.start
    requires DayOf(ZoneOf(c).toLocal(from)) == day
    requires AfterDays(ZoneOf(c), s, from, budget, 1) == Going(AtReading(ZoneOf(c), At(day + 1, 0)), remaining)
    ensures Walk(ZoneOf(c), s, from, budget) == Due(Utc(c, At(day + 1, v.start)) + remaining)
  {
    var z := ZoneOf(c);
    UtcOf(c, At(day + 1, v.start));
    UtcOf(c, At(day + 1, v.end));
    UtcOf(c, At(day + 1, 0));
    DayStep(z, s, from, budget, 1);
    var p := Going(AtReading(z, At(day + 1, 0)), remaining);
    UseSingle(z, day + 1, v, p);
    assert UseWindow(z, day + 1, v, p) == Landed(Utc(c, At(day + 1, v.start)) + remaining);
    hide AfterDays, UseWindow, UseWindows, At, DayOf, Utc, ZoneOf;
    LandedForGood(z, s, from, budget, 2, MAX_WALK_DAYS);
  }
}
