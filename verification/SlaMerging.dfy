/**
  Windows of one day that follow each other without a gap. The walk converts every edge to UTC, so at an edge that the
  clock skips or repeats it charges one window too much and the next one too little, or the other way round. Along a run
  of abutting windows these charges cancel, provided the walk can neither land nor enter in between: then the run may
  be replaced by one window from its first start to its last end, without any change to the walk or to the open time,
  and the edges inside are gone. Harmless edges are the ones that go away like this, at every change of the zone.
 */
module SlaMerging {
  import opened BusinessCalendar
  import opened SlaWalk
  import opened SlaDue
  import opened SlaLedger
  import opened SlaTimeline

  // --- windows that follow each other without a gap ---

  predicate Abutting(ws: seq<Window>) {
    && (forall k :: 0 <= k < |ws| ==> WithinDay(ws[k]))
    && (forall k :: 0 < k < |ws| ==> ws[k - 1].end == ws[k].start)
  }

  /** Where the walk enters a run of abutting windows. */
  function Entry(z: Zone, d: int, w: Window, p: Progress): int
    requires p.Going?
  {
    if At(d, w.start) > p.cursor.local then z.toUtc(At(d, w.start)) else p.cursor.utc
  }

  /** The charges of abutting windows add up to the way from the entry to the end of the last one used. */
  lemma {:induction false} RunCharges(z: Zone, d: int, ws: seq<Window>, p: Progress, n: nat)
    requires Abutting(ws) && 0 < n <= |ws| && p.Going? && p.remaining > 0
    ensures var q, end, entry := UseWindows(z, d, ws[..n], p), At(d, ws[n - 1].end), Entry(z, d, ws[0], p);
      && (end <= p.cursor.local ==> q == p)
      && (p.cursor.local < end && q.Going? ==>
            q == Going(AtReading(z, end), p.remaining - (z.toUtc(end) - entry)) && q.remaining > 0)
      && (p.cursor.local < end && q.Landed? ==>
            q.at == entry + p.remaining && exists k :: 0 <= k < n && q.at <= z.toUtc(At(d, ws[k].end)))
  {
    UseNext(z, d, ws, n - 1, p);
    if n == 1 {
      UseNone(z, d, ws, p);
    } else {
      RunCharges(z, d, ws, p, n - 1);
      RunStarts(ws, n - 1);
      hide UseWindows;
      assert ws[n - 2].end == ws[n - 1].start && WithinDay(ws[n - 1]);
    }
  }

  lemma {:induction false} RunStarts(ws: seq<Window>, n: nat)
    requires Abutting(ws) && n < |ws|
    ensures ws[0].start <= ws[n].start
  {
    if n > 0 {
      RunStarts(ws, n - 1);
      assert WithinDay(ws[n - 1]) && ws[n - 1].end == ws[n].start;
    }
  }

  /** A run of abutting windows is used like one window when no end inside it comes later in UTC than its own. */
  lemma RunAsOne(z: Zone, d: int, ws: seq<Window>, p: Progress)
    requires Abutting(ws) && ws != [] && (p.Going? ==> p.remaining > 0)
    requires forall k :: 0 <= k < |ws| ==> z.toUtc(At(d, ws[k].end)) <= z.toUtc(At(d, ws[|ws| - 1].end))
    ensures UseWindows(z, d, ws, p) == UseWindow(z, d, Window(ws[0].start, ws[|ws| - 1].end), p)
  {
    assert ws[..|ws|] == ws;
    if p.Going? { RunCharges(z, d, ws, p, |ws|); } else { LandedStays(z, d, ws, p); }
  }

  lemma {:induction false} UseAppend(z: Zone, d: int, a: seq<Window>, b: seq<Window>, p: Progress)
    ensures UseWindows(z, d, a + b, p) == UseWindows(z, d, b, UseWindows(z, d, a, p))
  {
    if b == [] {
      assert a + b == a;
    } else {
      var n := |b| - 1;
      UseAppend(z, d, a, b[..n], p);
      assert (a + b)[..|a + b| - 1] == a + b[..n];
    }
  }

  lemma {:induction false} RemainsPositive(z: Zone, d: int, ws: seq<Window>, p: Progress)
    requires p.Going? ==> p.remaining > 0
    ensures var q := UseWindows(z, d, ws, p); q.Going? ==> q.remaining > 0
  {
    if ws != [] { RemainsPositive(z, d, ws[..|ws| - 1], p); }
  }

  /** The day with its windows `i` to `j` made one. */
  function Merged(ws: seq<Window>, i: nat, j: nat): seq<Window>
    requires i <= j < |ws|
  {
    ws[..i] + [Window(ws[i].start, ws[j].end)] + ws[j + 1..]
  }

  lemma MergedUse(z: Zone, d: int, ws: seq<Window>, i: nat, j: nat, p: Progress)
    requires i <= j < |ws| && Abutting(ws[i..j + 1]) && (p.Going? ==> p.remaining > 0)
    requires forall k :: i <= k <= j ==> z.toUtc(At(d, ws[k].end)) <= z.toUtc(At(d, ws[j].end))
    ensures UseWindows(z, d, Merged(ws, i, j), p) == UseWindows(z, d, ws, p)
  {
    var before, run, rest := ws[..i], ws[i..j + 1], ws[j + 1..];
    var one := Window(ws[i].start, ws[j].end);
    assert ws == before + run + rest;
    assert run[0] == ws[i] && run[|run| - 1] == ws[j];
    RemainsPositive(z, d, before, p);
    RunAsOne(z, d, run, UseWindows(z, d, before, p));
    UseAppend(z, d, before + run, rest, p);
    UseAppend(z, d, before, run, p);
    UseAppend(z, d, before + [one], rest, p);
    UseAppend(z, d, before, [one], p);
    UseSingle(z, d, one, UseWindows(z, d, before, p));
  }

  lemma UseSingle(z: Zone, d: int, w: Window, p: Progress)
    ensures UseWindows(z, d, [w], p) == UseWindow(z, d, w, p)
  {
    assert [w][..0] == [];
  }

  // --- the run through the stretch ---

  /** The last window of the run of abutting windows that starts with window `i`. */
  function RunEnd(ws: seq<Window>, i: nat): (j: nat)
    requires i < |ws|
    ensures i <= j < |ws|
    ensures forall k :: i < k <= j ==> ws[k - 1].end == ws[k].start
    ensures j + 1 < |ws| ==> ws[j].end != ws[j + 1].start
    decreases |ws| - i
  {
    if i + 1 < |ws| && ws[i].end == ws[i + 1].start then RunEnd(ws, i + 1) else i
  }

  lemma RunAbuts(ws: seq<Window>, i: nat)
    requires ValidDay(ws) && i < |ws|
    ensures Abutting(ws[i..RunEnd(ws, i) + 1])
  {
    var run := ws[i..RunEnd(ws, i) + 1];
    forall k | 0 < k < |run| ensures run[k - 1].end == run[k].start {
      assert run[k] == ws[i + k] && run[k - 1] == ws[i + k - 1];
    }
  }

  /** The reading at which the run ends is closed. */
  lemma RunEndClosed(s: Schedule, day: int, i: nat)
    requires Sound(s) && i < |WindowsOn(s, day)|
    ensures !OpenAt(s, At(day, WindowsOn(s, day)[RunEnd(WindowsOn(s, day), i)].end))
  {
    var ws := WindowsOn(s, day);
    var j := RunEnd(ws, i);
    var r := At(day, ws[j].end);
    if OpenAt(s, r) {
      assert WithinDay(ws[j]);
      var k := OpenOnDay(s, r, day);
      AfterEnd(ws, j, k);
    }
  }

  lemma AfterEnd(ws: seq<Window>, j: nat, k: nat)
    requires ValidDay(ws) && AscendingDay(ws) && j < |ws| && k < |ws|
    requires j + 1 < |ws| ==> ws[j].end != ws[j + 1].start
    ensures !(ws[k].start <= ws[j].end < ws[k].end)
  {
    if k > j + 1 { assert WithinDay(ws[j + 1]) && ws[j].end <= ws[j + 1].start < ws[j + 1].end <= ws[k].start; }
    if k < j { assert WithinDay(ws[j]) && ws[k].end <= ws[j].start < ws[j].end; }
  }

  lemma MergedPair(ws: seq<Window>, i: nat, j: nat, a: nat, b: nat)
    requires ValidDay(ws) && AscendingDay(ws) && i <= j < |ws| && a < b < |Merged(ws, i, j)|
    ensures Merged(ws, i, j)[a].end <= Merged(ws, i, j)[b].start
  {
    MergedAt(ws, i, j, a);
    MergedAt(ws, i, j, b);
    hide Merged;
    var last, first := if a < i then a else a + (j - i), if b <= i then b else b + (j - i);
    assert ws[last].end <= ws[first].start;
  }

  lemma MergedWithin(ws: seq<Window>, i: nat, j: nat, k: nat)
    requires ValidDay(ws) && AscendingDay(ws) && i <= j < |ws| && k < |Merged(ws, i, j)|
    ensures WithinDay(Merged(ws, i, j)[k])
  {
    MergedAt(ws, i, j, k);
    hide Merged;
    assert WithinDay(ws[i]) && WithinDay(ws[j]) && (i < j ==> ws[i].end <= ws[j].start);
    assert k != i ==> WithinDay(ws[if k < i then k else k + (j - i)]);
  }

  lemma MergedAscending(ws: seq<Window>, i: nat, j: nat)
    requires ValidDay(ws) && AscendingDay(ws) && i <= j < |ws|
    ensures ValidDay(Merged(ws, i, j)) && AscendingDay(Merged(ws, i, j))
  {
    var ms := Merged(ws, i, j);
    forall k | 0 <= k < |ms| ensures WithinDay(ms[k]) { MergedWithin(ws, i, j, k); }
    forall a, b | 0 <= a < b < |ms| ensures ms[a].end <= ms[b].start { MergedPair(ws, i, j, a, b); }
    hide Merged;
    assert forall a, b :: 0 <= a < b < |ms| ==> Disjoint(ms[a], ms[b]);
  }

  lemma {:induction false} RunCovers(ws: seq<Window>, i: nat, j: nat, x: int) returns (k: nat)
    requires i <= j < |ws| && (forall k :: i < k <= j ==> ws[k - 1].end == ws[k].start)
    requires ws[i].start <= x < ws[j].end
    ensures i <= k <= j && ws[k].start <= x < ws[k].end
    decreases j - i
  {
    if ws[j].start <= x {
      k := j;
    } else {
      k := RunCovers(ws, i, j - 1, x);
    }
  }

  lemma MergedAt(ws: seq<Window>, i: nat, j: nat, k: nat)
    requires i <= j < |ws|
    ensures |Merged(ws, i, j)| == |ws| - (j - i)
    ensures k < i ==> Merged(ws, i, j)[k] == ws[k]
    ensures Merged(ws, i, j)[i] == Window(ws[i].start, ws[j].end)
    ensures i < k < |ws| - (j - i) ==> Merged(ws, i, j)[k] == ws[k + (j - i)]
  {
  }

  predicate CoveredBy(ws: seq<Window>, x: int) { exists k :: 0 <= k < |ws| && ws[k].start <= x < ws[k].end }

  lemma CoveredMerged(ws: seq<Window>, i: nat, j: nat, x: int)
    requires ValidDay(ws) && AscendingDay(ws) && i <= j < |ws| && CoveredBy(ws, x)
    ensures CoveredBy(Merged(ws, i, j), x)
  {
    hide Merged, ValidDay, AscendingDay;
    var ms := Merged(ws, i, j);
    var k :| 0 <= k < |ws| && ws[k].start <= x < ws[k].end;
    if i <= k <= j { RunSpans(ws, i, k, j); }
    var h := if k < i then k else if k <= j then i else k - (j - i);
    MergedAt(ws, i, j, h);
    assert ms[h].start <= x < ms[h].end;
  }

  lemma RunSpans(ws: seq<Window>, i: nat, k: nat, j: nat)
    requires ValidDay(ws) && AscendingDay(ws) && i <= k <= j < |ws|
    ensures ws[i].start <= ws[k].start && ws[k].end <= ws[j].end
  {
    assert WithinDay(ws[i]) && WithinDay(ws[j]);
  }

  lemma CoveredUnmerged(ws: seq<Window>, i: nat, j: nat, x: int)
    requires i <= j < |ws| && (forall k :: i < k <= j ==> ws[k - 1].end == ws[k].start)
    requires CoveredBy(Merged(ws, i, j), x)
    ensures CoveredBy(ws, x)
  {
    var ms := Merged(ws, i, j);
    var k :| 0 <= k < |ms| && ms[k].start <= x < ms[k].end;
    MergedAt(ws, i, j, k);
    hide Merged;
    if k == i {
      var h := RunCovers(ws, i, j, x);
    } else {
      var h := if k < i then k else k + (j - i);
      assert ws[h].start <= x < ws[h].end;
    }
  }

  /** The schedule with windows `i` to `j` of day `day`'s weekday made one. */
  function MergedSchedule(s: Schedule, day: int, i: nat, j: nat): Schedule
    requires i <= j < |WindowsOn(s, day)|
  {
    s[day % 7 := Merged(WindowsOn(s, day), i, j)]
  }

  lemma MergedOn(s: Schedule, day: int, i: nat, j: nat, d: int)
    requires i <= j < |WindowsOn(s, day)|
    ensures d % 7 == day % 7 ==> WindowsOn(s, d) == WindowsOn(s, day)
    ensures WindowsOn(MergedSchedule(s, day, i, j), d)
            == if d % 7 == day % 7 then Merged(WindowsOn(s, day), i, j) else WindowsOn(s, d)
  {
  }

  lemma MergedSound(s: Schedule, day: int, i: nat, j: nat)
    requires Sound(s) && i <= j < |WindowsOn(s, day)|
    ensures Sound(MergedSchedule(s, day, i, j))
  {
    MergedAscending(WindowsOn(s, day), i, j);
    hide Merged, ValidDay, AscendingDay;
  }

  ghost predicate OpenOn(s: Schedule, d: int, r: int) { CoveredBy(WindowsOn(s, d), r - At(d, 0)) }

  lemma OpenOnSome(s: Schedule, r: int)
    ensures OpenAt(s, r) <==> exists d :: OpenOn(s, d, r)
  {
    if OpenAt(s, r) {
      var d, w :| w in WindowsOn(s, d) && Covers(CLOCK, d, w, r);
      var k :| 0 <= k < |WindowsOn(s, d)| && WindowsOn(s, d)[k] == w;
      assert OpenOn(s, d, r);
    }
    if exists d :: OpenOn(s, d, r) {
      var d :| OpenOn(s, d, r);
      var ws, x := WindowsOn(s, d), r - At(d, 0);
      var k :| 0 <= k < |ws| && ws[k].start <= x < ws[k].end;
      assert ws[k] in ws && Covers(CLOCK, d, ws[k], r);
    }
  }

  lemma MergedOpenOn(s: Schedule, day: int, i: nat, j: nat, d: int, r: int)
    requires Sound(s) && i <= j < |WindowsOn(s, day)|
    requires forall k :: i < k <= j ==> WindowsOn(s, day)[k - 1].end == WindowsOn(s, day)[k].start
    ensures OpenOn(s, d, r) <==> OpenOn(MergedSchedule(s, day, i, j), d, r)
  {
    MergedOn(s, day, i, j, d);
    if d % 7 == day % 7 {
      var ws, x := WindowsOn(s, day), r - At(d, 0);
      assert ValidDay(ws) && AscendingDay(ws);
      hide WindowsOn, MergedSchedule, Merged, Sound, CoveredBy, ValidDay, AscendingDay, At;
      if CoveredBy(ws, x) { CoveredMerged(ws, i, j, x); }
      if CoveredBy(Merged(ws, i, j), x) { CoveredUnmerged(ws, i, j, x); }
    }
  }

  lemma MergedOpen(s: Schedule, day: int, i: nat, j: nat, r: int)
    requires Sound(s) && i <= j < |WindowsOn(s, day)|
    requires forall k :: i < k <= j ==> WindowsOn(s, day)[k - 1].end == WindowsOn(s, day)[k].start
    ensures OpenAt(s, r) <==> OpenAt(MergedSchedule(s, day, i, j), r)
  {
    OpenOnSome(s, r);
    OpenOnSome(MergedSchedule(s, day, i, j), r);
    forall d ensures OpenOn(s, d, r) <==> OpenOn(MergedSchedule(s, day, i, j), d, r) {
      MergedOpenOn(s, day, i, j, d, r);
    }
    hide OpenAt, OpenOn, MergedSchedule, WindowsOn;
  }

  /** In every week, no end inside the run comes later in UTC than the run's own. */
  ghost predicate InOrder(z: Zone, ws: seq<Window>, i: nat, j: nat, day: int)
    requires i <= j < |ws|
  {
    forall d, k :: d % 7 == day % 7 && i <= k <= j ==> z.toUtc(At(d, ws[k].end)) <= z.toUtc(At(d, ws[j].end))
  }

  lemma MergedDayUse(z: Zone, s: Schedule, day: int, i: nat, j: nat, d: int, p: Progress)
    requires i <= j < |WindowsOn(s, day)| && Abutting(WindowsOn(s, day)[i..j + 1]) && (p.Going? ==> p.remaining > 0)
    requires InOrder(z, WindowsOn(s, day), i, j, day)
    ensures var q := UseWindows(z, d, WindowsOn(s, d), p);
      q == UseWindows(z, d, WindowsOn(MergedSchedule(s, day, i, j), d), p) && (q.Going? ==> q.remaining > 0)
  {
    MergedOn(s, day, i, j, d);
    hide UseWindows, WindowsOn, MergedSchedule, Merged, Abutting;
    RemainsPositive(z, d, WindowsOn(s, d), p);
    if d % 7 == day % 7 { MergedUse(z, d, WindowsOn(s, day), i, j, p); }
  }

  lemma NextDayRemains(z: Zone, d: int, p: Progress)
    requires p.Going? ==> p.remaining > 0
    ensures NextDay(z, d, p).Going? ==> NextDay(z, d, p).remaining > 0
  {
  }

  lemma {:induction false} MergedDays(z: Zone, s: Schedule, day: int, i: nat, j: nat, from: int, budget: int, n: nat)
    requires i <= j < |WindowsOn(s, day)| && budget > 0 && Abutting(WindowsOn(s, day)[i..j + 1])
    requires InOrder(z, WindowsOn(s, day), i, j, day)
    ensures var p := AfterDays(z, s, from, budget, n);
      && p == AfterDays(z, MergedSchedule(s, day, i, j), from, budget, n) && (p.Going? ==> p.remaining > 0)
  {
    hide *;
    var s' := MergedSchedule(s, day, i, j);
    if n == 0 {
      DayStep(z, s, from, budget, 0);
      DayStep(z, s', from, budget, 0);
    } else {
      MergedDays(z, s, day, i, j, from, budget, n - 1);
      var p, d := AfterDays(z, s, from, budget, n - 1), DayOf(z.toLocal(from)) + n - 1;
      DayStep(z, s, from, budget, n - 1);
      DayStep(z, s', from, budget, n - 1);
      MergedDayUse(z, s, day, i, j, d, p);
      NextDayRemains(z, d, UseWindows(z, d, WindowsOn(s, d), p));
    }
  }

  // --- harmless edges ---

  /** The run through the stretch reaches far enough for every edge inside. */
  lemma RunReaches(c: Change, s: Schedule, day: int, i: nat, m: int)
    requires Sound(s) && Safe(c, s) && i < |WindowsOn(s, day)| && IsEdge(s, m) && Lo(c) < m < Hi(c)
    requires Lo(c) < At(day, WindowsOn(s, day)[i].end)
    ensures Reach(c, m) <= At(day, WindowsOn(s, day)[RunEnd(WindowsOn(s, day), i)].end)
  {
    var ws := WindowsOn(s, day);
    var j := RunEnd(ws, i);
    RunEndClosed(s, day, i);
    AscendingEnds(s, day, j);
  }

  lemma UtcInOrder(c: Change, x: int, y: int)
    requires x <= y && (Inside(c, x) ==> Reach(c, x) <= y)
    ensures Utc(c, x) <= Utc(c, y)
  {
  }

  lemma EndOnDay(s: Schedule, d: int, k: nat)
    requires Sound(s) && k < |WindowsOn(s, d)|
    ensures var ws := WindowsOn(s, d);
      && At(d, ws[k].end) <= At(d, ws[RunEnd(ws, k)].end) <= At(d, ws[k].end) + At(1, 0)
      && IsEdge(s, At(d, ws[k].end))
  {
    var ws := WindowsOn(s, d);
    AscendingEnds(s, d, RunEnd(ws, k));
    assert WithinDay(ws[k]) && WithinDay(ws[RunEnd(ws, k)]);
  }

  /** The end of a run comes no earlier in UTC than the ends of its windows, on every day. */
  lemma EndsInOrder(cs: seq<Change>, s: Schedule, d: int, k: nat)
    requires Timeline(cs) && Sound(s) && AllSafe(cs, s) && k < |WindowsOn(s, d)|
    ensures var ws := WindowsOn(s, d);
      UtcAt(cs, At(d, ws[k].end)) <= UtcAt(cs, At(d, ws[RunEnd(ws, k)].end))
  {
    hide Timeline, Sound, Safe, IsEdge, WindowsOn, RunEnd, Utc, Reach, Lo, Hi, At, UtcAt, NearReading;
    var ws := WindowsOn(s, d);
    var x, y := At(d, ws[k].end), At(d, ws[RunEnd(ws, k)].end);
    EndOnDay(s, d, k);
    var l := Locate(cs, y);
    NearUtc(cs, l, x);
    NearUtc(cs, l, y);
    if Inside(cs[l], x) { RunReaches(cs[l], s, d, k, x); }
    UtcInOrder(cs[l], x, y);
  }

  lemma {:induction false} RunEndSame(ws: seq<Window>, i: nat, k: nat)
    requires i <= k < |ws| && k <= RunEnd(ws, i)
    ensures RunEnd(ws, k) == RunEnd(ws, i)
    decreases k - i
  {
    if i < k { RunEndSame(ws, i + 1, k); }
  }

  lemma SameWeekday(s: Schedule, d: int, day: int)
    requires d % 7 == day % 7
    ensures WindowsOn(s, d) == WindowsOn(s, day)
  {
  }

  /** So a run can be used as one window, in every week. */
  lemma RunInOrder(cs: seq<Change>, s: Schedule, day: int, i: nat)
    requires Timeline(cs) && Sound(s) && AllSafe(cs, s) && i < |WindowsOn(s, day)|
    ensures InOrder(Zoned(cs), WindowsOn(s, day), i, RunEnd(WindowsOn(s, day), i), day)
  {
    assert cs != [];
    hide Timeline, Sound, AllSafe, WindowsOn, RunEnd, UtcAt, At;
    var z, ws := Zoned(cs), WindowsOn(s, day);
    var j := RunEnd(ws, i);
    forall d, k | d % 7 == day % 7 && i <= k <= j ensures z.toUtc(At(d, ws[k].end)) <= z.toUtc(At(d, ws[j].end)) {
      SameWeekday(s, d, day);
      RunEndSame(ws, i, k);
      EndsInOrder(cs, s, d, k);
    }
  }

  lemma MergedEdgeOutside(ws: seq<Window>, i: nat, j: nat, k: nat, lo: int, hi: int)
    requires ValidDay(ws) && AscendingDay(ws) && i <= j < |ws| && ws[i].start <= lo && hi <= ws[j].end
    requires k < |Merged(ws, i, j)|
    ensures !(lo < Merged(ws, i, j)[k].start < hi) && !(lo < Merged(ws, i, j)[k].end < hi)
  {
    MergedAt(ws, i, j, k);
    var h := if k < i then k else if k == i then i else k + (j - i);
    assert WithinDay(ws[h]);
    assert k < i ==> ws[h].end <= ws[i].start;
    assert k > i ==> ws[j].end <= ws[h].start;
  }

  lemma MergedEdges(c: Change, s: Schedule, day: int, i: nat, m: int)
    requires RegularMidnights(ZoneOf(c)) && Lo(c) < m < Hi(c) && day == DayOfChange(c)
    requires Sound(s) && i < |WindowsOn(s, day)| && At(day, WindowsOn(s, day)[i].start) <= Lo(c)
    requires Hi(c) <= At(day, WindowsOn(s, day)[RunEnd(WindowsOn(s, day), i)].end)
    ensures !IsEdge(MergedSchedule(s, day, i, RunEnd(WindowsOn(s, day), i)), m)
  {
    var ws := WindowsOn(s, day);
    var j := RunEnd(ws, i);
    var s' := MergedSchedule(s, day, i, j);
    StretchInDay(c);
    MergedSound(s, day, i, j);
    MergedOn(s, day, i, j, day);
    assert AscendingDay(ws) && ValidDay(ws);
    hide MergedSchedule, Merged, RunEnd, Sound, WindowsOn, IsEdge, AscendingDay, ValidDay, RegularMidnights;
    if IsEdge(s', m) {
      var k := EdgeOnDay(s', m, day);
      MergedEdgeOutside(ws, i, j, k, Lo(c) - At(day, 0), Hi(c) - At(day, 0));
    }
  }

  lemma MergedMember(ws: seq<Window>, i: nat, j: nat, w: Window)
    requires i <= j < |ws| && w in Merged(ws, i, j)
    ensures w in ws || w == Window(ws[i].start, ws[j].end)
  {
  }

  /** Merging makes no new edges. */
  lemma MergedEdgeKept(s: Schedule, day: int, i: nat, j: nat, m: int)
    requires i <= j < |WindowsOn(s, day)| && IsEdge(MergedSchedule(s, day, i, j), m)
    ensures IsEdge(s, m)
  {
    hide WindowsOn, Merged, MergedSchedule, At;
    var s' := MergedSchedule(s, day, i, j);
    var d, w :| w in WindowsOn(s', d) && (m == At(d, w.start) || m == At(d, w.end));
    MergedOn(s, day, i, j, d);
    if d % 7 == day % 7 {
      var ws := WindowsOn(s, day);
      MergedMember(ws, i, j, w);
      assert ws[i] in WindowsOn(s, d) && ws[j] in WindowsOn(s, d);
    }
  }

  /** An edge inside makes the stretch open from its beginning, and further than to its end. */
  lemma OpenThrough(c: Change, s: Schedule, m: int)
    requires Safe(c, s) && IsEdge(s, m) && Lo(c) < m < Hi(c)
    ensures OpenAt(s, Lo(c)) && Hi(c) <= Reach(c, m)
  {
  }

  lemma DayValid(s: Schedule, day: int)
    requires Sound(s)
    ensures ValidDay(WindowsOn(s, day)) && AscendingDay(WindowsOn(s, day))
  {
  }

  /** The windows of the run that is open through the stretch. */
  lemma FindRun(c: Change, s: Schedule, m: int) returns (i: nat)
    requires RegularMidnights(ZoneOf(c)) && Sound(s) && Safe(c, s) && IsEdge(s, m) && Lo(c) < m < Hi(c)
    ensures var day, ws := DayOfChange(c), WindowsOn(s, DayOfChange(c));
      && i < |ws| && At(day, ws[i].start) <= Lo(c) < At(day, ws[i].end)
      && Hi(c) <= At(day, ws[RunEnd(ws, i)].end)
      && Abutting(ws[i..RunEnd(ws, i) + 1])
  {
    hide *;
    var day := DayOfChange(c);
    OpenThrough(c, s, m);
    DayValid(s, day);
    StretchInDay(c);
    i := OpenOnDay(s, Lo(c), day);
    RunReaches(c, s, day, i, m);
    RunAbuts(WindowsOn(s, day), i);
  }

  // --- harmless edges can be merged away ---

  ghost predicate Clear(c: Change, s: Schedule) { forall m :: IsEdge(s, m) ==> !Inside(c, m) }

  ghost predicate SameWalks(z: Zone, s: Schedule, s': Schedule) {
    forall from, budget :: budget > 0 ==> Walk(z, s, from, budget) == Walk(z, s', from, budget)
  }

  /** Open at the same readings, with no new edges, and walked alike. */
  ghost predicate Simpler(z: Zone, s: Schedule, s': Schedule) {
    && Sound(s') && SameWalks(z, s, s')
    && (forall x :: OpenAt(s, x) <==> OpenAt(s', x))
    && (forall m :: IsEdge(s', m) ==> IsEdge(s, m))
  }

  lemma WalkSame(z: Zone, s: Schedule, s': Schedule, from: int, budget: int)
    requires AfterDays(z, s, from, budget, MAX_WALK_DAYS) == AfterDays(z, s', from, budget, MAX_WALK_DAYS)
    ensures Walk(z, s, from, budget) == Walk(z, s', from, budget)
  {
    hide AfterDays;
  }

  lemma MergedSimpler(z: Zone, s: Schedule, day: int, i: nat)
    requires Sound(s) && i < |WindowsOn(s, day)| && Abutting(WindowsOn(s, day)[i..RunEnd(WindowsOn(s, day), i) + 1])
    requires InOrder(z, WindowsOn(s, day), i, RunEnd(WindowsOn(s, day), i), day)
    ensures Simpler(z, s, MergedSchedule(s, day, i, RunEnd(WindowsOn(s, day), i)))
  {
    var j := RunEnd(WindowsOn(s, day), i);
    var s' := MergedSchedule(s, day, i, j);
    hide Sound, WindowsOn, RunEnd, MergedSchedule, InOrder, Abutting, Walk, OpenAt, IsEdge;
    forall from, budget | budget > 0 ensures Walk(z, s, from, budget) == Walk(z, s', from, budget) {
      MergedDays(z, s, day, i, j, from, budget, MAX_WALK_DAYS);
      WalkSame(z, s, s', from, budget);
    }
    forall x ensures OpenAt(s, x) <==> OpenAt(s', x) { MergedOpen(s, day, i, j, x); }
    forall m | IsEdge(s', m) ensures IsEdge(s, m) { MergedEdgeKept(s, day, i, j, m); }
    MergedSound(s, day, i, j);
  }

  lemma RunClears(c: Change, s: Schedule, i: nat)
    requires RegularMidnights(ZoneOf(c)) && Sound(s) && i < |WindowsOn(s, DayOfChange(c))|
    requires At(DayOfChange(c), WindowsOn(s, DayOfChange(c))[i].start) <= Lo(c)
    requires var ws := WindowsOn(s, DayOfChange(c)); Hi(c) <= At(DayOfChange(c), ws[RunEnd(ws, i)].end)
    ensures Clear(c, MergedSchedule(s, DayOfChange(c), i, RunEnd(WindowsOn(s, DayOfChange(c)), i)))
  {
    hide RegularMidnights, Sound, WindowsOn, DayOfChange, RunEnd, MergedSchedule, IsEdge, Lo, Hi, At;
    var s' := MergedSchedule(s, DayOfChange(c), i, RunEnd(WindowsOn(s, DayOfChange(c)), i));
    forall m | Inside(c, m) ensures !IsEdge(s', m) { MergedEdges(c, s, DayOfChange(c), i, m); }
  }

  lemma SimplerItself(z: Zone, s: Schedule)
    requires Sound(s)
    ensures Simpler(z, s, s)
  {
    hide Walk, OpenAt, IsEdge, Sound;
  }

  lemma AtChange(cs: seq<Change>, s: Schedule, k: nat)
    requires Timeline(cs) && AllSafe(cs, s) && k < |cs|
    ensures RegularMidnights(ZoneOf(cs[k])) && Safe(cs[k], s)
  {
  }

  lemma ClearAt(cs: seq<Change>, s: Schedule, k: nat, m: int) returns (s': Schedule)
    requires Timeline(cs) && Sound(s) && AllSafe(cs, s) && k < |cs| && IsEdge(s, m) && Lo(cs[k]) < m < Hi(cs[k])
    ensures Simpler(Zoned(cs), s, s') && Clear(cs[k], s')
  {
    hide *;
    var c, day := cs[k], DayOfChange(cs[k]);
    AtChange(cs, s, k);
    var i := FindRun(c, s, m);
    RunInOrder(cs, s, day, i);
    MergedSimpler(Zoned(cs), s, day, i);
    RunClears(c, s, i);
    s' := MergedSchedule(s, day, i, RunEnd(WindowsOn(s, day), i));
  }

  /** The stretch of one change rid of edges. */
  lemma ClearOne(cs: seq<Change>, s: Schedule, k: nat) returns (s': Schedule)
    requires Timeline(cs) && Sound(s) && AllSafe(cs, s) && k < |cs|
    ensures Simpler(Zoned(cs), s, s') && Clear(cs[k], s')
  {
    hide Timeline, Sound, AllSafe, Safe, Zoned, IsEdge, Simpler, Lo, Hi;
    if m :| IsEdge(s, m) && Inside(cs[k], m) {
      s' := ClearAt(cs, s, k, m);
    } else {
      s' := s;
      SimplerItself(Zoned(cs), s);
    }
  }

  lemma SimplerSafe(cs: seq<Change>, z: Zone, s: Schedule, s': Schedule)
    requires Simpler(z, s, s') && AllSafe(cs, s)
    ensures AllSafe(cs, s')
  {
    forall k | 0 <= k < |cs| ensures Safe(cs[k], s') { assert Safe(cs[k], s); }
  }

  /** The stretches of the first `n` changes rid of edges. */
  lemma {:induction false} ClearFirst(cs: seq<Change>, s: Schedule, n: nat) returns (s': Schedule)
    requires Timeline(cs) && Sound(s) && AllSafe(cs, s) && n <= |cs|
    ensures Simpler(Zoned(cs), s, s') && forall k :: 0 <= k < n ==> Clear(cs[k], s')
  {
    hide Timeline, Sound, AllSafe, Zoned, IsEdge, Walk, OpenAt;
    if n == 0 {
      s' := s;
    } else {
      var s1 := ClearFirst(cs, s, n - 1);
      SimplerSafe(cs, Zoned(cs), s, s1);
      s' := ClearOne(cs, s1, n - 1);
    }
  }

  lemma ClearRegular(cs: seq<Change>, s: Schedule)
    requires Timeline(cs) && forall k :: 0 <= k < |cs| ==> Clear(cs[k], s)
    ensures Regular(Zoned(cs), s)
  {
    MidnightsRegular(cs);
    hide Zoned, Timeline, PassesOnce, RegularMidnights;
    forall d, w | w in WindowsOn(s, d)
      ensures PassesOnce(Zoned(cs), At(d, w.start)) && PassesOnce(Zoned(cs), At(d, w.end))
    {
      assert IsEdge(s, At(d, w.start)) && IsEdge(s, At(d, w.end));
      OutsidePassesOnce(cs, At(d, w.start));
      OutsidePassesOnce(cs, At(d, w.end));
    }
  }

  lemma RegularExact(z: Zone, s: Schedule, from: int, budget: int)
    requires Sound(s) && Regular(z, s) && budget > 0
    ensures Meets(z, s, from, budget, Walk(z, s, from, budget))
  {
    SoundEffective(s);
    hide Walk, Meets, Effective, Regular, Sound;
    WalkMeets(z, s, from, budget);
  }

  lemma SameMeets(z: Zone, s: Schedule, s': Schedule, from: int, budget: int, r: DueResult)
    requires forall x :: OpenAt(s, x) <==> OpenAt(s', x)
    requires Meets(z, s', from, budget, r)
    ensures Meets(z, s, from, budget, r)
  {
    forall u ensures Open(z, s, u) <==> Open(z, s', u) {
      OpenByClock(z, s, u);
      OpenByClock(z, s', u);
    }
    forall x { OpenTimeSame(z, s, s', from, x); }
    hide OpenTime, Open;
  }
}
