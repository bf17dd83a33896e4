/**
  `parse_business_hours`, and what an accepted payload guarantees the walk: the order in which a day lists its
  windows is not checked, and the walk is exact for a schedule exactly when every day lists them in ascending order.
 */
module BusinessHours {
  import opened Wrappers
  import opened BusinessCalendar
  import SlaWalk
  import SlaBooks
  import SlaDue
  import SlaLaws

  const DAY_KEYS: seq<string> := ["mon", "tue", "wed", "thu", "fri", "sat", "sun"]

  type TimeOfDay = t: int | 0 <= t < 86_400_000_000

  /** A listed entry: not a two-element list, or what `time.fromisoformat` makes of its two elements. */
  datatype Entry = NotAPair | Pair(start: Option<TimeOfDay>, end: Option<TimeOfDay>)

  type Payload = map<string, seq<Entry>>

  datatype Fault = UnknownDay(day: string) | BadShape(day: string) | Unparseable(day: string)
                 | StartNotBeforeEnd(day: string) | Overlapping(day: string) | NothingOpen

  predicate Opens(e: Entry) {
    e.Pair? && e.start.Some? && e.end.Some? && e.start.value < e.end.value
  }

  function ToWindow(e: Entry): Window
    requires Opens(e)
  {
    Window(e.start.value, e.end.value)
  }

  predicate Overlap(a: Entry, b: Entry) {
    Opens(a) && Opens(b) && !Disjoint(ToWindow(a), ToWindow(b))
  }

  function ToWindows(es: seq<Entry>): (ws: seq<Window>)
    requires forall i :: 0 <= i < |es| ==> Opens(es[i])
    ensures |ws| == |es| && forall i :: 0 <= i < |es| ==> ws[i] == ToWindow(es[i])
  {
    seq(|es|, i requires 0 <= i < |es| => ToWindow(es[i]))
  }

  ghost predicate AcceptableDay(raw: Payload, day: string)
    requires day in raw
  {
    && day in DAY_KEYS
    && (forall i :: 0 <= i < |raw[day]| ==> Opens(raw[day][i]))
    && ValidDay(ToWindows(raw[day]))
  }

  /** The documented rules. */
  ghost predicate Acceptable(raw: Payload) {
    && (forall day :: day in raw ==> AcceptableDay(raw, day))
    && (exists day :: day in raw && raw[day] != [])
  }

  /** Both ends of an entry are given and in order. */
  predicate InOrder(e: Entry) { e.Pair? && e.start.Some? && e.end.Some? && e.start.value < e.end.value }

  /** Two entries in order do not share a moment; touching is allowed. */
  predicate Apart(a: Entry, b: Entry)
    requires InOrder(a) && InOrder(b)
  {
    a.end.value <= b.start.value || b.end.value <= a.start.value
  }

  /** The rules entry by entry: known days, ends in order, no two entries of a day that overlap, and some entry. */
  lemma AcceptableIff(raw: Payload)
    ensures Acceptable(raw) <==>
      && (forall day :: day in raw ==>
            && day in {"mon", "tue", "wed", "thu", "fri", "sat", "sun"}
            && (forall i :: 0 <= i < |raw[day]| ==> InOrder(raw[day][i]))
            && (forall i, j :: 0 <= i < j < |raw[day]| ==> Apart(raw[day][i], raw[day][j])))
      && (exists day :: day in raw && raw[day] != [])
  {
    forall day | day in raw
      ensures AcceptableDay(raw, day) <==>
        && day in {"mon", "tue", "wed", "thu", "fri", "sat", "sun"}
        && (forall i :: 0 <= i < |raw[day]| ==> InOrder(raw[day][i]))
        && (forall i, j :: 0 <= i < j < |raw[day]| ==> Apart(raw[day][i], raw[day][j]))
    {
      DayAcceptableIff(raw, day);
    }
    hide AcceptableDay, InOrder, Apart;
  }

  lemma DayAcceptableIff(raw: Payload, day: string)
    requires day in raw
    ensures AcceptableDay(raw, day) <==>
      && day in {"mon", "tue", "wed", "thu", "fri", "sat", "sun"}
      && (forall i :: 0 <= i < |raw[day]| ==> InOrder(raw[day][i]))
      && (forall i, j :: 0 <= i < j < |raw[day]| ==> Apart(raw[day][i], raw[day][j]))
  {
    assert day in DAY_KEYS <==> day in {"mon", "tue", "wed", "thu", "fri", "sat", "sun"};
    if forall i :: 0 <= i < |raw[day]| ==> InOrder(raw[day][i]) {
      assert forall i :: 0 <= i < |raw[day]| ==> Opens(raw[day][i]);
      var ws := ToWindows(raw[day]);
      assert forall i :: 0 <= i < |ws| ==> ws[i] == ToWindow(raw[day][i]);
    }
  }

  /** The rule a reported fault names is broken on the day it names. */
  ghost predicate Blames(raw: Payload, f: Fault) {
    match f
    case UnknownDay(day) => day in raw && day !in DAY_KEYS
    case BadShape(day) => day in raw && NotAPair in raw[day]
    case Unparseable(day) => day in raw && exists e :: e in raw[day] && e.Pair? && (e.start.None? || e.end.None?)
    case StartNotBeforeEnd(day) =>
      day in raw && exists e :: e in raw[day] && e.Pair? && e.start.Some? && e.end.Some?
                                && e.start.value >= e.end.value
    case Overlapping(day) =>
      day in raw && exists i, j :: 0 <= i < j < |raw[day]| && Overlap(raw[day][i], raw[day][j])
    case NothingOpen => forall day :: day in raw ==> raw[day] == []
  }

  /** The two nested loops that look for an overlapping pair. */
  method FindOverlap(intervals: seq<Window>) returns (overlap: bool)
    requires forall i :: 0 <= i < |intervals| ==> WithinDay(intervals[i])
    ensures overlap <==> !ValidDay(intervals)
    ensures overlap ==> exists i, j :: 0 <= i < j < |intervals| && !Disjoint(intervals[i], intervals[j])
  {
    for i := 0 to |intervals|
      invariant forall p, q :: 0 <= p < i && p < q < |intervals| ==> Disjoint(intervals[p], intervals[q])
    {
      for j := i + 1 to |intervals|
        invariant forall q :: i < q < j ==> Disjoint(intervals[i], intervals[q])
      {
        var a, b := intervals[i], intervals[j];
        if a.start < b.end && b.start < a.end {
          assert !Disjoint(intervals[i], intervals[j]);
          return true;
        }
      }
    }
    return false;
  }

  method ParseDay(raw: Payload, day: string) returns (fault: Option<Fault>)
    requires day in raw
    ensures fault.None? <==> AcceptableDay(raw, day)
    ensures fault.Some? ==> Blames(raw, fault.value) && fault.value != NothingOpen
  {
    if day !in DAY_KEYS {
      return Some(UnknownDay(day));
    }
    var pairs := raw[day];
    var intervals: seq<Window> := [];
    for i := 0 to |pairs|
      invariant |intervals| == i
      invariant forall k :: 0 <= k < i ==> Opens(pairs[k]) && intervals[k] == ToWindow(pairs[k])
    {
      if pairs[i].NotAPair? {
        return Some(BadShape(day));
      }
      if pairs[i].start.None? || pairs[i].end.None? {
        return Some(Unparseable(day));
      }
      if pairs[i].start.value >= pairs[i].end.value {
        return Some(StartNotBeforeEnd(day));
      }
      intervals := intervals + [ToWindow(pairs[i])];
    }
    assert intervals == ToWindows(pairs);
    var overlap := FindOverlap(intervals);
    if overlap {
      ghost var i, j :| 0 <= i < j < |intervals| && !Disjoint(intervals[i], intervals[j]);
      assert Overlap(pairs[i], pairs[j]);
      return Some(Overlapping(day));
    }
    return None;
  }

  /** A payload is accepted exactly when it meets every documented rule; a rejection names a rule that is broken. */
  method ParseBusinessHours(raw: Payload) returns (fault: Option<Fault>)
    ensures fault.None? <==> Acceptable(raw)
    ensures fault.Some? ==> Blames(raw, fault.value)
  {
    var hasAnyOpenInterval := false;
    var todo := raw.Keys;
    while todo != {}
      invariant todo <= raw.Keys
      invariant forall day :: day in raw && day !in todo ==> AcceptableDay(raw, day)
      invariant hasAnyOpenInterval <==> exists day :: day in raw && day !in todo && raw[day] != []
      decreases |todo|
    {
      var day :| day in todo;
      var dayFault := ParseDay(raw, day);
      if dayFault.Some? {
        return dayFault;
      }
      hasAnyOpenInterval := hasAnyOpenInterval || raw[day] != [];
      todo := todo - {day};
    }
    fault := if hasAnyOpenInterval then None else Some(NothingOpen);
  }

  /** The schedule an accepted payload denotes. */
  ghost function ToSchedule(raw: Payload): (s: Schedule)
    requires Acceptable(raw)
    ensures ValidSchedule(s)
  {
    map k | 0 <= k < 7 && DAY_KEYS[k] in raw :: ToWindows(raw[DAY_KEYS[k]])
  }

  /** The windows listed under a day's name; a day that is not named is closed. */
  function Listed(raw: Payload, day: string): seq<(int, int)>
    requires Acceptable(raw)
  {
    if day !in raw then []
    else seq(|raw[day]|, i requires 0 <= i < |raw[day]| =>
               assert AcceptableDay(raw, day) && Opens(raw[day][i]);
               (raw[day][i].start.value, raw[day][i].end.value))
  }

  function Pairs(ws: seq<Window>): seq<(int, int)> {
    seq(|ws|, i requires 0 <= i < |ws| => (ws[i].start, ws[i].end))
  }

  function DayName(k: int): string
    requires 0 <= k < 7
  {
    match k
    case 0 => "mon"
    case 1 => "tue"
    case 2 => "wed"
    case 3 => "thu"
    case 4 => "fri"
    case 5 => "sat"
    case _ => "sun"
  }

  /** Day 0 is a Monday: each day of every week has the windows listed under its name, in their order. */
  lemma WeekListed(raw: Payload, week: int, k: int)
    requires Acceptable(raw) && 0 <= k < 7
    ensures Pairs(WindowsOn(ToSchedule(raw), 7 * week + k)) == Listed(raw, DayName(k))
  {
    assert (7 * week + k) % 7 == k;
  }

  // --- order of the windows within a day ---

  predicate SortedByStart(ws: seq<Window>) {
    forall i, j :: 0 <= i < j < |ws| ==> ws[i].start <= ws[j].start
  }

  lemma {:induction false} TwiceInMultiset(ws: seq<Window>, w: Window) returns (i: nat, j: nat)
    requires multiset(ws)[w] >= 2
    ensures i < j < |ws| && ws[i] == w == ws[j]
  {
    var n := |ws| - 1;
    assert ws == ws[..n] + [ws[n]];
    if ws[n] == w {
      assert w in multiset(ws[..n]);
      i :| 0 <= i < n && ws[..n][i] == w;
      j := n;
    } else {
      i, j := TwiceInMultiset(ws[..n], w);
    }
  }

  lemma {:induction false} TwiceInSeq(ws: seq<Window>, i: nat, j: nat)
    requires i < j < |ws| && ws[i] == ws[j]
    ensures multiset(ws)[ws[i]] >= 2
  {
    assert ws == ws[..j] + [ws[j]] + ws[j + 1..];
    assert ws[..j][i] in multiset(ws[..j]);
  }

  lemma ValidDistinct(ws: seq<Window>, w: Window)
    requires ValidDay(ws)
    ensures multiset(ws)[w] <= 1
  {
    if multiset(ws)[w] >= 2 {
      var i, j := TwiceInMultiset(ws, w);
    }
  }

  /** The pairwise check does not depend on the order in which the windows are listed. */
  lemma PermutationValid(ws: seq<Window>, sorted: seq<Window>)
    requires multiset(ws) == multiset(sorted) && ValidDay(ws)
    ensures ValidDay(sorted)
  {
    forall i | 0 <= i < |sorted| ensures WithinDay(sorted[i]) {
      assert sorted[i] in multiset(ws);
    }
    forall i, j | 0 <= i < j < |sorted| ensures Disjoint(sorted[i], sorted[j]) {
      if sorted[i] == sorted[j] {
        TwiceInSeq(sorted, i, j);
        ValidDistinct(ws, sorted[i]);
      } else {
        assert sorted[i] in multiset(ws) && sorted[j] in multiset(ws);
        var p :| 0 <= p < |ws| && ws[p] == sorted[i];
        var q :| 0 <= q < |ws| && ws[q] == sorted[j];
        assert if p < q then Disjoint(ws[p], ws[q]) else Disjoint(ws[q], ws[p]);
      }
    }
  }

  /** Each window ends no later than the next one starts. */
  predicate Neighbourly(ws: seq<Window>) { forall i :: 0 < i < |ws| ==> ws[i - 1].end <= ws[i].start }

  lemma ValidSortedAscends(ws: seq<Window>)
    requires ValidDay(ws) && SortedByStart(ws)
    ensures AscendingDay(ws) && Neighbourly(ws)
  {
    forall i, j | 0 <= i < j < |ws| ensures ws[i].end <= ws[j].start {
      assert Disjoint(ws[i], ws[j]) && WithinDay(ws[j]);
    }
  }

  lemma NeighbourlyValid(ws: seq<Window>)
    requires SortedByStart(ws) && Neighbourly(ws) && forall i :: 0 <= i < |ws| ==> WithinDay(ws[i])
    ensures ValidDay(ws)
  {
    forall i, j | 0 <= i < j < |ws| ensures Disjoint(ws[i], ws[j]) {
      assert ws[i].end <= ws[i + 1].start <= ws[j].start;
    }
  }

  lemma PermutationWithinDay(ws: seq<Window>, sorted: seq<Window>)
    requires multiset(ws) == multiset(sorted) && forall i :: 0 <= i < |ws| ==> WithinDay(ws[i])
    ensures forall i :: 0 <= i < |sorted| ==> WithinDay(sorted[i])
  {
    forall i | 0 <= i < |sorted| ensures WithinDay(sorted[i]) {
      assert sorted[i] in multiset(ws);
    }
  }

  /** The pairwise overlap check on any listing is the neighbour check on the listing sorted by start. */
  lemma PairwiseIffNeighbours(ws: seq<Window>, sorted: seq<Window>)
    requires multiset(ws) == multiset(sorted) && SortedByStart(sorted)
    requires forall i :: 0 <= i < |ws| ==> WithinDay(ws[i])
    ensures ValidDay(ws) <==> Neighbourly(sorted)
    ensures ValidDay(ws) ==> ValidDay(sorted) && AscendingDay(sorted)
  {
    PermutationWithinDay(ws, sorted);
    if ValidDay(ws) {
      PermutationValid(ws, sorted);
      ValidSortedAscends(sorted);
    }
    if Neighbourly(sorted) {
      NeighbourlyValid(sorted);
      PermutationValid(sorted, ws);
    }
  }

  // --- when the walk is exact for the schedule itself ---

  lemma EffectiveWellFormed(z: Zone, s: Schedule)
    requires ValidSchedule(s) && Regular(z, s)
    ensures ValidSchedule(Effective(s)) && Ascending(Effective(s)) && Regular(z, Effective(s))
    ensures Ascending(s) ==> Effective(s) == s
  {
    hide Records, AscendingDay, ValidDay, Regular;
    forall k | k in s ensures ValidDay(Records(s[k])) && AscendingDay(Records(s[k])) {
      RecordsAscending(s[k]);
    }
    EffectiveRegular(z, s);
    if Ascending(s) {
      forall k | k in s ensures Records(s[k]) == s[k] { KeepsAllIffAscending(s[k]); }
    }
  }

  lemma EffectiveRegular(z: Zone, s: Schedule)
    requires Regular(z, s)
    ensures Regular(z, Effective(s))
  {
    hide Effective, IsRecord, WindowsOn;
    forall d, w | w in WindowsOn(Effective(s), d) ensures w in WindowsOn(s, d) {
      EffectiveMembers(s, d, w);
    }
  }

  lemma SameWindowsSameOpen(z: Zone, s: Schedule, s': Schedule, u: int)
    requires forall d, w :: w in WindowsOn(s, d) <==> w in WindowsOn(s', d)
    ensures Open(z, s, u) <==> Open(z, s', u)
  {
  }

  /** Sorting each day by start makes the walk exact for the schedule as the organization wrote it. */
  lemma SortedScheduleExact(z: Zone, s: Schedule, sorted: Schedule, from: int, budget: int, r: SlaWalk.DueResult)
    requires ValidSchedule(s) && Regular(z, s) && s.Keys == sorted.Keys
    requires forall k :: k in s ==> multiset(s[k]) == multiset(sorted[k]) && SortedByStart(sorted[k])
    ensures ValidSchedule(sorted) && Ascending(sorted) && Regular(z, sorted)
    ensures SlaWalk.Meets(z, Effective(sorted), from, budget, r) <==> SlaWalk.Meets(z, s, from, budget, r)
  {
    forall k | k in s
      ensures ValidDay(sorted[k]) && AscendingDay(sorted[k])
      ensures forall w :: w in s[k] <==> w in sorted[k]
    {
      PairwiseIffNeighbours(s[k], sorted[k]);
      assert forall w :: w in s[k] <==> w in multiset(s[k]);
      assert forall w :: w in sorted[k] <==> w in multiset(sorted[k]);
    }
    assert forall d, w :: w in WindowsOn(s, d) <==> w in WindowsOn(sorted, d);
    EffectiveWellFormed(z, sorted);
    forall u ensures Open(z, s, u) <==> Open(z, sorted, u) { SameWindowsSameOpen(z, s, sorted, u); }
    forall x { OpenTimeSame(z, s, sorted, from, x); }
  }

  /** A window disjoint from `w`, or on another day, does not cover the instant at which `w` opens. */
  lemma NotAtItsStart(z: Zone, s: Schedule, k: int, w: Window, e: int, v: Window)
    requires ValidSchedule(s) && Regular(z, s) && w in WindowsOn(s, k) && v in WindowsOn(s, e)
    requires z.toUtc(At(k, w.start)) < z.toUtc(At(k, w.end)) && (e == k ==> Disjoint(v, w))
    ensures !Covers(z, e, v, z.toUtc(At(k, w.start)))
  {
    CoversBetween(z, e, v, z.toUtc(At(k, w.start)));
    assert WithinDay(v) && WithinDay(w);
    if e != k {
      SlaBooks.OtherDay(z, s, k, e, v);
      PassesOnceMonotone(z, At(k, 0), At(k, w.start));
      PassesOnceMonotone(z, At(k, w.end), At(k + 1, 0));
    } else if v.end <= w.start {
      PassesOnceMonotone(z, At(k, v.end), At(k, w.start));
    } else {
      PassesOnceMonotone(z, At(k, w.end), At(k, v.start));
    }
  }

  /** A window of the same day that the walk sees is another one than one it never sees. */
  lemma SeenIsDisjoint(s: Schedule, e: int, k: int, v: Window, w: Window)
    requires ValidSchedule(s) && w in WindowsOn(s, k) && w !in WindowsOn(Effective(s), k)
    requires v in WindowsOn(Effective(s), e)
    ensures v in WindowsOn(s, e) && (e == k ==> Disjoint(v, w))
  {
    EffectiveMembers(s, e, v);
    if e == k {
      hide Effective;
      assert v != w;
      assert Disjoint(v, w) || Disjoint(w, v);
    }
  }

  /** A window the walk never sees: at its start the schedule is open, and nothing the walk sees is. */
  lemma UnseenWindow(z: Zone, s: Schedule, k: int, w: Window)
    requires ValidSchedule(s) && Regular(z, s) && w in WindowsOn(s, k) && w !in WindowsOn(Effective(s), k)
    requires z.toUtc(At(k, w.start)) < z.toUtc(At(k, w.end))
    ensures Open(z, s, z.toUtc(At(k, w.start))) && !Open(z, Effective(s), z.toUtc(At(k, w.start)))
  {
    var u := z.toUtc(At(k, w.start));
    assert PassesOnce(z, At(k, w.start)) && PassesOnce(z, At(k, w.end));
    hide Regular, Covers, Effective, ValidSchedule, WindowsOn, At, PassesOnce;
    CoversBetween(z, k, w, u);
    assert Covers(z, k, w, u);
    forall e, v | v in WindowsOn(Effective(s), e) ensures !Covers(z, e, v, u) {
      SeenIsDisjoint(s, e, k, v, w);
      NotAtItsStart(z, s, k, w, e, v);
    }
  }

  /** On every start and budget, what the walk returns is right for the schedule itself. */
  ghost predicate WalkExact(z: Zone, s: Schedule) {
    forall from, budget :: budget > 0 ==> SlaWalk.Meets(z, s, from, budget, SlaWalk.Walk(z, s, from, budget))
  }

  /** No window has lost its whole length to a skipped hour. */
  ghost predicate RealWindows(z: Zone, s: Schedule) {
    forall d, w :: w in WindowsOn(s, d) ==> z.toUtc(At(d, w.start)) < z.toUtc(At(d, w.end))
  }

  /** A day listed out of order gives a start and a budget for which the walk's answer is wrong. */
  lemma OutOfOrderWitness(z: Zone, s: Schedule, k: int) returns (u: int)
    requires ValidSchedule(s) && Regular(z, s) && RealWindows(z, s)
    requires k in s && !AscendingDay(s[k])
    ensures !SlaWalk.Meets(z, s, u, 1, SlaWalk.Walk(z, s, u, 1))
  {
    SlaWalk.EffectiveDay(s, k);
    assert WindowsOn(s, k) == s[k];
    hide Regular, SlaWalk.Meets, SlaWalk.Walk, Effective, Open, Records, ValidDay, AscendingDay;
    KeepsAllIffAscending(s[k]);
    var w := DroppedWindow(s[k]);
    UnseenWindow(z, s, k, w);
    u := z.toUtc(At(k, w.start));
    SlaDue.WalkMeets(z, s, u, 1);
    NotExact(z, s, Effective(s), u, SlaWalk.Walk(z, s, u, 1));
  }

  /** The walk is exact for an accepted schedule exactly when every day lists its windows in ascending order. */
  lemma ExactIffAscending(z: Zone, s: Schedule)
    requires ValidSchedule(s) && Regular(z, s) && RealWindows(z, s)
    ensures WalkExact(z, s) <==> Ascending(s)
  {
    hide Regular, SlaWalk.Meets, SlaWalk.Walk, RealWindows, Effective;
    EffectiveWellFormed(z, s);
    if !Ascending(s) {
      var k :| k in s && !AscendingDay(s[k]);
      var u := OutOfOrderWitness(z, s, k);
    } else {
      forall from, budget | budget > 0
        ensures SlaWalk.Meets(z, s, from, budget, SlaWalk.Walk(z, s, from, budget))
      {
        SlaDue.WalkMeets(z, s, from, budget);
      }
    }
  }

  lemma {:induction false} DroppedWindow(ws: seq<Window>) returns (w: Window)
    requires ValidDay(ws) && Records(ws) != ws
    ensures w in ws && w !in Records(ws)
  {
    var n := |ws| - 1;
    if Records(ws[..n]) != ws[..n] {
      w := DroppedWindow(ws[..n]);
      var i :| 0 <= i < n && ws[i] == w;
      assert Disjoint(ws[i], ws[n]);
    } else {
      w := ws[n];
      forall i | 0 <= i < n ensures ws[i] != w { assert Disjoint(ws[i], ws[n]); }
      assert w !in ws[..n];
    }
  }

  /** The walk for `e` cannot be right for `s` at an instant where only `s` is open. */
  lemma NotExact(z: Zone, s: Schedule, e: Schedule, u: int, r: SlaWalk.DueResult)
    requires Regular(z, s) && SlaWalk.Meets(z, e, u, 1, r)
    requires Open(z, s, u) && !Open(z, e, u)
    ensures !SlaWalk.Meets(z, s, u, 1, r)
  {
    assert OpenTime(z, s, u, u + 1) == 1 && OpenTime(z, e, u, u + 1) == 0;
    hide Open, OpenTime;
    assert u + 1 <= SlaWalk.Horizon(z, u) by {
      assert PassesOnce(z, At(DayOf(z.toLocal(u)) + SlaWalk.MAX_WALK_DAYS, 0));
    }
    hide Regular;
    SlaLaws.OpenTimeMonotone(z, s, u, u + 1, SlaWalk.Horizon(z, u));
  }

  /** An accepted payload on which the walk is wrong: Monday lists its afternoon before its morning. */
  lemma DescendingDayAccepted()
    ensures var afternoon := Pair(Some(14 * HOUR), Some(18 * HOUR));
            var morning := Pair(Some(9 * HOUR), Some(12 * HOUR));
            var raw := map["mon" := [afternoon, morning]];
            Acceptable(raw) && !WalkExact(ConstantOffset(0), ToSchedule(raw))
  {
    var afternoon := Pair(Some(14 * HOUR), Some(18 * HOUR));
    var morning := Pair(Some(9 * HOUR), Some(12 * HOUR));
    var raw := map["mon" := [afternoon, morning]];
    assert DAY_KEYS[0] == "mon";
    assert AcceptableDay(raw, "mon");
    var s: Schedule := ToSchedule(raw);
    var monday: seq<Window> := s[0];
    assert monday[1].end <= monday[0].start;
    assert RealWindows(ConstantOffset(0), s) by {
      forall d, w: Window | w in WindowsOn(s, d) ensures w.start < w.end { assert WithinDay(w); }
    }
    ConstantOffsetRegular(0, s);
    ExactIffAscending(ConstantOffset(0), s);
  }
}
