/**
  Weekly business hours, time zones, and the open time between two instants.

  Local wall-clock readings and UTC instants are integers counting microseconds.
  Day 0 is a Monday, so `d % 7` is Python's `date.weekday()`.
 */
module BusinessCalendar {
  const HOUR: int := 3_600_000_000

  /** A `[start, end]` pair, as microseconds past local midnight. */
  datatype Window = Window(start: int, end: int)

  /** Weekday to that day's windows; a missing day is a closed day. */
  type Schedule = map<int, seq<Window>>

  function WindowsOn(s: Schedule, d: int): seq<Window> {
    if d % 7 in s then s[d % 7] else []
  }

  /** The wall-clock reading `tod` past midnight of day `d`. */
  function At(d: int, tod: int): int { d * 86_400_000_000 + tod }

  /** The calendar day of a wall-clock reading. */
  function DayOf(w: int): int { w / 86_400_000_000 }

  /** What `datetime.combine(..., tzinfo=tz).astimezone(UTC)` and `astimezone(tz)` do. */
  datatype Zone = Zone(toUtc: int -> int, toLocal: int -> int)

  /** The zone's clock passes the reading `w` exactly once, at `toUtc(w)`. */
  ghost predicate PassesOnce(z: Zone, w: int) {
    forall u :: w <= z.toLocal(u) <==> z.toUtc(w) <= u
  }

  /** No midnight is skipped or repeated by the zone. */
  ghost predicate RegularMidnights(z: Zone) {
    forall d :: PassesOnce(z, At(d, 0))
  }

  /** Nor is any window edge of the schedule. */
  ghost predicate Regular(z: Zone, s: Schedule) {
    && RegularMidnights(z)
    && (forall d, w :: w in WindowsOn(s, d) ==> PassesOnce(z, At(d, w.start)) && PassesOnce(z, At(d, w.end)))
  }

  lemma PassesOnceMonotone(z: Zone, a: int, b: int)
    requires PassesOnce(z, a) && PassesOnce(z, b) && a <= b
    ensures z.toUtc(a) <= z.toUtc(b)
  {
    var u := z.toUtc(b);
    assert b <= z.toLocal(u);
  }

  function ConstantOffset(offset: int): Zone {
    Zone((w: int) => w - offset, (u: int) => u + offset)
  }

  lemma ConstantOffsetRegular(offset: int, s: Schedule)
    ensures Regular(ConstantOffset(offset), s)
  {
  }

  /**
    A zone that changes offset once, at UTC instant `t`. Like Python's `fold=0`,
    a skipped reading takes the offset before the change and a repeated reading its first occurrence.
   */
  function OneTransition(t: int, before: int, after: int): Zone {
    Zone((w: int) => if w < t + (if before < after then after else before) then w - before else w - after,
         (u: int) => if u < t then u + before else u + after)
  }

  /** A reading is passed once exactly when it is not strictly inside the skipped or repeated stretch. */
  lemma OneTransitionPassesOnce(t: int, before: int, after: int, w: int)
    ensures PassesOnce(OneTransition(t, before, after), w)
            <==> !(t + before < w < t + after) && !(t + after < w < t + before)
  {
    var z := OneTransition(t, before, after);
    if t + before < w < t + after || t + after < w < t + before {
      assert w <= z.toLocal(t) <==> !(z.toUtc(w) <= t);
    }
  }

  // --- open time ---

  /** The local clock shows a time inside the window of day `d`. */
  ghost predicate Covers(z: Zone, d: int, w: Window, u: int) {
    At(d, w.start) <= z.toLocal(u) < At(d, w.end)
  }

  /** When both its edges pass once, a window is open from one to the other. */
  lemma CoversBetween(z: Zone, d: int, w: Window, u: int)
    requires PassesOnce(z, At(d, w.start)) && PassesOnce(z, At(d, w.end))
    ensures Covers(z, d, w, u) <==> z.toUtc(At(d, w.start)) <= u < z.toUtc(At(d, w.end))
  {
  }

  /** The organization is open at UTC instant `u`. */
  ghost predicate Open(z: Zone, s: Schedule, u: int) {
    exists d, w :: w in WindowsOn(s, d) && Covers(z, d, w, u)
  }

  /** How many microseconds of `[a, b)` are open: counted one at a time. */
  ghost function OpenTime(z: Zone, s: Schedule, a: int, b: int): nat
    decreases b - a
  {
    if b <= a then 0 else OpenTime(z, s, a, b - 1) + if Open(z, s, b - 1) then 1 else 0
  }

  lemma {:induction false} OpenTimeSplit(z: Zone, s: Schedule, a: int, b: int, c: int)
    requires a <= b <= c
    ensures OpenTime(z, s, a, c) == OpenTime(z, s, a, b) + OpenTime(z, s, b, c)
    decreases c - b
  {
    if b < c { OpenTimeSplit(z, s, a, b, c - 1); }
  }

  lemma {:induction false} OpenTimeAtMost(z: Zone, s: Schedule, a: int, b: int)
    requires a <= b
    ensures OpenTime(z, s, a, b) <= b - a
    decreases b - a
  {
    if a < b { OpenTimeAtMost(z, s, a, b - 1); }
  }

  lemma {:induction false} OpenTimeAllOpen(z: Zone, s: Schedule, a: int, b: int)
    requires a <= b
    requires forall u :: a <= u < b ==> Open(z, s, u)
    ensures OpenTime(z, s, a, b) == b - a
    decreases b - a
  {
    if a < b { OpenTimeAllOpen(z, s, a, b - 1); }
  }

  lemma {:induction false} OpenTimeAllClosed(z: Zone, s: Schedule, a: int, b: int)
    requires forall u :: a <= u < b ==> !Open(z, s, u)
    ensures OpenTime(z, s, a, b) == 0
    decreases b - a
  {
    if a < b { OpenTimeAllClosed(z, s, a, b - 1); }
  }

  lemma {:induction false} OpenTimeSame(z: Zone, s: Schedule, s': Schedule, a: int, b: int)
    requires forall u :: Open(z, s, u) <==> Open(z, s', u)
    ensures OpenTime(z, s, a, b) == OpenTime(z, s', a, b)
    decreases b - a
  {
    if a < b { OpenTimeSame(z, s, s', a, b - 1); }
  }

  // --- well-formed days ---

  predicate WithinDay(w: Window) { 0 <= w.start < w.end < 86_400_000_000 }

  predicate Disjoint(a: Window, b: Window) { a.end <= b.start || b.end <= a.start }

  /** What the validator demands of one day's windows. */
  predicate ValidDay(ws: seq<Window>) {
    && (forall i :: 0 <= i < |ws| ==> WithinDay(ws[i]))
    && (forall i, j :: 0 <= i < j < |ws| ==> Disjoint(ws[i], ws[j]))
  }

  predicate ValidSchedule(s: Schedule) {
    forall k :: k in s ==> 0 <= k < 7 && ValidDay(s[k])
  }

  predicate AscendingDay(ws: seq<Window>) {
    forall i, j :: 0 <= i < j < |ws| ==> ws[i].end <= ws[j].start
  }

  predicate Ascending(s: Schedule) {
    forall k :: k in s ==> AscendingDay(s[k])
  }

  /** Window `i` ends later than every window listed before it. */
  predicate IsRecord(ws: seq<Window>, i: nat)
    requires i < |ws|
  {
    forall j :: 0 <= j < i ==> ws[j].end < ws[i].end
  }

  /** The windows that end later than every window listed before them. */
  function Records(ws: seq<Window>): seq<Window> {
    if ws == [] then []
    else
      var n := |ws| - 1;
      if IsRecord(ws, n) then Records(ws[..n]) + [ws[n]] else Records(ws[..n])
  }

  /** The schedule the walk actually sees. */
  function Effective(s: Schedule): Schedule {
    map k | k in s :: Records(s[k])
  }

  lemma RecordInPrefix(ws: seq<Window>, n: nat, i: nat)
    requires i < n <= |ws|
    ensures IsRecord(ws[..n], i) <==> IsRecord(ws, i)
  {
    assert forall j :: 0 <= j < n ==> ws[..n][j] == ws[j];
  }

  lemma {:induction false} RecordsMembers(ws: seq<Window>, w: Window)
    ensures w in Records(ws) <==> exists i :: 0 <= i < |ws| && ws[i] == w && IsRecord(ws, i)
  {
    if ws != [] {
      hide IsRecord;
      var n := |ws| - 1;
      RecordsMembers(ws[..n], w);
      if w in Records(ws[..n]) {
        var i :| 0 <= i < n && ws[..n][i] == w && IsRecord(ws[..n], i);
        RecordInPrefix(ws, n, i);
        assert ws[i] == w && IsRecord(ws, i);
      }
      if i :| 0 <= i < |ws| && ws[i] == w && IsRecord(ws, i) {
        if i < n {
          RecordInPrefix(ws, n, i);
          assert ws[..n][i] == w && IsRecord(ws[..n], i);
        }
      }
    }
  }

  lemma EffectiveMembers(s: Schedule, d: int, w: Window)
    ensures w in WindowsOn(Effective(s), d)
            <==> exists i :: 0 <= i < |WindowsOn(s, d)| && WindowsOn(s, d)[i] == w && IsRecord(WindowsOn(s, d), i)
  {
    RecordsMembers(WindowsOn(s, d), w);
  }

  lemma {:induction false} RecordsAscending(ws: seq<Window>)
    requires ValidDay(ws)
    ensures AscendingDay(Records(ws)) && ValidDay(Records(ws))
    ensures forall w :: w in Records(ws) ==> w in ws
  {
    if ws != [] {
      var n := |ws| - 1;
      RecordsAscending(ws[..n]);
      var kept := Records(ws[..n]);
      if Records(ws) != kept {
        forall i | 0 <= i < |kept| ensures kept[i].end <= ws[n].start {
          assert kept[i] in ws[..n];
          var j :| 0 <= j < n && ws[..n][j] == kept[i];
          assert Disjoint(ws[j], ws[n]);
        }
      }
    }
  }

  lemma {:induction false} AscendingKeepsAll(ws: seq<Window>)
    requires ValidDay(ws) && AscendingDay(ws)
    ensures Records(ws) == ws
  {
    if ws != [] {
      var n := |ws| - 1;
      AscendingKeepsAll(ws[..n]);
      forall i | 0 <= i < n ensures ws[..n][i].end < ws[n].end { assert ws[i].end <= ws[n].start; }
    }
  }

  /** Every listed window is seen exactly when the day is listed in ascending order. */
  lemma KeepsAllIffAscending(ws: seq<Window>)
    requires ValidDay(ws)
    ensures AscendingDay(ws) <==> Records(ws) == ws
  {
    if AscendingDay(ws) { AscendingKeepsAll(ws); }
    RecordsAscending(ws);
  }
}
