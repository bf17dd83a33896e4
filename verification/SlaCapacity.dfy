/**
  How much time a schedule is open in a zone with a constant offset. From midnight to the end of a window it is the
  length of the windows up to that one, so a day is open for the length of its windows, a row of days for the sum of
  theirs, and any seven days in a row for the capacity of one week, whichever weekday comes first; as many weeks as one
  likes are open for so many times that capacity. Everything is counted in microseconds, and on ascending days.
 */
module SlaCapacity {
  import opened BusinessCalendar
  import opened SlaBooks

  function Length(ws: seq<Window>): int {
    if ws == [] then 0 else Length(ws[..|ws| - 1]) + (ws[|ws| - 1].end - ws[|ws| - 1].start)
  }

  /** Under a constant offset, an instant of day `d` is open exactly when a window of that day covers it. */
  lemma OpenOnDay(offset: int, s: Schedule, d: int, u: int)
    requires ValidSchedule(s) && At(d, 0) <= u + offset < At(d + 1, 0)
    ensures Open(ConstantOffset(offset), s, u)
            <==> exists w :: w in WindowsOn(s, d) && At(d, w.start) <= u + offset < At(d, w.end)
  {
    var z := ConstantOffset(offset);
    forall e, w | w in WindowsOn(s, e) && Covers(z, e, w, u) ensures e == d {
      assert WithinDay(w);
    }
    if exists w :: w in WindowsOn(s, d) && At(d, w.start) <= u + offset < At(d, w.end) {
      var w :| w in WindowsOn(s, d) && At(d, w.start) <= u + offset < At(d, w.end);
      assert Covers(z, d, w, u);
    }
  }

  /** Where the stretch before window `k` of an ascending day begins: midnight, or the previous window's end. */
  function Before(ws: seq<Window>, k: nat): int
    requires k < |ws|
  {
    if k == 0 then 0 else ws[k - 1].end
  }

  lemma AroundWindow(offset: int, s: Schedule, d: int, k: nat)
    requires ValidSchedule(s) && Ascending(s) && k < |WindowsOn(s, d)|
    ensures var ws := WindowsOn(s, d);
      && 0 <= Before(ws, k) <= ws[k].start < ws[k].end
      && Idle(ConstantOffset(offset), s, At(d, Before(ws, k)) - offset, At(d, ws[k].start) - offset)
      && Busy(ConstantOffset(offset), s, At(d, ws[k].start) - offset, At(d, ws[k].end) - offset)
  {
    var z, ws := ConstantOffset(offset), WindowsOn(s, d);
    assert WithinDay(ws[k]) && (k > 0 ==> WithinDay(ws[k - 1]));
    forall u | At(d, Before(ws, k)) - offset <= u < At(d, ws[k].start) - offset ensures !Open(z, s, u) {
      OpenOnDay(offset, s, d, u);
    }
    forall u | At(d, ws[k].start) - offset <= u < At(d, ws[k].end) - offset ensures Open(z, s, u) {
      OpenOnDay(offset, s, d, u);
    }
  }

  lemma LengthStep(ws: seq<Window>, k: nat)
    requires k < |ws|
    ensures Length(ws[..k + 1]) == Length(ws[..k]) + (ws[k].end - ws[k].start)
    ensures Length(ws[..0]) == 0
  {
    assert ws[..k + 1][..k] == ws[..k];
  }

  /** The open time from midnight to the end of window `k` is the length of the windows up to it. */
  lemma {:induction false} OpenPrefix(offset: int, s: Schedule, d: int, k: nat)
    requires ValidSchedule(s) && Ascending(s) && k < |WindowsOn(s, d)|
    ensures OpenTime(ConstantOffset(offset), s, At(d, 0) - offset, At(d, WindowsOn(s, d)[k].end) - offset)
            == Length(WindowsOn(s, d)[..k + 1])
  {
    var z, ws := ConstantOffset(offset), WindowsOn(s, d);
    hide Idle, Busy, Ascending, ValidSchedule, ConstantOffset, Open, WindowsOn, Length;
    AroundWindow(offset, s, d, k);
    LengthStep(ws, k);
    if k > 0 { OpenPrefix(offset, s, d, k - 1); }
    Accrue(z, s, At(d, 0) - offset, At(d, Before(ws, k)) - offset, At(d, ws[k].start) - offset,
           At(d, ws[k].end) - offset);
  }

  /** Where the open part of a day is over: midnight of a closed day, or its last window's end. */
  function LastEnd(ws: seq<Window>): int {
    if ws == [] then 0 else ws[|ws| - 1].end
  }

  lemma AfterLastWindow(offset: int, s: Schedule, d: int)
    requires ValidSchedule(s) && Ascending(s)
    ensures 0 <= LastEnd(WindowsOn(s, d)) < 86_400_000_000
    ensures Idle(ConstantOffset(offset), s, At(d, LastEnd(WindowsOn(s, d))) - offset, At(d + 1, 0) - offset)
  {
    var ws := WindowsOn(s, d);
    assert ws != [] ==> WithinDay(ws[|ws| - 1]);
    forall u | At(d, LastEnd(ws)) - offset <= u < At(d + 1, 0) - offset ensures !Open(ConstantOffset(offset), s, u) {
      OpenOnDay(offset, s, d, u);
    }
  }

  lemma OpenDay(offset: int, s: Schedule, d: int)
    requires ValidSchedule(s) && Ascending(s)
    ensures OpenTime(ConstantOffset(offset), s, At(d, 0) - offset, At(d + 1, 0) - offset)
            == Length(WindowsOn(s, d))
  {
    hide Idle, Ascending, ValidSchedule, ConstantOffset, Open, WindowsOn;
    var z, ws, n := ConstantOffset(offset), WindowsOn(s, d), |WindowsOn(s, d)|;
    AfterLastWindow(offset, s, d);
    if n > 0 {
      OpenPrefix(offset, s, d, n - 1);
      assert ws[..n] == ws;
    }
    var midnight := At(d + 1, 0) - offset;
    EmptyBusy(z, s, midnight);
    Accrue(z, s, At(d, 0) - offset, At(d, LastEnd(ws)) - offset, midnight, midnight);
  }

  lemma EmptyBusy(z: Zone, s: Schedule, a: int)
    ensures Busy(z, s, a, a)
  {
  }

  /** Lengths of the windows of days `d`, `d + 1`, ..., `d + n - 1`. */
  function DaysLength(s: Schedule, d: int, n: nat): int {
    if n == 0 then 0 else DaysLength(s, d, n - 1) + Length(WindowsOn(s, d + n - 1))
  }

  /** Open microseconds the schedule lists for one week. */
  function WeeklyCapacity(s: Schedule): int { DaysLength(s, 0, 7) }

  lemma {:induction false} OpenDays(offset: int, s: Schedule, d: int, n: nat)
    requires ValidSchedule(s) && Ascending(s)
    ensures OpenTime(ConstantOffset(offset), s, At(d, 0) - offset, At(d + n, 0) - offset) == DaysLength(s, d, n)
  {
    if n > 0 {
      OpenDays(offset, s, d, n - 1);
      OpenDay(offset, s, d + n - 1);
      OpenTimeSplit(ConstantOffset(offset), s, At(d, 0) - offset, At(d + n - 1, 0) - offset, At(d + n, 0) - offset);
    }
  }

  lemma {:induction false} DaysLengthSplit(s: Schedule, d: int, m: nat, n: nat)
    ensures DaysLength(s, d, m + n) == DaysLength(s, d, m) + DaysLength(s, d + m, n)
  {
    if n > 0 { DaysLengthSplit(s, d, m, n - 1); }
  }

  lemma OneDayLength(s: Schedule, d: int)
    ensures DaysLength(s, d, 1) == Length(WindowsOn(s, d)) && WindowsOn(s, d + 7) == WindowsOn(s, d)
  {
    assert DaysLength(s, d, 0) == 0;
  }

  /** Dropping a day and taking the same weekday of the next week makes no difference. */
  lemma ShiftDay(s: Schedule, d: int)
    ensures DaysLength(s, d, 7) == DaysLength(s, d + 1, 7)
  {
    OneDayLength(s, d);
    OneDayLength(s, d + 7);
    DaysLengthSplit(s, d, 1, 7);
    DaysLengthSplit(s, d, 7, 1);
  }

  /** Any seven consecutive days hold one week's capacity. */
  lemma {:induction false} AnySevenDays(s: Schedule, d: int)
    ensures DaysLength(s, d, 7) == WeeklyCapacity(s)
    decreases if d < 0 then -d else d
  {
    hide DaysLength;
    if d < 0 {
      ShiftDay(s, d);
      AnySevenDays(s, d + 1);
    } else if d > 0 {
      ShiftDay(s, d - 1);
      AnySevenDays(s, d - 1);
    }
  }

  /** `weeks` times the capacity, by addition. */
  function Weeks(weeks: nat, capacity: int): int { if weeks == 0 then 0 else Weeks(weeks - 1, capacity) + capacity }

  lemma {:induction false} WeeksProduct(weeks: nat, capacity: int)
    ensures Weeks(weeks, capacity) == weeks * capacity
  {
    if weeks > 0 { WeeksProduct(weeks - 1, capacity); }
  }

  lemma {:induction false} WeeksLength(s: Schedule, d: int, weeks: nat)
    ensures DaysLength(s, d, 7 * weeks) == Weeks(weeks, WeeklyCapacity(s))
  {
    assert DaysLength(s, d, 0) == 0;
    hide DaysLength, WeeklyCapacity;
    if weeks > 0 {
      WeeksLength(s, d, weeks - 1);
      DaysLengthSplit(s, d, 7 * (weeks - 1), 7);
      AnySevenDays(s, d + 7 * (weeks - 1));
    }
  }
}
