/** Laws of the due instant that hold for every zone, schedule, start and budget. */
module SlaLaws {
  import opened BusinessCalendar
  import opened SlaWalk
  import opened SlaDue
  import opened SlaCapacity

  lemma OpenTimeMonotone(z: Zone, s: Schedule, a: int, b: int, c: int)
    requires a <= b <= c
    ensures OpenTime(z, s, a, b) <= OpenTime(z, s, a, c)
    ensures OpenTime(z, s, b, c) <= OpenTime(z, s, a, c)
  {
    OpenTimeSplit(z, s, a, b, c);
  }

  /** The walk fails exactly when the budget is not open between the start and the end of the 366th day. */
  lemma ExhaustedIff(z: Zone, s: Schedule, from: int, budget: int, r: DueResult)
    requires Meets(z, s, from, budget, r)
    ensures r.Exhausted? <==> OpenTime(z, s, from, Horizon(z, from)) < budget
  {
    if r.Due? { OpenTimeMonotone(z, s, from, r.at, Horizon(z, from)); }
  }

  /** At most one result meets the specification, so it determines what the walk returns. */
  lemma MeetsUnique(z: Zone, s: Schedule, from: int, budget: int, r: DueResult, r': DueResult)
    requires Meets(z, s, from, budget, r) && Meets(z, s, from, budget, r')
    ensures r == r'
  {
    ExhaustedIff(z, s, from, budget, r);
    ExhaustedIff(z, s, from, budget, r');
  }

  /** Open time grows one microsecond at a time, so every smaller budget has a due instant. */
  lemma {:induction false} FirstReach(z: Zone, s: Schedule, from: int, till: int, budget: int) returns (due: int)
    requires from <= till && 0 < budget <= OpenTime(z, s, from, till)
    ensures from < due <= till && IsDue(z, s, from, budget, due)
    decreases till - from
  {
    if OpenTime(z, s, from, till - 1) >= budget {
      due := FirstReach(z, s, from, till - 1, budget);
    } else {
      due := till;
      forall x | from <= x < till ensures OpenTime(z, s, from, x) < budget {
        OpenTimeMonotone(z, s, from, x, till - 1);
      }
    }
  }

  /** Some result meets the specification, whatever the input. */
  lemma MeetsTotal(z: Zone, s: Schedule, from: int, budget: int) returns (r: DueResult)
    requires 0 < budget
    ensures Meets(z, s, from, budget, r)
  {
    if OpenTime(z, s, from, Horizon(z, from)) < budget {
      r := Exhausted;
    } else {
      var due := FirstReach(z, s, from, Horizon(z, from), budget);
      r := Due(due);
    }
  }

  /** A later start has a later horizon. */
  lemma HorizonMonotone(z: Zone, s: Schedule, a: int, b: int)
    requires Regular(z, s) && a <= b
    ensures Horizon(z, a) <= Horizon(z, b)
  {
    var da, db := DayOf(z.toLocal(a)), DayOf(z.toLocal(b));
    assert PassesOnce(z, At(da, 0));
    assert At(da, 0) <= z.toLocal(b);
    PassesOnceMonotone(z, At(da + MAX_WALK_DAYS, 0), At(db + MAX_WALK_DAYS, 0));
  }

  /** Running two budgets one after the other is running their sum. */
  lemma Sequence(z: Zone, s: Schedule, from: int, a: int, b: int, m: int, due: int)
    requires 0 < a && 0 < b
    requires IsDue(z, s, from, a, m) && IsDue(z, s, m, b, due)
    ensures IsDue(z, s, from, a + b, due)
  {
    OpenTimeSplit(z, s, from, m, due);
    forall x | from <= x < due ensures OpenTime(z, s, from, x) < a + b {
      if x <= m { OpenTimeMonotone(z, s, from, x, m); } else { OpenTimeSplit(z, s, from, m, x); }
    }
  }

  /** When `due(t, a + b)` exists, the walk for `a` returns, and continuing for `b` from there returns the same. */
  lemma Compose(z: Zone, s: Schedule, from: int, a: int, b: int, due: int) returns (m: int)
    requires Regular(z, s) && 0 < a && 0 < b
    requires Meets(z, s, from, a + b, Due(due))
    ensures Meets(z, s, from, a, Due(m)) && Meets(z, s, m, b, Due(due))
  {
    m := FirstReach(z, s, from, due, a);
    OpenTimeSplit(z, s, from, m, due);
    forall x | m <= x < due ensures OpenTime(z, s, m, x) < b {
      OpenTimeSplit(z, s, from, m, x);
    }
    HorizonMonotone(z, s, from, m);
  }

  /** A later start is never due earlier. */
  lemma MonotoneInStart(z: Zone, s: Schedule, from: int, from': int, budget: int, due: int, due': int)
    requires from <= from' && 0 < budget
    requires IsDue(z, s, from, budget, due) && IsDue(z, s, from', budget, due')
    ensures due <= due'
  {
    OpenTimeSplit(z, s, from, from', due');
  }

  /** More hours are due strictly later. */
  lemma MonotoneInBudget(z: Zone, s: Schedule, from: int, budget: int, budget': int, due: int, due': int)
    requires budget < budget'
    requires IsDue(z, s, from, budget, due) && IsDue(z, s, from, budget', due')
    ensures due < due'
  {
    if due' <= due { OpenTimeMonotone(z, s, from, due', due); }
  }

  /** A deadline is at least its budget after its start. */
  lemma DueAfterStart(z: Zone, s: Schedule, from: int, budget: int, due: int)
    requires IsDue(z, s, from, budget, due)
    ensures from + budget <= due
  {
    OpenTimeAtMost(z, s, from, due);
  }

  // --- 52 weeks always fit ---

  /** In a constant-offset zone 52 weeks of an ascending schedule lie within every horizon. */
  lemma FiftyTwoWeeksOpen(offset: int, s: Schedule, from: int, budget: int, r: DueResult)
    requires ValidSchedule(s) && Ascending(s)
    requires 0 < budget <= 52 * WeeklyCapacity(s)
    requires Meets(ConstantOffset(offset), s, from, budget, r)
    ensures r.Due?
  {
    var z := ConstantOffset(offset);
    var d := DayOf(from + offset);
    var a, b := At(d + 1, 0) - offset, At(d + 1 + 364, 0) - offset;
    OpenDays(offset, s, d + 1, 364);
    WeeksLength(s, d + 1, 52);
    WeeksProduct(52, WeeklyCapacity(s));
    OpenTimeMonotone(z, s, from, a, b);
    OpenTimeMonotone(z, s, from, b, Horizon(z, from));
  }

  /**
    In a constant-offset zone the walk over an accepted schedule, in any order, never fails for up to 52 times the
    weekly capacity of the windows it sees.
   */
  lemma FiftyTwoWeeksFit(offset: int, s: Schedule, from: int, budget: int)
    requires ValidSchedule(s) && 0 < budget <= 52 * WeeklyCapacity(Effective(s))
    ensures Walk(ConstantOffset(offset), s, from, budget).Due?
  {
    var z, e := ConstantOffset(offset), Effective(s);
    forall k | k in s ensures ValidDay(Records(s[k])) && AscendingDay(Records(s[k])) { RecordsAscending(s[k]); }
    hide ConstantOffset, ValidDay, AscendingDay, Records, Walk, WeeklyCapacity, Meets;
    ConstantOffsetRegular(offset, s);
    WalkMeets(z, s, from, budget);
    FiftyTwoWeeksOpen(offset, e, from, budget, Walk(z, s, from, budget));
  }
}
