/**
  Daily analytics: local days tile UTC time, open tickets are conserved from day to day, and the nightly rollup
  stores exactly the rows of the metric families that succeeded.
 */
module Analytics {
  import opened Wrappers
  import opened BusinessCalendar

  // --- days ---

  /** `local_day_utc_bounds`: the UTC range from local midnight to the next. */
  function Bounds(z: Zone, d: int): (int, int) {
    (z.toUtc(At(d, 0)), z.toUtc(At(d + 1, 0)))
  }

  predicate Within(b: (int, int), u: int) { b.0 <= u < b.1 }

  /** The half-open ranges put every instant in exactly one day: the day its local clock shows. */
  lemma DaysTile(z: Zone, d: int, u: int)
    requires RegularMidnights(z)
    ensures Within(Bounds(z, d), u) <==> d == DayOf(z.toLocal(u))
    ensures Bounds(z, d).0 <= Bounds(z, d).1 == Bounds(z, d + 1).0
  {
    assert PassesOnce(z, At(d, 0)) && PassesOnce(z, At(d + 1, 0));
    PassesOnceMonotone(z, At(d, 0), At(d + 1, 0));
  }

  // --- ticket counts ---

  datatype Ticket = Ticket(createdAt: int, closedAt: Option<int>)

  function CreatedCount(ts: seq<Ticket>, b: (int, int)): nat {
    if ts == [] then 0
    else CreatedCount(ts[..|ts| - 1], b) + if Within(b, ts[|ts| - 1].createdAt) then 1 else 0
  }

  predicate OpenAt(t: Ticket, end: int) {
    t.createdAt < end && (t.closedAt.None? || t.closedAt.value >= end)
  }

  function OpenCount(ts: seq<Ticket>, b: (int, int)): nat {
    if ts == [] then 0
    else OpenCount(ts[..|ts| - 1], b) + if OpenAt(ts[|ts| - 1], b.1) then 1 else 0
  }

  function ClosedCount(ts: seq<Ticket>, b: (int, int)): nat {
    if ts == [] then 0
    else
      var c := ts[|ts| - 1].closedAt;
      ClosedCount(ts[..|ts| - 1], b) + if c.Some? && Within(b, c.value) then 1 else 0
  }

  predicate ClosedAfterCreated(ts: seq<Ticket>) {
    forall i :: 0 <= i < |ts| && ts[i].closedAt.Some? ==> ts[i].createdAt <= ts[i].closedAt.value
  }

  lemma {:induction false} OpenConservedRange(ts: seq<Ticket>, yesterday: (int, int), today: (int, int))
    requires ClosedAfterCreated(ts) && yesterday.1 == today.0 <= today.1
    ensures OpenCount(ts, today) + ClosedCount(ts, today) == OpenCount(ts, yesterday) + CreatedCount(ts, today)
  {
    if ts != [] { OpenConservedRange(ts[..|ts| - 1], yesterday, today); }
  }

  /** Tickets open at the end of a day: those open the day before, plus the created, minus the closed. */
  lemma OpenConserved(z: Zone, ts: seq<Ticket>, d: int)
    requires RegularMidnights(z) && ClosedAfterCreated(ts)
    ensures OpenCount(ts, Bounds(z, d)) + ClosedCount(ts, Bounds(z, d))
            == OpenCount(ts, Bounds(z, d - 1)) + CreatedCount(ts, Bounds(z, d))
  {
    DaysTile(z, d, 0);
    DaysTile(z, d - 1, 0);
    OpenConservedRange(ts, Bounds(z, d - 1), Bounds(z, d));
  }

  // --- what the counts count ---

  /** Positions of the tickets created on local day `d`. */
  function CreatedOn(z: Zone, ts: seq<Ticket>, d: int): set<nat> {
    set i: nat | i < |ts| && DayOf(z.toLocal(ts[i].createdAt)) == d
  }

  /** Positions of the tickets created by the end of the day and not closed by then. */
  function OpenOn(z: Zone, ts: seq<Ticket>, d: int): set<nat> {
    set i: nat | i < |ts| && DayOf(z.toLocal(ts[i].createdAt)) <= d
                 && (ts[i].closedAt.None? || DayOf(z.toLocal(ts[i].closedAt.value)) > d)
  }

  function ClosedOn(z: Zone, ts: seq<Ticket>, d: int): set<nat> {
    set i: nat | i < |ts| && ts[i].closedAt.Some? && DayOf(z.toLocal(ts[i].closedAt.value)) == d
  }

  lemma ByEnd(z: Zone, d: int, u: int)
    requires RegularMidnights(z)
    ensures u < Bounds(z, d).1 <==> DayOf(z.toLocal(u)) <= d
  {
    assert PassesOnce(z, At(d + 1, 0));
  }

  /** The last ticket is counted exactly when its position is in the set. */
  lemma CountedAs(z: Zone, ts: seq<Ticket>, d: int)
    requires RegularMidnights(z) && ts != []
    ensures var n := |ts| - 1;
      && (Within(Bounds(z, d), ts[n].createdAt) <==> n in CreatedOn(z, ts, d))
      && (ts[n].closedAt.Some? && Within(Bounds(z, d), ts[n].closedAt.value) <==> n in ClosedOn(z, ts, d))
      && (OpenAt(ts[n], Bounds(z, d).1) <==> n in OpenOn(z, ts, d))
  {
    var t := ts[|ts| - 1];
    DaysTile(z, d, t.createdAt);
    ByEnd(z, d, t.createdAt);
    if t.closedAt.Some? {
      DaysTile(z, d, t.closedAt.value);
      ByEnd(z, d, t.closedAt.value);
    }
    hide RegularMidnights, Bounds;
  }

  lemma OneMorePosition(z: Zone, ts: seq<Ticket>, d: int)
    requires ts != []
    ensures var n := |ts| - 1;
      && |CreatedOn(z, ts, d)| == |CreatedOn(z, ts[..n], d)| + (if n in CreatedOn(z, ts, d) then 1 else 0)
      && |ClosedOn(z, ts, d)| == |ClosedOn(z, ts[..n], d)| + (if n in ClosedOn(z, ts, d) then 1 else 0)
      && |OpenOn(z, ts, d)| == |OpenOn(z, ts[..n], d)| + (if n in OpenOn(z, ts, d) then 1 else 0)
  {
    var n := |ts| - 1;
    var before := ts[..n];
    assert forall i :: 0 <= i < n ==> before[i] == ts[i];
    assert CreatedOn(z, ts, d) - {n} == CreatedOn(z, before, d);
    assert ClosedOn(z, ts, d) - {n} == ClosedOn(z, before, d);
    assert OpenOn(z, ts, d) - {n} == OpenOn(z, before, d);
  }

  /** The stored counts are the numbers of tickets created, closed, and open at the end of the local day. */
  lemma {:induction false} CountsAre(z: Zone, ts: seq<Ticket>, d: int)
    requires RegularMidnights(z)
    ensures CreatedCount(ts, Bounds(z, d)) == |CreatedOn(z, ts, d)|
    ensures ClosedCount(ts, Bounds(z, d)) == |ClosedOn(z, ts, d)|
    ensures OpenCount(ts, Bounds(z, d)) == |OpenOn(z, ts, d)|
  {
    if ts != [] {
      CountsAre(z, ts[..|ts| - 1], d);
      CountedAs(z, ts, d);
      OneMorePosition(z, ts, d);
      hide CreatedOn, ClosedOn, OpenOn, Within, OpenAt, Bounds, RegularMidnights;
    }
  }

  function CreatedOver(z: Zone, ts: seq<Ticket>, d: int, n: nat): nat {
    if n == 0 then 0 else CreatedOver(z, ts, d, n - 1) + CreatedCount(ts, Bounds(z, d + n))
  }

  function ClosedOver(z: Zone, ts: seq<Ticket>, d: int, n: nat): nat {
    if n == 0 then 0 else ClosedOver(z, ts, d, n - 1) + ClosedCount(ts, Bounds(z, d + n))
  }

  /** Over any number of days, the stored series add up. */
  lemma {:induction false} OpenConservedOver(z: Zone, ts: seq<Ticket>, d: int, n: nat)
    requires RegularMidnights(z) && ClosedAfterCreated(ts)
    ensures OpenCount(ts, Bounds(z, d + n)) + ClosedOver(z, ts, d, n)
            == OpenCount(ts, Bounds(z, d)) + CreatedOver(z, ts, d, n)
  {
    if n > 0 {
      OpenConservedOver(z, ts, d, n - 1);
      OpenConserved(z, ts, d + n);
    }
  }

  // --- the rollup ---

  type Key = (int, int, string)   // organization, day, metric
  type Metrics = map<Key, real>

  /** One organization, day and family, with the rows its query returns. */
  datatype Unit = Unit(org: int, day: int, rows: seq<(string, real)>)

  function Upsert(m: Metrics, org: int, day: int, rows: seq<(string, real)>): Metrics {
    if rows == [] then m
    else
      var r := rows[|rows| - 1];
      Upsert(m, org, day, rows[..|rows| - 1])[(org, day, r.0) := r.1]
  }

  /** The units in order; `failed[i]` says that unit `i` raised, and its savepoint is rolled back. */
  function Rollup(m: Metrics, units: seq<Unit>, failed: seq<bool>): Metrics
    requires |failed| == |units|
  {
    if units == [] then m
    else
      var n := |units| - 1;
      var before := Rollup(m, units[..n], failed[..n]);
      if failed[n] then before else Upsert(before, units[n].org, units[n].day, units[n].rows)
  }

  /** The value the rows give a metric: the last row that names it. */
  function RowFor(rows: seq<(string, real)>, metric: string): Option<real> {
    if rows == [] then None
    else if rows[|rows| - 1].0 == metric then Some(rows[|rows| - 1].1)
    else RowFor(rows[..|rows| - 1], metric)
  }

  predicate Names(u: Unit, key: Key) { u.org == key.0 && u.day == key.1 && RowFor(u.rows, key.2).Some? }

  /** The value the successful units give a key: that of the last one that names it. */
  function ValueFor(units: seq<Unit>, failed: seq<bool>, key: Key): Option<real>
    requires |failed| == |units|
  {
    if units == [] then None
    else
      var n := |units| - 1;
      if !failed[n] && Names(units[n], key) then RowFor(units[n].rows, key.2)
      else ValueFor(units[..n], failed[..n], key)
  }

  function Lookup(m: Metrics, key: Key): Option<real> { if key in m then Some(m[key]) else None }

  lemma {:induction false} UpsertLookup(m: Metrics, u: Unit, key: Key)
    ensures Lookup(Upsert(m, u.org, u.day, u.rows), key)
            == if Names(u, key) then RowFor(u.rows, key.2) else Lookup(m, key)
    decreases |u.rows|
  {
    if u.rows != [] { UpsertLookup(m, u.(rows := u.rows[..|u.rows| - 1]), key); }
  }

  /** Whatever units fail, the stored metrics are the old ones overwritten by exactly the successful units' rows. */
  lemma {:induction false} RollupExact(m: Metrics, units: seq<Unit>, failed: seq<bool>, key: Key)
    requires |failed| == |units|
    ensures Lookup(Rollup(m, units, failed), key)
            == if ValueFor(units, failed, key).Some? then ValueFor(units, failed, key) else Lookup(m, key)
  {
    if units != [] {
      var n := |units| - 1;
      RollupExact(m, units[..n], failed[..n], key);
      if !failed[n] { UpsertLookup(Rollup(m, units[..n], failed[..n]), units[n], key); }
    }
  }

  /** Row `j` names the metric, and no later row does. */
  predicate LastRow(rows: seq<(string, real)>, metric: string, j: nat) {
    j < |rows| && rows[j].0 == metric && forall k :: j < k < |rows| ==> rows[k].0 != metric
  }

  /** Unit `i` succeeds and stores the key, from its row `j`, and no later unit that succeeds stores it. */
  ghost predicate LastWrite(units: seq<Unit>, failed: seq<bool>, key: Key, i: nat, j: nat)
    requires |failed| == |units|
  {
    && i < |units| && !failed[i] && units[i].org == key.0 && units[i].day == key.1 && LastRow(units[i].rows, key.2, j)
    && forall k :: i < k < |units| && !failed[k] && units[k].org == key.0 && units[k].day == key.1 ==>
         NamesNot(units[k].rows, key.2)
  }

  predicate NamesNot(rows: seq<(string, real)>, metric: string) {
    forall j :: 0 <= j < |rows| ==> rows[j].0 != metric
  }

  lemma {:induction false} RowForIs(rows: seq<(string, real)>, metric: string, j: nat)
    ensures RowFor(rows, metric).None? <==> NamesNot(rows, metric)
    ensures LastRow(rows, metric, j) ==> RowFor(rows, metric) == Some(rows[j].1)
  {
    if rows != [] {
      var n := |rows| - 1;
      RowForIs(rows[..n], metric, j);
      assert forall k :: 0 <= k < n ==> rows[..n][k] == rows[k];
    }
  }

  /** The rollup stores for a key the last row of the last successful unit that has one for it, and else leaves it. */
  lemma {:induction false} RollupStores(m: Metrics, units: seq<Unit>, failed: seq<bool>, key: Key, i: nat, j: nat)
    requires |failed| == |units|
    ensures LastWrite(units, failed, key, i, j) ==> Lookup(Rollup(m, units, failed), key) == Some(units[i].rows[j].1)
    ensures (forall k :: 0 <= k < |units| && !failed[k] && units[k].org == key.0 && units[k].day == key.1 ==>
               NamesNot(units[k].rows, key.2)) ==>
              Lookup(Rollup(m, units, failed), key) == Lookup(m, key)
  {
    if units != [] {
      var n := |units| - 1;
      RollupStores(m, units[..n], failed[..n], key, i, j);
      assert forall k :: 0 <= k < n ==> units[..n][k] == units[k] && failed[..n][k] == failed[k];
      RowForIs(units[n].rows, key.2, j);
      UpsertLookup(Rollup(m, units[..n], failed[..n]), units[n], key);
    }
  }

  lemma {:induction false} MoreSuccessMoreValues(units: seq<Unit>, failed: seq<bool>, failed': seq<bool>, key: Key)
    requires |failed| == |failed'| == |units| && forall i :: 0 <= i < |units| && failed'[i] ==> failed[i]
    ensures ValueFor(units, failed, key).Some? ==> ValueFor(units, failed', key).Some?
  {
    if units != [] {
      var n := |units| - 1;
      MoreSuccessMoreValues(units[..n], failed[..n], failed'[..n], key);
    }
  }

  lemma SameLookups(m: Metrics, m': Metrics)
    requires forall key :: Lookup(m, key) == Lookup(m', key)
    ensures m == m'
  {
    assert forall key :: key in m <==> Lookup(m, key).Some?;
    assert forall key :: key in m' <==> Lookup(m', key).Some?;
    forall key | key in m ensures m[key] == m'[key] { assert Lookup(m, key) == Lookup(m', key); }
  }

  /**
    A rerun on unchanged data in which every unit succeeds that succeeded before leaves what it would have left alone:
    it makes up for the units that failed, and changes nothing when none did.
   */
  lemma RerunHeals(m: Metrics, units: seq<Unit>, failed: seq<bool>, failed': seq<bool>)
    requires |failed| == |failed'| == |units| && forall i :: 0 <= i < |units| && failed'[i] ==> failed[i]
    ensures Rollup(Rollup(m, units, failed), units, failed') == Rollup(m, units, failed')
  {
    var once := Rollup(m, units, failed);
    forall key ensures Lookup(Rollup(once, units, failed'), key) == Lookup(Rollup(m, units, failed'), key) {
      RollupExact(m, units, failed, key);
      RollupExact(once, units, failed', key);
      RollupExact(m, units, failed', key);
      MoreSuccessMoreValues(units, failed, failed', key);
    }
    SameLookups(Rollup(once, units, failed'), Rollup(m, units, failed'));
  }

  const LOOKBACK_DAYS := 2
  const FAMILIES := 5

  datatype Organization = Organization(id: int, zone: Zone)

  /** What a family's query returns for an organization and day, when it does not raise. */
  type Compute = (int, int, int) -> seq<(string, real)>

  function FamilyUnits(org: int, day: int, compute: Compute, n: nat): (units: seq<Unit>)
    ensures |units| == n
  {
    if n == 0 then [] else FamilyUnits(org, day, compute, n - 1) + [Unit(org, day, compute(org, day, n - 1))]
  }

  /** The completed local days, yesterday first, each with all its families. */
  function DayUnits(o: Organization, now: int, compute: Compute, n: nat): (units: seq<Unit>)
    ensures |units| == n * FAMILIES
  {
    if n == 0 then []
    else DayUnits(o, now, compute, n - 1) + FamilyUnits(o.id, DayOf(o.zone.toLocal(now)) - n, compute, FAMILIES)
  }

  function AllUnits(orgs: seq<Organization>, now: int, compute: Compute): (units: seq<Unit>)
    ensures |units| == |orgs| * (LOOKBACK_DAYS * FAMILIES)
  {
    if orgs == [] then []
    else AllUnits(orgs[..|orgs| - 1], now, compute) + DayUnits(orgs[|orgs| - 1], now, compute, LOOKBACK_DAYS)
  }

  lemma {:induction false} FamilyUnitAt(org: int, day: int, compute: Compute, n: nat, f: nat)
    requires f < n
    ensures FamilyUnits(org, day, compute, n)[f] == Unit(org, day, compute(org, day, f))
  {
    if f < n - 1 { FamilyUnitAt(org, day, compute, n - 1, f); }
  }

  lemma {:induction false} DayUnitAt(o: Organization, now: int, compute: Compute, n: nat, back: nat, f: nat)
    requires 1 <= back <= n && f < FAMILIES
    ensures var day := DayOf(o.zone.toLocal(now)) - back;
      DayUnits(o, now, compute, n)[(back - 1) * FAMILIES + f] == Unit(o.id, day, compute(o.id, day, f))
  {
    if back < n {
      DayUnitAt(o, now, compute, n - 1, back, f);
    } else {
      FamilyUnitAt(o.id, DayOf(o.zone.toLocal(now)) - back, compute, FAMILIES, f);
    }
  }

  /**
    The units of a night: for each organization in turn yesterday and the day before by its own clock, and for each of
    these days the five families, each with the rows its query returns for that organization and day.
   */
  lemma {:induction false} UnitAt(orgs: seq<Organization>, now: int, compute: Compute, i: nat, back: nat, f: nat)
    requires i < |orgs| && 1 <= back <= 2 && f < 5
    ensures |AllUnits(orgs, now, compute)| == 10 * |orgs|
    ensures var org, day := orgs[i].id, DayOf(orgs[i].zone.toLocal(now)) - back;
      AllUnits(orgs, now, compute)[10 * i + 5 * (back - 1) + f] == Unit(org, day, compute(org, day, f))
  {
    var n := |orgs| - 1;
    hide DayUnits;
    DayUnitAt(orgs[n], now, compute, LOOKBACK_DAYS, back, f);
    if i < n { UnitAt(orgs[..n], now, compute, i, back, f); }
  }

  lemma {:induction false} RollupAppend(m: Metrics, a: seq<Unit>, fa: seq<bool>, b: seq<Unit>, fb: seq<bool>)
    requires |fa| == |a| && |fb| == |b|
    ensures Rollup(m, a + b, fa + fb) == Rollup(Rollup(m, a, fa), b, fb)
  {
    if b == [] {
      assert a + b == a && fa + fb == fa;
    } else {
      var n := |b| - 1;
      RollupAppend(m, a, fa, b[..n], fb[..n]);
      assert (a + b)[..|a + b| - 1] == a + b[..n] && (fa + fb)[..|a + b| - 1] == fa + fb[..n];
    }
  }

  lemma RollupOne(m: Metrics, u: Unit, failed: bool)
    ensures Rollup(m, [u], [failed]) == (if failed then m else Upsert(m, u.org, u.day, u.rows))
    ensures Rollup(m, [], []) == m
  {
    assert [u][..0] == [] && [failed][..0] == [];
  }

  class MetricsStore {
    var metrics: Metrics

    constructor (m: Metrics)
      ensures metrics == m
    {
      metrics := m;
    }

    /** The query and the upsert: all the rows, or an exception before, between or after them. */
    method ComputeAndUpsert(u: Unit) returns (raised: bool)
      modifies this
      ensures !raised ==> metrics == Upsert(old(metrics), u.org, u.day, u.rows)
    {
      for i := 0 to |u.rows|
        invariant metrics == Upsert(old(metrics), u.org, u.day, u.rows[..i])
      {
        if * { return true; }
        assert u.rows[..i + 1][..i] == u.rows[..i];
        metrics := metrics[(u.org, u.day, u.rows[i].0) := u.rows[i].1];
      }
      assert u.rows[..|u.rows|] == u.rows;
      if * { return true; }
      return false;
    }

    /** One family in its own savepoint, to which the metrics return when it raises. */
    method RollupFamily(u: Unit) returns (failed: bool)
      modifies this
      ensures metrics == Rollup(old(metrics), [u], [failed])
    {
      var savepoint := metrics;
      failed := ComputeAndUpsert(u);
      if failed {
        metrics := savepoint;
      }
      RollupOne(savepoint, u, failed);
    }

    method RollupDay(org: int, day: int, compute: Compute) returns (failed: seq<bool>)
      modifies this
      ensures |failed| == FAMILIES && metrics == Rollup(old(metrics), FamilyUnits(org, day, compute, FAMILIES), failed)
    {
      hide Rollup;
      RollupOne(metrics, Unit(org, day, []), true);
      failed := [];
      for f := 0 to FAMILIES
        invariant |failed| == f && metrics == Rollup(old(metrics), FamilyUnits(org, day, compute, f), failed)
      {
        var u := Unit(org, day, compute(org, day, f));
        var familyFailed := RollupFamily(u);
        RollupAppend(old(metrics), FamilyUnits(org, day, compute, f), failed, [u], [familyFailed]);
        failed := failed + [familyFailed];
      }
    }

    method RollupOrganization(o: Organization, now: int, compute: Compute) returns (failed: seq<bool>)
      modifies this
      ensures |failed| == LOOKBACK_DAYS * FAMILIES
      ensures metrics == Rollup(old(metrics), DayUnits(o, now, compute, LOOKBACK_DAYS), failed)
    {
      hide Rollup, FamilyUnits;
      RollupOne(metrics, Unit(0, 0, []), true);
      failed := [];
      for offset := 1 to LOOKBACK_DAYS + 1
        invariant |failed| == (offset - 1) * FAMILIES
        invariant metrics == Rollup(old(metrics), DayUnits(o, now, compute, offset - 1), failed)
      {
        var day := DayOf(o.zone.toLocal(now)) - offset;
        var dayFailed := RollupDay(o.id, day, compute);
        RollupAppend(old(metrics), DayUnits(o, now, compute, offset - 1), failed,
                     FamilyUnits(o.id, day, compute, FAMILIES), dayFailed);
        failed := failed + dayFailed;
      }
    }

    /** The nightly job over every organization, completed day and family; it says which units failed. */
    method RollupDailyMetrics(orgs: seq<Organization>, now: int, compute: Compute) returns (failed: seq<bool>)
      modifies this
      ensures |failed| == |AllUnits(orgs, now, compute)|
      ensures metrics == Rollup(old(metrics), AllUnits(orgs, now, compute), failed)
    {
      hide Rollup, DayUnits;
      RollupOne(metrics, Unit(0, 0, []), true);
      failed := [];
      for i := 0 to |orgs|
        invariant |failed| == |AllUnits(orgs[..i], now, compute)|
        invariant metrics == Rollup(old(metrics), AllUnits(orgs[..i], now, compute), failed)
      {
        assert orgs[..i + 1][..i] == orgs[..i];
        var orgFailed := RollupOrganization(orgs[i], now, compute);
        RollupAppend(old(metrics), AllUnits(orgs[..i], now, compute), failed,
                     DayUnits(orgs[i], now, compute, LOOKBACK_DAYS), orgFailed);
        failed := failed + orgFailed;
      }
      assert orgs[..|orgs|] == orgs;
    }
  }
}
