/**
  Every run of monitor passes mixed with ticket, user and read-flag changes: each warning and breach is recorded
  once, a breach never without a warning, and each notifies exactly the recipients of the moment it was recorded.
 */
module SlaMonitorRuns {
  import opened Wrappers
  import opened HelpdeskTypes
  import opened SlaMonitor

  datatype Step =
    | MonitorPass(order: seq<TicketId>, now: int, failed: set<TicketId>)
    | WriteTicket(tid: TicketId, ticket: Ticket)
    | WriteUsers(users: seq<User>)
    | RecordResolved(tid: TicketId)
    | MarkRead(i: nat, at: int)

  predicate Enabled(db: Db, step: Step) {
    match step
    case MonitorPass(order, now, _) => CandidateList(db, order, now) && NoDuplicates(order)
    case WriteTicket(tid, t) =>
      tid in db.tickets ==> t.org == db.tickets[tid].org && t.createdAt == db.tickets[tid].createdAt
    case WriteUsers(users) => DistinctIds(users)
    case RecordResolved(tid) => tid in db.tickets
    case MarkRead(i, _) => i < |db.notifications|
  }

  function Apply(db: Db, step: Step): Db
    requires Enabled(db, step)
  {
    match step
    case MonitorPass(order, now, failed) => Pass(db, order, now, failed)
    case WriteTicket(tid, t) => db.(tickets := db.tickets[tid := t])
    case WriteUsers(users) => db.(users := users)
    case RecordResolved(tid) =>
      db.(events := db.events + [Event(db.nextEventId, tid, ResolvedEvent, db.tickets[tid].dueAt)],
          nextEventId := db.nextEventId + 1)
    case MarkRead(i, at) =>
      if db.notifications[i].readAt.Some? then db
      else db.(notifications := db.notifications[i := db.notifications[i].(readAt := Some(at))])
  }

  ghost predicate IsRun(states: seq<Db>, steps: seq<Step>) {
    && |states| == |steps| + 1
    && states[0] == Db(states[0].tickets, states[0].users, [], [], 0) && DistinctIds(states[0].users)
    && forall i :: 0 <= i < |steps| ==> Enabled(states[i], steps[i]) && states[i + 1] == Apply(states[i], steps[i])
  }

  // --- what notifications an event has ---

  /** The users notified about an event, one entry per notification row. */
  function Notified(ns: seq<Notification>, event: nat): seq<UserId> {
    if ns == [] then []
    else
      var rest, n := Notified(ns[..|ns| - 1], event), ns[|ns| - 1];
      if n.event == event then rest + [n.user] else rest
  }

  lemma {:induction false} NotifiedOther(ns: seq<Notification>, more: seq<Notification>, event: nat)
    requires forall i :: 0 <= i < |more| ==> more[i].event != event
    ensures Notified(ns + more, event) == Notified(ns, event)
  {
    if more == [] {
      assert ns + more == ns;
    } else {
      NotifiedOther(ns, more[..|more| - 1], event);
      assert (ns + more)[..|ns + more| - 1] == ns + more[..|more| - 1];
    }
  }

  lemma {:induction false} NotifiedNone(ns: seq<Notification>, event: nat)
    requires forall i :: 0 <= i < |ns| ==> ns[i].event != event
    ensures Notified(ns, event) == []
  {
    if ns != [] { NotifiedNone(ns[..|ns| - 1], event); }
  }

  lemma {:induction false} NotifiedFanOut(ns: seq<Notification>, ids: seq<UserId>, tid: TicketId,
                                          event: nat, kind: EventKind)
    requires forall i :: 0 <= i < |ns| ==> ns[i].event != event
    ensures Notified(ns + NotificationsFor(ids, tid, event, kind), event) == ids
  {
    var more := NotificationsFor(ids, tid, event, kind);
    if ids == [] {
      assert ns + more == ns;
      NotifiedNone(ns, event);
    } else {
      var n := |ids| - 1;
      NotifiedFanOut(ns, ids[..n], tid, event, kind);
      assert more[..n] == NotificationsFor(ids[..n], tid, event, kind);
      assert (ns + more)[..|ns + more| - 1] == ns + more[..n];
      assert ids == ids[..n] + [ids[n]];
    }
  }

  lemma {:induction false} NotifiedRead(ns: seq<Notification>, i: nat, at: int, event: nat)
    requires i < |ns|
    ensures Notified(ns[i := ns[i].(readAt := Some(at))], event) == Notified(ns, event)
  {
    var n := |ns| - 1;
    var ns' := ns[i := ns[i].(readAt := Some(at))];
    if i < n {
      NotifiedRead(ns[..n], i, at, event);
      assert ns'[..n] == ns[..n][i := ns[..n][i].(readAt := Some(at))];
    } else {
      assert ns'[..n] == ns[..n];
    }
  }

  // --- invariant of a database ---

  ghost predicate Once(events: seq<Event>) {
    forall i, j :: 0 <= i < j < |events| && events[i].ticket == events[j].ticket && events[i].kind == events[j].kind ==>
      events[i].kind.ResolvedEvent?
  }

  ghost predicate Warned(events: seq<Event>, tid: TicketId) {
    HasEvent(events, tid, BreachedEvent) ==> HasEvent(events, tid, WarningEvent)
  }

  ghost predicate Inv(db: Db) {
    && DistinctIds(db.users)
    && (forall i :: 0 <= i < |db.events| ==> db.events[i].id < db.nextEventId)
    && (forall i :: 0 <= i < |db.notifications| ==> db.notifications[i].event < db.nextEventId)
    && Once(db.events)
    && (forall tid :: Warned(db.events, tid))
  }

  /** How a step may extend the tables: nothing recorded changes, and each new event has notified its recipients. */
  ghost predicate Extends(old_: Db, db: Db) {
    && old_.events <= db.events && old_.nextEventId <= db.nextEventId
    && (forall e: nat :: e < old_.nextEventId ==> Notified(db.notifications, e) == Notified(old_.notifications, e))
    && (forall i :: |old_.events| <= i < |db.events| ==> Announced(old_, db, db.events[i]))
  }

  /** A new event that is not a resolution has one notification per recipient, as resolved in the earlier state. */
  ghost predicate Announced(old_: Db, db: Db, e: Event) {
    && e.id >= old_.nextEventId
    && (e.kind.ResolvedEvent? ||
        (&& e.ticket in old_.tickets
         && Notified(db.notifications, e.id) == Recipients(old_.users, old_.tickets[e.ticket])))
  }

  lemma EmitExtends(base: Db, db: Db, tid: TicketId, kind: EventKind)
    requires Inv(db) && Extends(base, db) && tid in db.tickets && !kind.ResolvedEvent?
    requires db.tickets == base.tickets && db.users == base.users
    ensures Extends(base, Emit(db, tid, kind))
  {
    var db' := Emit(db, tid, kind);
    if db' != db {
      var ids := Recipients(db.users, db.tickets[tid]);
      var more := NotificationsFor(ids, tid, db.nextEventId, kind);
      NotifiedFanOut(db.notifications, ids, tid, db.nextEventId, kind);
      forall e: nat | e < db.nextEventId ensures Notified(db'.notifications, e) == Notified(db.notifications, e) {
        NotifiedOther(db.notifications, more, e);
      }
      forall i | |base.events| <= i < |db'.events| ensures Announced(base, db', db'.events[i]) {
        if i < |db.events| { assert Announced(base, db, db.events[i]); }
      }
    }
  }

  lemma HasEventGrows(events: seq<Event>, e: Event, tid: TicketId, kind: EventKind)
    ensures HasEvent(events + [e], tid, kind) <==> HasEvent(events, tid, kind) || (e.ticket == tid && e.kind == kind)
  {
    var more := events + [e];
    assert more[|events|] == e;
    if HasEvent(events, tid, kind) {
      var i :| 0 <= i < |events| && events[i].ticket == tid && events[i].kind == kind;
      assert more[i] == events[i];
    }
  }

  lemma EmitKeeps(db: Db, tid: TicketId, kind: EventKind)
    requires Inv(db) && tid in db.tickets && !kind.ResolvedEvent?
    requires kind.BreachedEvent? ==> HasEvent(db.events, tid, WarningEvent)
    ensures Inv(Emit(db, tid, kind)) && HasEvent(Emit(db, tid, kind).events, tid, kind)
    ensures forall t, k :: HasEvent(db.events, t, k) ==> HasEvent(Emit(db, tid, kind).events, t, k)
  {
    if !HasEvent(db.events, tid, kind) {
      forall t, k { HasEventGrows(db.events, Event(db.nextEventId, tid, kind, db.tickets[tid].dueAt), t, k); }
      forall t ensures Warned(Emit(db, tid, kind).events, t) { assert Warned(db.events, t); }
    }
  }

  lemma ProcessKeeps(base: Db, db: Db, tid: TicketId, now: int)
    requires Inv(db) && Extends(base, db) && db.tickets == base.tickets && db.users == base.users
    requires tid in db.tickets && Candidate(db.tickets[tid], now)
    ensures Inv(Process(db, tid, now)) && Extends(base, Process(db, tid, now))
    ensures HasEvent(Process(db, tid, now).events, tid, WarningEvent)
    ensures now >= db.tickets[tid].dueAt.value ==> HasEvent(Process(db, tid, now).events, tid, BreachedEvent)
    ensures forall t, k :: HasEvent(db.events, t, k) ==> HasEvent(Process(db, tid, now).events, t, k)
  {
    hide Inv, Extends, HasEvent;
    EmitKeeps(db, tid, WarningEvent);
    EmitExtends(base, db, tid, WarningEvent);
    var warned := Emit(db, tid, WarningEvent);
    if now >= db.tickets[tid].dueAt.value {
      EmitKeeps(warned, tid, BreachedEvent);
      EmitExtends(base, warned, tid, BreachedEvent);
    }
  }

  /** The event is for an unresolved ticket that has reached the event's threshold. */
  ghost predicate Timely(db: Db, e: Event, now: int) {
    && e.ticket in db.tickets && Candidate(db.tickets[e.ticket], now)
    && e.dueAt == db.tickets[e.ticket].dueAt
    && (e.kind.WarningEvent? || (e.kind.BreachedEvent? && now >= e.dueAt.value))
  }

  ghost predicate NewTimely(db: Db, events: seq<Event>, now: int) {
    forall i :: |db.events| <= i < |events| ==> Timely(db, events[i], now)
  }

  lemma ProcessTimely(db: Db, tid: TicketId, now: int)
    requires tid in db.tickets && Candidate(db.tickets[tid], now)
    ensures db.events <= Process(db, tid, now).events
    ensures NewTimely(db, Process(db, tid, now).events, now)
  {
  }

  lemma {:induction false} PassKeeps(db: Db, order: seq<TicketId>, now: int, failed: set<TicketId>)
    requires Inv(db)
    requires forall i :: 0 <= i < |order| ==>
               order[i] in db.tickets && db.tickets[order[i]].dueAt.Some? && Candidate(db.tickets[order[i]], now)
    ensures Inv(Pass(db, order, now, failed)) && Extends(db, Pass(db, order, now, failed))
    ensures forall tid :: tid in order && tid !in failed ==>
              HasEvent(Pass(db, order, now, failed).events, tid, WarningEvent)
    ensures forall tid :: tid in order && tid !in failed && now >= db.tickets[tid].dueAt.value ==>
              HasEvent(Pass(db, order, now, failed).events, tid, BreachedEvent)
    ensures NewTimely(db, Pass(db, order, now, failed).events, now)
  {
    if order != [] {
      var n := |order| - 1;
      PassKeeps(db, order[..n], now, failed);
      assert order == order[..n] + [order[n]];
      hide Inv, Extends, HasEvent;
      if order[n] !in failed {
        ProcessKeeps(db, Pass(db, order[..n], now, failed), order[n], now);
        ProcessTimely(Pass(db, order[..n], now, failed), order[n], now);
      }
    }
  }

  lemma StepKeeps(db: Db, step: Step)
    requires Inv(db) && Enabled(db, step)
    ensures Inv(Apply(db, step)) && Extends(db, Apply(db, step))
  {
    match step
    case MonitorPass(order, now, failed) => PassKeeps(db, order, now, failed);
    case WriteTicket(_, _) =>
    case WriteUsers(_) =>
    case RecordResolved(tid) =>
      forall t, k { HasEventGrows(db.events, Event(db.nextEventId, tid, ResolvedEvent, db.tickets[tid].dueAt), t, k); }
      forall t ensures Warned(Apply(db, step).events, t) { assert Warned(db.events, t); }
    case MarkRead(i, at) =>
      forall e: nat { NotifiedRead(db.notifications, i, at, e); }
  }

  // --- results ---

  lemma {:induction false} RunKeeps(states: seq<Db>, steps: seq<Step>, i: nat)
    requires IsRun(states, steps) && i < |states|
    ensures Inv(states[i])
    ensures i > 0 ==> Extends(states[i - 1], states[i])
  {
    if i > 0 {
      RunKeeps(states, steps, i - 1);
      StepKeeps(states[i - 1], steps[i - 1]);
    }
  }

  predicate SameOnce(a: Event, b: Event) {
    a.ticket == b.ticket && a.kind == b.kind && !a.kind.ResolvedEvent?
  }

  /** Each ticket has at most one warning and one breach event, and a breach only with a warning. */
  lemma EventsRecordedOnce(states: seq<Db>, steps: seq<Step>, n: nat, i: nat, j: nat)
    requires IsRun(states, steps) && n < |states| && i < |states[n].events| && j < |states[n].events|
    ensures SameOnce(states[n].events[i], states[n].events[j]) ==> i == j
    ensures states[n].events[i].kind.BreachedEvent? ==>
              HasEvent(states[n].events, states[n].events[i].ticket, WarningEvent)
  {
    RunKeeps(states, steps, n);
    assert Warned(states[n].events, states[n].events[i].ticket);
  }

  /**
    Whatever happens to users, assignments and read flags later, a warning or breach event keeps exactly one
    notification for each recipient of the state in which a pass recorded it.
   */
  lemma {:induction false} NotifiedAsRecorded(states: seq<Db>, steps: seq<Step>, n: nat, e: Event) returns (k: nat)
    requires IsRun(states, steps) && n < |states| && e in states[n].events && !e.kind.ResolvedEvent?
    ensures k < n && e !in states[k].events && e in states[k + 1].events && e.ticket in states[k].tickets
    ensures Notified(states[n].notifications, e.id) == Recipients(states[k].users, states[k].tickets[e.ticket])
    ensures NoDuplicates(Notified(states[n].notifications, e.id))
  {
    RunKeeps(states, steps, n);
    RunKeeps(states, steps, n - 1);
    if e in states[n - 1].events {
      k := NotifiedAsRecorded(states, steps, n - 1, e);
    } else {
      k := n - 1;
      var i :| 0 <= i < |states[n].events| && states[n].events[i] == e;
      assert Announced(states[k], states[n], states[n].events[i]);
      RecipientsExact(states[k].users, states[k].tickets[e.ticket]);
    }
  }

  /**
    A pass that did not fail on a ticket leaves it with a warning once 80% of its time has passed, and with both
    events once it is past a deadline that is not before its creation. It records nothing ahead of time.
   */
  lemma CleanPassComplete(states: seq<Db>, steps: seq<Step>, n: nat, tid: TicketId)
    requires IsRun(states, steps) && n < |steps| && steps[n].MonitorPass? && tid !in steps[n].failed
    requires tid in states[n].tickets && states[n].tickets[tid].dueAt.Some? && !Terminal(states[n].tickets[tid].status)
    ensures var t := states[n].tickets[tid];
      && (WarningReached(t, steps[n].now) ==> HasEvent(states[n + 1].events, tid, WarningEvent))
      && (t.createdAt <= t.dueAt.value <= steps[n].now ==>
            HasEvent(states[n + 1].events, tid, WarningEvent) && HasEvent(states[n + 1].events, tid, BreachedEvent))
    ensures NewTimely(states[n], states[n + 1].events, steps[n].now)
  {
    RunKeeps(states, steps, n);
    PassKeeps(states[n], steps[n].order, steps[n].now, steps[n].failed);
  }

  // --- what the other steps write ---

  /** The other steps write one row each: a ticket, the users, a resolved event, or the time a notification is read. */
  lemma OthersWrite(states: seq<Db>, steps: seq<Step>, n: nat)
    requires IsRun(states, steps) && n < |steps|
    ensures var db, db', step := states[n], states[n + 1], steps[n];
      && (step.WriteTicket? ==> db' == db.(tickets := db.tickets[step.tid := step.ticket]))
      && (step.WriteUsers? ==> db' == db.(users := step.users))
      && (step.RecordResolved? ==>
            && db'.events == db.events + [Event(db.nextEventId, step.tid, ResolvedEvent, db.tickets[step.tid].dueAt)]
            && db'.notifications == db.notifications && db'.nextEventId == db.nextEventId + 1)
      && (step.MarkRead? ==> db'.events == db.events && |db'.notifications| == |db.notifications|)
  {
    assert Enabled(states[n], steps[n]) && states[n + 1] == Apply(states[n], steps[n]);
  }

  predicate Marks(step: Step, i: nat) { step.MarkRead? && step.i == i }

  predicate NoneMarks(steps: seq<Step>, m: nat, n: nat, i: nat)
    requires m <= n <= |steps|
  {
    forall k :: m <= k < n ==> !Marks(steps[k], i)
  }

  /** A notification is read from the first time it is marked, and nothing else of it ever changes. */
  lemma {:induction false} ReadOnce(states: seq<Db>, steps: seq<Step>, m: nat, n: nat, i: nat, k: nat)
    requires IsRun(states, steps) && m <= n < |states| && i < |states[m].notifications|
    ensures i < |states[n].notifications|
    ensures var a, b := states[m].notifications[i], states[n].notifications[i];
      && (a.readAt.Some? || NoneMarks(steps, m, n, i) ==> b == a)
      && (a.readAt.None? && m <= k < n && NoneMarks(steps, m, k, i) && Marks(steps[k], i) ==>
            b == a.(readAt := Some(steps[k].at)))
  {
    if m < n {
      ReadOnce(states, steps, m, n - 1, i, k);
      assert Enabled(states[n - 1], steps[n - 1]) && states[n] == Apply(states[n - 1], steps[n - 1]);
      NotificationsKept(states[n - 1], steps[n - 1]);
      assert NoneMarks(steps, m, n, i) <==> NoneMarks(steps, m, n - 1, i) && !Marks(steps[n - 1], i);
      hide IsRun, Apply, Enabled, NoneMarks;
    }
  }

  lemma NotificationsKept(db: Db, step: Step)
    requires Enabled(db, step)
    ensures var ns, ns' := db.notifications, Apply(db, step).notifications;
      && |ns| <= |ns'|
      && forall i :: 0 <= i < |ns| ==>
           ns'[i] == if step.MarkRead? && step.i == i && ns[i].readAt.None? then ns[i].(readAt := Some(step.at))
                     else ns[i]
  {
    if step.MonitorPass? { PassKeepsNotifications(db, step.order, step.now, step.failed); }
    hide Pass;
  }

  lemma {:induction false} PassKeepsNotifications(db: Db, order: seq<TicketId>, now: int, failed: set<TicketId>)
    requires forall i :: 0 <= i < |order| ==> order[i] in db.tickets && db.tickets[order[i]].dueAt.Some?
    ensures db.notifications <= Pass(db, order, now, failed).notifications
  {
    if order != [] { PassKeepsNotifications(db, order[..|order| - 1], now, failed); }
  }

  // --- what a pass records ---

  lemma EmitRecords(db: Db, t: TicketId, emitted: EventKind, tid: TicketId, kind: EventKind)
    requires t in db.tickets
    ensures HasEvent(Emit(db, t, emitted).events, tid, kind)
            <==> HasEvent(db.events, tid, kind) || (t == tid && emitted == kind)
  {
    HasEventGrows(db.events, Event(db.nextEventId, t, emitted, db.tickets[t].dueAt), tid, kind);
    hide HasEvent, Recipients;
  }

  /** The moment for an event of the kind has come: four fifths of the way to the deadline, or the deadline. */
  predicate TimeFor(t: Ticket, kind: EventKind, now: int)
    requires t.dueAt.Some?
  {
    match kind
    case WarningEvent => (now - t.createdAt) as real >= 0.8 * (t.dueAt.value - t.createdAt) as real
    case BreachedEvent => now >= t.dueAt.value
    case ResolvedEvent => false
  }

  lemma ProcessRecords(db: Db, t: TicketId, now: int, tid: TicketId, kind: EventKind)
    requires t in db.tickets && db.tickets[t].dueAt.Some?
    ensures HasEvent(Process(db, t, now).events, tid, kind)
            <==> HasEvent(db.events, tid, kind) || (t == tid && TimeFor(db.tickets[t], kind, now))
  {
    EmitRecords(db, t, WarningEvent, tid, kind);
    var warned := if WarningReached(db.tickets[t], now) then Emit(db, t, WarningEvent) else db;
    EmitRecords(warned, t, BreachedEvent, tid, kind);
    hide HasEvent, Emit;
  }

  lemma {:induction false} PassRecords(db: Db, order: seq<TicketId>, now: int, failed: set<TicketId>,
                                       tid: TicketId, kind: EventKind)
    requires forall i :: 0 <= i < |order| ==> order[i] in db.tickets && db.tickets[order[i]].dueAt.Some?
    ensures HasEvent(Pass(db, order, now, failed).events, tid, kind)
            <==> || HasEvent(db.events, tid, kind)
                 || (tid in order && tid !in failed && TimeFor(db.tickets[tid], kind, now))
  {
    if order != [] {
      var n := |order| - 1;
      PassRecords(db, order[..n], now, failed, tid, kind);
      assert order == order[..n] + [order[n]];
      if order[n] !in failed { ProcessRecords(Pass(db, order[..n], now, failed), order[n], now, tid, kind); }
      hide HasEvent, TimeFor, Process;
    }
  }

  /** A ticket that a pass looks at: it has a deadline, is not resolved or closed, and is due for a warning at least. */
  predicate Watched(db: Db, tid: TicketId, now: int) {
    && tid in db.tickets && db.tickets[tid].dueAt.Some?
    && db.tickets[tid].status != Resolved && db.tickets[tid].status != Closed
    && TimeFor(db.tickets[tid], WarningEvent, now)
  }

  /**
    After a pass of any run a ticket has a warning, or a breach, exactly when it had one before or the pass did not fail
    on it, it is being watched and the time for it has come.
   */
  lemma PassRecordsIff(states: seq<Db>, steps: seq<Step>, n: nat, tid: TicketId, kind: EventKind)
    requires IsRun(states, steps) && n < |steps| && steps[n].MonitorPass?
    ensures HasEvent(states[n + 1].events, tid, kind)
            <==> || HasEvent(states[n].events, tid, kind)
                 || (&& Watched(states[n], tid, steps[n].now) && tid !in steps[n].failed
                     && TimeFor(states[n].tickets[tid], kind, steps[n].now))
  {
    assert Enabled(states[n], steps[n]) && states[n + 1] == Apply(states[n], steps[n]);
    PassRecords(states[n], steps[n].order, steps[n].now, steps[n].failed, tid, kind);
    assert tid in steps[n].order <==> Watched(states[n], tid, steps[n].now);
    hide HasEvent, Pass, IsRun;
  }
}
