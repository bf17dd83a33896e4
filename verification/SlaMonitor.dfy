/**
  The SLA monitor: `monitor_sla` passes with one savepoint per ticket, `record_once` behind its partial unique
  index, and notification fan-out to the recipients of the moment.
 */
module SlaMonitor {
  import opened Wrappers
  import opened HelpdeskTypes

  type TicketId = int
  type UserId = int
  type OrgId = int

  datatype Ticket = Ticket(org: OrgId, createdAt: int, dueAt: Option<int>, status: TicketStatus, agent: Option<UserId>)
  datatype User = User(id: UserId, org: OrgId, role: UserRole, status: UserStatus)
  datatype EventKind = WarningEvent | BreachedEvent | ResolvedEvent
  datatype Event = Event(id: nat, ticket: TicketId, kind: EventKind, dueAt: Option<int>)
  datatype Notification = Notification(user: UserId, ticket: TicketId, event: nat, kind: EventKind, readAt: Option<int>)

  datatype Db = Db(tickets: map<TicketId, Ticket>, users: seq<User>, events: seq<Event>,
                   notifications: seq<Notification>, nextEventId: nat)

  // --- queries ---

  /** 80% of the way from creation to the deadline has passed. */
  predicate WarningReached(t: Ticket, now: int)
    requires t.dueAt.Some?
  {
    5 * t.createdAt + 4 * (t.dueAt.value - t.createdAt) <= 5 * now
  }

  predicate Candidate(t: Ticket, now: int) {
    t.dueAt.Some? && !Terminal(t.status) && WarningReached(t, now)
  }

  predicate HasEvent(events: seq<Event>, tid: TicketId, kind: EventKind) {
    exists i :: 0 <= i < |events| && events[i].ticket == tid && events[i].kind == kind
  }

  predicate AdminOf(u: User, org: OrgId) { u.org == org && u.role.Admin? && u.status.Active? }

  /** Active admins of the organization, in row order. */
  function ActiveAdmins(users: seq<User>, org: OrgId): seq<UserId> {
    if users == [] then []
    else
      var rest, u := ActiveAdmins(users[..|users| - 1], org), users[|users| - 1];
      if AdminOf(u, org) then rest + [u.id] else rest
  }

  predicate ActiveMember(users: seq<User>, org: OrgId, id: UserId) {
    exists i :: 0 <= i < |users| && users[i].id == id && users[i].org == org && users[i].status.Active?
  }

  predicate ActiveAdmin(users: seq<User>, org: OrgId, id: UserId) {
    exists i :: 0 <= i < |users| && users[i].id == id && AdminOf(users[i], org)
  }

  /** `resolve_recipients`: active admins, plus the assigned agent when active and not already listed. */
  function Recipients(users: seq<User>, t: Ticket): seq<UserId> {
    var admins := ActiveAdmins(users, t.org);
    if t.agent.Some? && ActiveMember(users, t.org, t.agent.value) && t.agent.value !in admins
    then admins + [t.agent.value] else admins
  }

  predicate DistinctIds(users: seq<User>) {
    forall i, j :: 0 <= i < j < |users| ==> users[i].id != users[j].id
  }

  predicate NoDuplicates(ids: seq<UserId>) {
    forall i, j :: 0 <= i < j < |ids| ==> ids[i] != ids[j]
  }

  lemma {:induction false} ActiveAdminsMembers(users: seq<User>, org: OrgId, id: UserId)
    ensures id in ActiveAdmins(users, org) <==> ActiveAdmin(users, org, id)
  {
    if users != [] {
      var n := |users| - 1;
      ActiveAdminsMembers(users[..n], org, id);
      if ActiveAdmin(users, org, id) {
        var i :| 0 <= i < |users| && users[i].id == id && AdminOf(users[i], org);
        if i < n { assert users[..n][i].id == id; }
      }
      if id in ActiveAdmins(users[..n], org) {
        var i :| 0 <= i < n && users[..n][i].id == id && AdminOf(users[..n][i], org);
        assert users[i].id == id;
      }
    }
  }

  lemma {:induction false} ActiveAdminsDistinct(users: seq<User>, org: OrgId)
    requires DistinctIds(users)
    ensures NoDuplicates(ActiveAdmins(users, org))
  {
    if users != [] {
      var n := |users| - 1;
      ActiveAdminsDistinct(users[..n], org);
      ActiveAdminsMembers(users[..n], org, users[n].id);
      assert !ActiveAdmin(users[..n], org, users[n].id);
    }
  }

  /** Each active admin of the organization and the active assigned agent, each exactly once, and nobody else. */
  lemma RecipientsExact(users: seq<User>, t: Ticket)
    requires DistinctIds(users)
    ensures NoDuplicates(Recipients(users, t))
    ensures forall id :: id in Recipients(users, t) <==> exists i :: 0 <= i < |users| && IsRecipient(users[i], t, id)
  {
    ActiveAdminsDistinct(users, t.org);
    forall id ensures id in Recipients(users, t) <==> exists i :: 0 <= i < |users| && IsRecipient(users[i], t, id) {
      ActiveAdminsMembers(users, t.org, id);
      assert ActiveMember(users, t.org, id)
             <==> exists i :: 0 <= i < |users| && users[i].id == id && users[i].org == t.org && users[i].status.Active?;
    }
  }

  predicate IsRecipient(u: User, t: Ticket, id: UserId) {
    u.id == id && u.org == t.org && u.status == UserStatus.Active && (u.role == Admin || t.agent == Some(id))
  }

  // --- what one ticket's processing writes ---

  function NotificationsFor(ids: seq<UserId>, tid: TicketId, event: nat, kind: EventKind): (ns: seq<Notification>)
    ensures |ns| == |ids|
    ensures forall i :: 0 <= i < |ids| ==> ns[i] == Notification(ids[i], tid, event, kind, None)
  {
    seq(|ids|, i requires 0 <= i < |ids| => Notification(ids[i], tid, event, kind, None))
  }

  /** `record_once`, then `fan_out` when a row was inserted. */
  function Emit(db: Db, tid: TicketId, kind: EventKind): Db
    requires tid in db.tickets
  {
    if HasEvent(db.events, tid, kind) then db
    else
      var t := db.tickets[tid];
      db.(events := db.events + [Event(db.nextEventId, tid, kind, t.dueAt)],
          notifications := db.notifications + NotificationsFor(Recipients(db.users, t), tid, db.nextEventId, kind),
          nextEventId := db.nextEventId + 1)
  }

  function Process(db: Db, tid: TicketId, now: int): Db
    requires tid in db.tickets && db.tickets[tid].dueAt.Some?
  {
    var t := db.tickets[tid];
    var warned := if WarningReached(t, now) then Emit(db, tid, WarningEvent) else db;
    if now >= t.dueAt.value then Emit(warned, tid, BreachedEvent) else warned
  }

  predicate CandidateList(db: Db, order: seq<TicketId>, now: int) {
    && (forall i :: 0 <= i < |order| ==> order[i] in db.tickets && Candidate(db.tickets[order[i]], now))
    && (forall tid :: tid in db.tickets && Candidate(db.tickets[tid], now) ==> tid in order)
  }

  /** One pass over the candidates; the savepoints of the tickets in `failed` are rolled back. */
  function Pass(db: Db, order: seq<TicketId>, now: int, failed: set<TicketId>): (db': Db)
    requires forall i :: 0 <= i < |order| ==> order[i] in db.tickets && db.tickets[order[i]].dueAt.Some?
    ensures db'.tickets == db.tickets && db'.users == db.users
  {
    if order == [] then db
    else
      var n := |order| - 1;
      var before := Pass(db, order[..n], now, failed);
      if order[n] in failed then before else Process(before, order[n], now)
  }

  // --- the session: the code's own steps ---

  class Session {
    const tickets: map<TicketId, Ticket>
    const users: seq<User>
    var events: seq<Event>
    var notifications: seq<Notification>
    var nextEventId: nat

    constructor (db: Db)
      ensures State() == db
    {
      tickets, users := db.tickets, db.users;
      events, notifications, nextEventId := db.events, db.notifications, db.nextEventId;
    }

    function State(): Db
      reads this
    {
      Db(tickets, users, events, notifications, nextEventId)
    }

    method RecordOnce(tid: TicketId, kind: EventKind, dueAt: Option<int>) returns (id: Option<nat>)
      modifies this`events, this`nextEventId
      ensures HasEvent(old(events), tid, kind) <==> id.None?
      ensures id.None? ==> events == old(events) && nextEventId == old(nextEventId)
      ensures id.Some? ==> id.value == old(nextEventId) && nextEventId == old(nextEventId) + 1
      ensures id.Some? ==> events == old(events) + [Event(id.value, tid, kind, dueAt)]
    {
      if HasEvent(events, tid, kind) {
        return None;
      }
      events := events + [Event(nextEventId, tid, kind, dueAt)];
      nextEventId := nextEventId + 1;
      return Some(nextEventId - 1);
    }

    method ResolveRecipients(t: Ticket) returns (recipients: seq<UserId>)
      ensures recipients == Recipients(users, t)
    {
      recipients := ActiveAdmins(users, t.org);
      if t.agent.Some? {
        if ActiveMember(users, t.org, t.agent.value) && t.agent.value !in recipients {
          recipients := recipients + [t.agent.value];
        }
      }
    }

    method FanOut(tid: TicketId, event: nat, kind: EventKind)
      requires tid in tickets
      modifies this`notifications
      ensures notifications == old(notifications) + NotificationsFor(Recipients(users, tickets[tid]), tid, event, kind)
    {
      var recipients := ResolveRecipients(tickets[tid]);
      for i := 0 to |recipients|
        invariant notifications == old(notifications) + NotificationsFor(recipients, tid, event, kind)[..i]
      {
        notifications := notifications + [Notification(recipients[i], tid, event, kind, None)];
      }
    }

    /** Either the whole of the ticket's processing, or some part of it followed by an exception. */
    method ProcessTicket(tid: TicketId, now: int) returns (raised: bool)
      requires tid in tickets && tickets[tid].dueAt.Some?
      modifies this
      ensures !raised ==> State() == Process(old(State()), tid, now)
    {
      var t := tickets[tid];
      if WarningReached(t, now) {
        var warning := RecordOnce(tid, WarningEvent, t.dueAt);
        if * { return true; }
        if warning.Some? {
          FanOut(tid, warning.value, WarningEvent);
        }
      }
      if * { return true; }
      if now >= t.dueAt.value {
        var breach := RecordOnce(tid, BreachedEvent, t.dueAt);
        if * { return true; }
        if breach.Some? {
          FanOut(tid, breach.value, BreachedEvent);
        }
      }
      return false;
    }

    /** One pass: each ticket in its own savepoint, whose partial work is undone when processing raises. */
    method MonitorSla(now: int, order: seq<TicketId>) returns (failed: set<TicketId>)
      requires CandidateList(State(), order, now) && NoDuplicates(order)
      modifies this
      ensures State() == Pass(old(State()), order, now, failed)
    {
      failed := {};
      ghost var before := State();
      for i := 0 to |order|
        invariant State() == Pass(before, order[..i], now, failed)
        invariant forall tid :: tid in failed ==> tid in order[..i]
      {
        var savedEvents, savedNotifications, savedNext := events, notifications, nextEventId;
        ghost var s, f := State(), failed;
        var raised := ProcessTicket(order[i], now);
        if raised {
          events, notifications, nextEventId := savedEvents, savedNotifications, savedNext;
          failed := failed + {order[i]};
        }
        PassIgnoresLater(before, order[..i], now, f, failed);
        assert order[..i + 1][..i] == order[..i];
      }
      assert order[..|order|] == order;
    }
  }

  lemma {:induction false} PassIgnoresLater(db: Db, order: seq<TicketId>, now: int, f: set<TicketId>, f': set<TicketId>)
    requires forall i :: 0 <= i < |order| ==> order[i] in db.tickets && db.tickets[order[i]].dueAt.Some?
    requires forall tid :: tid in order ==> (tid in f <==> tid in f')
    ensures Pass(db, order, now, f) == Pass(db, order, now, f')
  {
    if order != [] { PassIgnoresLater(db, order[..|order| - 1], now, f, f'); }
  }
}
