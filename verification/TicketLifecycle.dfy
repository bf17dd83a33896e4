/**
  One ticket's life: creation, updates by people, classification jobs delivered any number of times, and chat
  escalation. A step that raises, or whose row fails a CHECK constraint, is rolled back.
 */
module TicketLifecycle {
  import opened Wrappers
  import opened HelpdeskTypes

  type Id = int

  datatype Ticket = Ticket(title: string, createdAt: int, status: TicketStatus, closedAt: Option<int>, classified: bool,
                           category: Option<Id>, urgency: Option<Id>, dueAt: Option<int>, agent: Option<Id>)

  /** The ticket once it exists, and how many `resolved` SLA events it has. */
  datatype State = State(ticket: Option<Ticket>, resolvedEvents: nat)

  /** `resolve_sla_due_at`: settings in force, urgency and anchor to a deadline, or nothing when it raises. */
  type Resolver = (int, Id, int) -> Option<int>

  datatype Verdict = TransientFailure | Unavailable | Classified(category: Id, urgency: Id)

  datatype Assignee = Assignee(id: Id, role: UserRole)

  /** `settings` is the version of the organization's and urgency levels' configuration in force. */
  datatype Step =
    | Create(title: string, category: Option<Id>, urgency: Option<Id>, taxonomyFound: bool, now: int, settings: int)
    | Update(role: UserRole, status: Option<TicketStatus>, assignee: Option<Assignee>, newCategory: Option<Id>,
             newUrgency: Option<Id>, taxonomyFound: bool, now: int, settings: int)
    | Classify(verdict: Verdict, settings: int)
    | Escalate

  /** SQL's `btrim` leaves nothing. */
  predicate Blank(title: string) { forall i :: 0 <= i < |title| ==> title[i] == ' ' }

  /** The CHECK constraints on title, status and taxonomy. */
  predicate Check(t: Ticket) {
    && !Blank(t.title)
    && (t.status.Closed? <==> t.closedAt.Some?)
    && (t.classified ==> t.category.Some? && t.urgency.Some? && t.dueAt.Some?)
  }

  predicate Recategorizes(step: Step)
    requires step.Update?
  {
    step.newCategory.Some? || step.newUrgency.Some?
  }

  /** The role gates and the assignee rule. */
  predicate Permitted(step: Step)
    requires step.Update?
  {
    && (step.assignee.Some? ==> Staff(step.role) && Staff(step.assignee.value.role))
    && (step.status.Some? && Terminal(step.status.value) ==> Staff(step.role))
    && (Recategorizes(step) ==> Staff(step.role))
  }

  function EffectiveUrgency(t: Ticket, step: Step): Option<Id>
    requires step.Update?
  {
    if step.newUrgency.Some? then step.newUrgency else t.urgency
  }

  function Deadline(resolve: Resolver, settings: int, urgency: Option<Id>, createdAt: int): Option<int> {
    if urgency.Some? then resolve(settings, urgency.value, createdAt) else None
  }

  /** `update_ticket` raises: a gate, a lookup, or the deadline computation. */
  predicate UpdateRaises(resolve: Resolver, t: Ticket, step: Step)
    requires step.Update?
  {
    || !Permitted(step)
    || (Recategorizes(step)
        && (!step.taxonomyFound || Deadline(resolve, step.settings, EffectiveUrgency(t, step), t.createdAt).None?))
  }

  function UpdatedRow(resolve: Resolver, t: Ticket, step: Step): Ticket
    requires step.Update?
  {
    var t1 := if step.assignee.Some? then t.(agent := Some(step.assignee.value.id)) else t;
    var t2 := if step.status.Some?
              then t1.(status := step.status.value,
                       closedAt := if step.status.value.Closed? then Some(step.now) else None)
              else t1;
    if Recategorizes(step) then
      t2.(category := if step.newCategory.Some? then step.newCategory else t.category,
          urgency := EffectiveUrgency(t, step),
          dueAt := Deadline(resolve, step.settings, EffectiveUrgency(t, step), t.createdAt))
    else t2
  }

  predicate EntersTerminal(t: Ticket, step: Step)
    requires step.Update?
  {
    step.status.Some? && Terminal(step.status.value) && t.status != step.status.value
  }

  /** What a step would leave before the CHECK constraints are applied; nothing when it raises. */
  function Attempt(resolve: Resolver, s: State, step: Step): Option<State> {
    match step
    case Create(title, category, urgency, taxonomyFound, now, settings) =>
      if s.ticket.Some? then None
      else if category.Some? && urgency.Some? then
        var due := resolve(settings, urgency.value, now);
        if !taxonomyFound || due.None? then None
        else Some(s.(ticket := Some(Ticket(title, now, Open, None, false, category, urgency, due, None))))
      else Some(s.(ticket := Some(Ticket(title, now, Open, None, false, category, urgency, None, None))))
    case Update(_, _, _, _, _, _, _, _) =>
      if s.ticket.None? || UpdateRaises(resolve, s.ticket.value, step) then None
      else Some(State(Some(UpdatedRow(resolve, s.ticket.value, step)),
                      s.resolvedEvents + if EntersTerminal(s.ticket.value, step) then 1 else 0))
    case Classify(verdict, settings) =>
      if s.ticket.None? then None
      else if s.ticket.value.classified || verdict.Unavailable? then Some(s)
      else if verdict.TransientFailure? then None
      else
        var t := s.ticket.value;
        var due := resolve(settings, verdict.urgency, t.createdAt);
        if due.None? then None
        else Some(s.(ticket := Some(t.(category := Some(verdict.category), urgency := Some(verdict.urgency),
                                       classified := true, dueAt := due))))
    case Escalate =>
      if s.ticket.None? then None else Some(s.(ticket := Some(s.ticket.value.(status := Escalated))))
  }

  /** The step neither raises nor fails a CHECK constraint. */
  predicate Succeeds(resolve: Resolver, s: State, step: Step) {
    var a := Attempt(resolve, s, step);
    a.Some? && a.value.ticket.Some? && Check(a.value.ticket.value)
  }

  function Apply(resolve: Resolver, s: State, step: Step): State {
    if Succeeds(resolve, s, step) then Attempt(resolve, s, step).value else s
  }

  lemma UpdateRefused(resolve: Resolver, s: State, step: Step)
    requires step.Update? && (s.ticket.None? || UpdateRaises(resolve, s.ticket.value, step))
    ensures Apply(resolve, s, step) == s && !Succeeds(resolve, s, step)
  {
  }

  lemma UpdateFlushed(resolve: Resolver, s: State, step: Step)
    requires step.Update? && s.ticket.Some? && !UpdateRaises(resolve, s.ticket.value, step)
    ensures var t := UpdatedRow(resolve, s.ticket.value, step);
      && (Succeeds(resolve, s, step) <==> Check(t))
      && Apply(resolve, s, step)
         == if Check(t) then State(Some(t), s.resolvedEvents + if EntersTerminal(s.ticket.value, step) then 1 else 0)
            else s
  {
  }

  // --- the code's own steps ---

  /** A session holding the ticket row; a method that returns `false` has raised and left no change. */
  class TicketSession {
    const resolve: Resolver
    var ticket: Option<Ticket>
    var resolvedEvents: nat

    constructor (resolve: Resolver, s: State)
      ensures Contents() == s && this.resolve == resolve
    {
      this.resolve := resolve;
      ticket, resolvedEvents := s.ticket, s.resolvedEvents;
    }

    function Contents(): State
      reads this
    {
      State(ticket, resolvedEvents)
    }

    /** A stored row passes the CHECK constraints. */
    predicate Valid()
      reads this
    {
      ticket.Some? ==> Check(ticket.value)
    }

    /** Flush: the row is stored only if it passes the CHECK constraints. */
    method Flush(t: Ticket) returns (ok: bool)
      modifies this`ticket
      ensures ok <==> Check(t)
      ensures ticket == if ok then Some(t) else old(ticket)
    {
      ok := Check(t);
      if ok { ticket := Some(t); }
    }

    method CreateTicket(step: Step) returns (ok: bool)
      requires Valid() && step.Create? && ticket.None?
      modifies this`ticket
      ensures Valid() && Contents() == Apply(resolve, old(Contents()), step)
      ensures ok <==> Succeeds(resolve, old(Contents()), step)
    {
      var due: Option<int> := None;
      if step.category.Some? && step.urgency.Some? {
        if !step.taxonomyFound { return false; }
        due := resolve(step.settings, step.urgency.value, step.now);
        if due.None? { return false; }
      }
      ok := Flush(Ticket(step.title, step.now, Open, None, false, step.category, step.urgency, due, None));
    }

    /** `escalate_to_human` moves the linked ticket directly, without touching `closed_at`. */
    method EscalateTicket() returns (ok: bool)
      requires Valid()
      modifies this`ticket
      ensures Valid() && Contents() == Apply(resolve, old(Contents()), Escalate)
      ensures ok <==> Succeeds(resolve, old(Contents()), Escalate)
    {
      if ticket.None? { return false; }
      ok := Flush(ticket.value.(status := Escalated));
    }

    method UpdateTicket(step: Step) returns (ok: bool)
      requires Valid() && step.Update?
      modifies this`ticket, this`resolvedEvents
      ensures Valid() && Contents() == Apply(resolve, old(Contents()), step)
      ensures ok <==> Succeeds(resolve, old(Contents()), step)
    {
      hide Check, Attempt, Succeeds, Apply;
      ghost var s := Contents();
      if s.ticket.None? || UpdateRaises(resolve, s.ticket.value, step) {
        UpdateRefused(resolve, s, step);
      } else {
        UpdateFlushed(resolve, s, step);
      }
      if step.assignee.Some? && !Staff(step.role) { return false; }
      if step.status.Some? && Terminal(step.status.value) && !Staff(step.role) { return false; }
      if (step.newCategory.Some? || step.newUrgency.Some?) && !Staff(step.role) { return false; }
      if ticket.None? { return false; }
      var t := ticket.value;
      var previousStatus := t.status;
      if step.assignee.Some? {
        if !Staff(step.assignee.value.role) { return false; }
        t := t.(agent := Some(step.assignee.value.id));
      }
      if step.status.Some? {
        t := t.(status := step.status.value);
        t := t.(closedAt := if step.status.value.Closed? then Some(step.now) else None);
      }
      if step.newCategory.Some? || step.newUrgency.Some? {
        var urgency := if step.newUrgency.Some? then step.newUrgency else t.urgency;
        if urgency.None? || !step.taxonomyFound { return false; }
        var due := resolve(step.settings, urgency.value, t.createdAt);
        if due.None? { return false; }
        t := t.(category := if step.newCategory.Some? then step.newCategory else t.category,
                urgency := urgency, dueAt := due);
      }
      assert !UpdateRaises(resolve, ticket.value, step) && t == UpdatedRow(resolve, ticket.value, step);
      hide UpdateRaises, UpdatedRow;
      ok := Flush(t);
      if ok && step.status.Some? && Terminal(step.status.value) && previousStatus != step.status.value {
        resolvedEvents := resolvedEvents + 1;
      }
    }

    method ClassifyTicket(step: Step) returns (ok: bool)
      requires Valid() && step.Classify?
      modifies this`ticket
      ensures Valid() && Contents() == Apply(resolve, old(Contents()), step)
      ensures ok <==> Succeeds(resolve, old(Contents()), step)
    {
      if ticket.None? { return false; }
      var t := ticket.value;
      if t.classified { return true; }
      match step.verdict {
        case TransientFailure => return false;
        case Unavailable => return true;
        case Classified(category, urgency) =>
          var due := resolve(step.settings, urgency, t.createdAt);
          if due.None? { return false; }
          t := t.(category := Some(category));
          t := t.(urgency := Some(urgency));
          t := t.(classified := true);
          t := t.(dueAt := due);
          ok := Flush(t);
      }
    }
  }

  // --- runs ---

  ghost predicate IsRun(resolve: Resolver, states: seq<State>, steps: seq<Step>) {
    && |states| == |steps| + 1
    && states[0] == State(None, 0)
    && forall i :: 0 <= i < |steps| ==> states[i + 1] == Apply(resolve, states[i], steps[i])
  }

  /** The request schema's rule, on the creation that takes place: an urgency only together with a category. */
  ghost predicate CreatesWithTaxonomy(resolve: Resolver, states: seq<State>, steps: seq<Step>)
    requires |states| == |steps| + 1
  {
    forall i :: 0 <= i < |steps| && steps[i].Create? && Succeeds(resolve, states[i], steps[i]) ==>
      steps[i].urgency.Some? ==> steps[i].category.Some?
  }

  predicate DeadlineWithUrgency(s: State) {
    s.ticket.Some? ==> (s.ticket.value.urgency.Some? <==> s.ticket.value.dueAt.Some?)
  }

  predicate Checked(s: State) { s.ticket.Some? ==> Check(s.ticket.value) }

  lemma {:induction false} RunChecked(resolve: Resolver, states: seq<State>, steps: seq<Step>, n: nat)
    requires IsRun(resolve, states, steps) && n < |states|
    ensures Checked(states[n])
  {
    if n > 0 {
      RunChecked(resolve, states, steps, n - 1);
      assert states[n] == Apply(resolve, states[n - 1], steps[n - 1]);
    }
  }

  lemma {:induction false} RunKeeps(resolve: Resolver, states: seq<State>, steps: seq<Step>, n: nat)
    requires IsRun(resolve, states, steps) && CreatesWithTaxonomy(resolve, states, steps) && n < |states|
    ensures DeadlineWithUrgency(states[n]) && Checked(states[n])
  {
    RunChecked(resolve, states, steps, n);
    if n > 0 {
      RunKeeps(resolve, states, steps, n - 1);
      assert states[n] == Apply(resolve, states[n - 1], steps[n - 1]);
    }
  }

  /**
    In every reachable state: a title that is not blank, closed exactly when `closed_at` is set, classified only with
    taxonomy and deadline.
   */
  lemma RowConsistent(resolve: Resolver, states: seq<State>, steps: seq<Step>, n: nat)
    requires IsRun(resolve, states, steps) && n < |states| && states[n].ticket.Some?
    ensures var t := states[n].ticket.value;
      && !Blank(t.title)
      && (t.status.Closed? <==> t.closedAt.Some?)
      && (t.classified ==> t.category.Some? && t.urgency.Some? && t.dueAt.Some?)
  {
    RunChecked(resolve, states, steps, n);
  }

  /**
    Along every run the ticket has an urgency exactly when it has a deadline, in all states, if and only if it was not
    created with an urgency and no category: the service alone does not see to it, the request schema does.
   */
  lemma DeadlineWithUrgencyIff(resolve: Resolver, states: seq<State>, steps: seq<Step>)
    requires IsRun(resolve, states, steps)
    ensures (forall n :: 0 <= n < |states| ==> DeadlineWithUrgency(states[n]))
            <==> CreatesWithTaxonomy(resolve, states, steps)
  {
    if CreatesWithTaxonomy(resolve, states, steps) {
      forall n | 0 <= n < |states| ensures DeadlineWithUrgency(states[n]) { RunKeeps(resolve, states, steps, n); }
    } else {
      var i :| 0 <= i < |steps| && steps[i].Create? && Succeeds(resolve, states[i], steps[i])
               && steps[i].urgency.Some? && steps[i].category.None?;
      assert states[i + 1] == Apply(resolve, states[i], steps[i]);
      assert !DeadlineWithUrgency(states[i + 1]);
    }
  }

  /**
    In a reachable state the CHECK constraints abort exactly two kinds of step: creating a ticket under a blank title,
    as a model calling the chat tool can, and escalating a closed ticket.
   */
  lemma CheckAbortsIff(resolve: Resolver, states: seq<State>, steps: seq<Step>, n: nat, step: Step)
    requires IsRun(resolve, states, steps) && n < |states|
    requires Attempt(resolve, states[n], step).Some?
    ensures var t := Attempt(resolve, states[n], step).value.ticket;
      t.Some? && (!Check(t.value) <==>
                  || (step.Create? && Blank(step.title))
                  || (step.Escalate? && states[n].ticket.value.status.Closed?))
  {
    RunChecked(resolve, states, steps, n);
  }

  // --- deadlines ---

  /** The step wrote an urgency onto the ticket. */
  predicate WritesUrgency(s: State, s': State, step: Step) {
    && s != s'
    && (|| (step.Create? && step.category.Some? && step.urgency.Some?)
        || (step.Update? && Recategorizes(step))
        || (step.Classify? && step.verdict.Classified?))
  }

  function SettingsOf(step: Step): int { if step.Escalate? then 0 else step.settings }

  /**
    The deadline is the one computed from `created_at`, for the ticket's present urgency, under the settings in force
    at the last step that wrote an urgency, the creation, a classification or an update by staff; no later step
    moved it.
   */
  lemma {:induction false} DeadlineFromLastWrite(resolve: Resolver, states: seq<State>, steps: seq<Step>, n: nat)
    returns (k: nat)
    requires IsRun(resolve, states, steps) && CreatesWithTaxonomy(resolve, states, steps) && n < |states|
    requires states[n].ticket.Some? && states[n].ticket.value.dueAt.Some?
    ensures k < n
    ensures var t := states[n].ticket.value;
      t.urgency.Some? && t.dueAt == resolve(SettingsOf(steps[k]), t.urgency.value, t.createdAt)
    ensures WritesUrgency(states[k], states[k + 1], steps[k]) && (steps[k].Update? ==> Staff(steps[k].role))
    ensures forall j :: k < j < n ==> !WritesUrgency(states[j], states[j + 1], steps[j])
  {
    RunKeeps(resolve, states, steps, n);
    RunKeeps(resolve, states, steps, n - 1);
    var s, s', step := states[n - 1], states[n], steps[n - 1];
    assert s' == Apply(resolve, s, step);
    if WritesUrgency(s, s', step) || s.ticket.None? || s.ticket.value.dueAt.None? {
      k := n - 1;
    } else {
      k := DeadlineFromLastWrite(resolve, states, steps, n - 1);
    }
  }

  // --- what each step does to the row ---

  /** What a step names, if it is one that takes effect on the taxonomy. */
  function NamedUrgency(s: State, step: Step): Option<Id> {
    match step
    case Create(_, _, urgency, _, _, _) => urgency
    case Update(_, _, _, _, urgency, _, _, _) => urgency
    case Classify(Classified(_, urgency), _) =>
      if s.ticket.Some? && !s.ticket.value.classified then Some(urgency) else None
    case _ => None
  }

  function NamedCategory(s: State, step: Step): Option<Id> {
    match step
    case Create(_, category, _, _, _, _) => category
    case Update(_, _, _, category, _, _, _, _) => category
    case Classify(Classified(category, _), _) =>
      if s.ticket.Some? && !s.ticket.value.classified then Some(category) else None
    case _ => None
  }

  predicate NamesUrgency(resolve: Resolver, s: State, step: Step) {
    Succeeds(resolve, s, step) && NamedUrgency(s, step).Some?
  }

  predicate NamesCategory(resolve: Resolver, s: State, step: Step) {
    Succeeds(resolve, s, step) && NamedCategory(s, step).Some?
  }

  /** The ticket's urgency is the one that the last successful step to name one has named. */
  lemma {:induction false} UrgencyLastNamed(resolve: Resolver, states: seq<State>, steps: seq<Step>, n: nat)
    returns (k: nat)
    requires IsRun(resolve, states, steps) && n < |states| && states[n].ticket.Some?
    ensures states[n].ticket.value.urgency.None? ==>
              forall j :: 0 <= j < n ==> !NamesUrgency(resolve, states[j], steps[j])
    ensures states[n].ticket.value.urgency.Some? ==>
              && k < n && NamesUrgency(resolve, states[k], steps[k])
              && NamedUrgency(states[k], steps[k]) == states[n].ticket.value.urgency
              && forall j :: k < j < n ==> !NamesUrgency(resolve, states[j], steps[j])
  {
    k := n - 1;
    var s, step := states[n - 1], steps[n - 1];
    assert states[n] == Apply(resolve, s, step);
    if s.ticket.None? {
      NothingBefore(resolve, states, steps, n - 1);
    } else if !NamesUrgency(resolve, s, step) {
      k := UrgencyLastNamed(resolve, states, steps, n - 1);
    }
  }

  /** And its category likewise. */
  lemma {:induction false} CategoryLastNamed(resolve: Resolver, states: seq<State>, steps: seq<Step>, n: nat)
    returns (k: nat)
    requires IsRun(resolve, states, steps) && n < |states| && states[n].ticket.Some?
    ensures states[n].ticket.value.category.None? ==>
              forall j :: 0 <= j < n ==> !NamesCategory(resolve, states[j], steps[j])
    ensures states[n].ticket.value.category.Some? ==>
              && k < n && NamesCategory(resolve, states[k], steps[k])
              && NamedCategory(states[k], steps[k]) == states[n].ticket.value.category
              && forall j :: k < j < n ==> !NamesCategory(resolve, states[j], steps[j])
  {
    k := n - 1;
    var s, step := states[n - 1], steps[n - 1];
    assert states[n] == Apply(resolve, s, step);
    if s.ticket.None? {
      NothingBefore(resolve, states, steps, n - 1);
    } else if !NamesCategory(resolve, s, step) {
      k := CategoryLastNamed(resolve, states, steps, n - 1);
    }
  }

  /** Before the ticket there is nothing, and no step but its creation succeeds. */
  lemma {:induction false} NothingBefore(resolve: Resolver, states: seq<State>, steps: seq<Step>, n: nat)
    requires IsRun(resolve, states, steps) && n < |states| && states[n].ticket.None?
    ensures forall j :: 0 <= j < n ==> states[j].ticket.None? && !Succeeds(resolve, states[j], steps[j])
  {
    if n > 0 {
      assert states[n] == Apply(resolve, states[n - 1], steps[n - 1]);
      NothingBefore(resolve, states, steps, n - 1);
    }
  }

  /** The step assigns or asks for something that only staff may, or names an assignee who is not staff. */
  predicate Forbidden(step: Step)
    requires step.Update?
  {
    || (step.role != Agent && step.role != Admin
        && (step.assignee.Some? || step.status == Some(Resolved) || step.status == Some(Closed)
            || step.newCategory.Some? || step.newUrgency.Some?))
    || (step.assignee.Some? && step.assignee.value.role != Agent && step.assignee.value.role != Admin)
  }

  /** The urgency that an update of the taxonomy leaves: the named one, or the one that is there. */
  function NextUrgency(t: Ticket, named: Option<Id>): Option<Id> { if named.Some? then named else t.urgency }

  /** In a reachable state: which steps go through, and are not refused, raise or fail a constraint. */
  lemma SucceedsIff(resolve: Resolver, states: seq<State>, steps: seq<Step>, n: nat, step: Step)
    requires IsRun(resolve, states, steps) && n < |states|
    ensures var ticket := states[n].ticket;
      Succeeds(resolve, states[n], step) <==>
        match step
        case Create(title, category, urgency, found, now, settings) =>
          && ticket.None? && (exists i :: 0 <= i < |title| && title[i] != ' ')
          && (category.Some? && urgency.Some? ==> found && resolve(settings, urgency.value, now).Some?)
        case Update(_, _, _, category, urgency, found, _, settings) =>
          && ticket.Some? && !Forbidden(step)
          && (category.Some? || urgency.Some? ==>
                && found && NextUrgency(ticket.value, urgency).Some?
                && resolve(settings, NextUrgency(ticket.value, urgency).value, ticket.value.createdAt).Some?)
        case Classify(verdict, settings) =>
          && ticket.Some?
          && (|| ticket.value.classified || verdict == Unavailable
              || (verdict.Classified? && resolve(settings, verdict.urgency, ticket.value.createdAt).Some?))
        case Escalate => ticket.Some? && ticket.value.status != Closed
  {
    RunChecked(resolve, states, steps, n);
  }

  /** A new ticket is open and unassigned, of that moment, and has a deadline if it has both halves of its taxonomy. */
  lemma CreationWrites(resolve: Resolver, states: seq<State>, steps: seq<Step>, n: nat)
    requires IsRun(resolve, states, steps) && n < |steps| && steps[n].Create?
    requires Succeeds(resolve, states[n], steps[n])
    ensures states[n + 1].ticket.Some? && states[n + 1].resolvedEvents == states[n].resolvedEvents
    ensures var t, step := states[n + 1].ticket.value, steps[n];
      && t.title == step.title && t.createdAt == step.now && t.status == Open && t.closedAt == None && !t.classified
      && t.category == step.category && t.urgency == step.urgency && t.agent == None
      && t.dueAt == if step.category.Some? && step.urgency.Some?
                    then resolve(step.settings, step.urgency.value, step.now) else None
  {
    assert states[n + 1] == Apply(resolve, states[n], steps[n]);
  }

  /** A classification of a pending ticket leaves the verdict and its deadline, and every other column as it was. */
  lemma ClassificationWrites(resolve: Resolver, states: seq<State>, steps: seq<Step>, n: nat)
    requires IsRun(resolve, states, steps) && n < |steps| && steps[n].Classify? && steps[n].verdict.Classified?
    requires Succeeds(resolve, states[n], steps[n]) && !states[n].ticket.value.classified
    ensures states[n + 1].ticket.Some? && states[n + 1].resolvedEvents == states[n].resolvedEvents
    ensures var t, t', step := states[n].ticket.value, states[n + 1].ticket.value, steps[n];
      && t'.category == Some(step.verdict.category) && t'.urgency == Some(step.verdict.urgency) && t'.classified
      && t'.dueAt == resolve(step.settings, step.verdict.urgency, t.createdAt)
      && t'.title == t.title && t'.createdAt == t.createdAt && t'.status == t.status && t'.closedAt == t.closedAt
      && t'.agent == t.agent
  {
    assert states[n + 1] == Apply(resolve, states[n], steps[n]);
  }

  /** An update leaves what it names, and every column that it does not touch as it was. */
  lemma UpdateWrites(resolve: Resolver, states: seq<State>, steps: seq<Step>, n: nat)
    requires IsRun(resolve, states, steps) && n < |steps| && steps[n].Update?
    requires Succeeds(resolve, states[n], steps[n])
    ensures states[n + 1].ticket.Some?
    ensures var t, t', step := states[n].ticket.value, states[n + 1].ticket.value, steps[n];
      && t'.agent == (if step.assignee.Some? then Some(step.assignee.value.id) else t.agent)
      && t'.status == (if step.status.Some? then step.status.value else t.status)
      && t'.closedAt == (if step.status.None? then t.closedAt
                         else if step.status == Some(Closed) then Some(step.now) else None)
      && t'.category == (if step.newCategory.Some? then step.newCategory else t.category)
      && t'.urgency == NextUrgency(t, step.newUrgency)
      && (if step.newCategory.Some? || step.newUrgency.Some?
          then t'.urgency.Some? && t'.dueAt == resolve(step.settings, t'.urgency.value, t.createdAt)
          else t'.dueAt == t.dueAt)
      && t'.title == t.title && t'.createdAt == t.createdAt && t'.classified == t.classified
  {
    assert states[n + 1] == Apply(resolve, states[n], steps[n]);
  }

  /** An escalation changes the status alone; and a step that does not go through changes nothing. */
  lemma OthersWrite(resolve: Resolver, states: seq<State>, steps: seq<Step>, n: nat)
    requires IsRun(resolve, states, steps) && n < |steps|
    ensures !Succeeds(resolve, states[n], steps[n]) ==> states[n + 1] == states[n]
    ensures steps[n].Escalate? && Succeeds(resolve, states[n], steps[n]) ==>
              states[n].ticket.Some?
              && states[n + 1] == State(Some(states[n].ticket.value.(status := Escalated)), states[n].resolvedEvents)
  {
    assert states[n + 1] == Apply(resolve, states[n], steps[n]);
  }

  // --- classification ---

  /** Once classified, always classified: duplicate deliveries and sweeps change nothing. */
  lemma {:induction false} ClassifiedOnce(resolve: Resolver, states: seq<State>, steps: seq<Step>, m: nat, n: nat)
    requires IsRun(resolve, states, steps) && m <= n < |states|
    requires states[m].ticket.Some? && states[m].ticket.value.classified
    ensures states[n].ticket.Some? && states[n].ticket.value.classified
    ensures states[n].ticket.value.createdAt == states[m].ticket.value.createdAt
    ensures forall k :: m <= k < n && steps[k].Classify? ==> states[k + 1] == states[k]
  {
    if m < n {
      ClassifiedOnce(resolve, states, steps, m, n - 1);
      assert states[n] == Apply(resolve, states[n - 1], steps[n - 1]);
    }
  }

  // --- resolved events ---

  /** The ticket's status was seen to change into resolved or closed. */
  predicate SeenToEnd(s: State, s': State) {
    && s.ticket.Some? && s'.ticket.Some?
    && s.ticket.value.status != s'.ticket.value.status && Terminal(s'.ticket.value.status)
  }

  function CountEnds(states: seq<State>): nat {
    if |states| <= 1 then 0
    else CountEnds(states[..|states| - 1]) + if SeenToEnd(states[|states| - 2], states[|states| - 1]) then 1 else 0
  }

  /** Resolved events number exactly the changes of status into resolved or closed that the run shows. */
  lemma {:induction false} ResolvedEventsCounted(resolve: Resolver, states: seq<State>, steps: seq<Step>, n: nat)
    requires IsRun(resolve, states, steps) && n < |states|
    ensures states[n].resolvedEvents == CountEnds(states[..n + 1])
  {
    if n > 0 {
      ResolvedEventsCounted(resolve, states, steps, n - 1);
      assert states[..n + 1][..n] == states[..n];
      assert states[n] == Apply(resolve, states[n - 1], steps[n - 1]);
    }
  }

  // --- who did it ---

  predicate Assigns(resolve: Resolver, s: State, step: Step) {
    step.Update? && step.assignee.Some? && Succeeds(resolve, s, step)
  }

  /** The assigned agent is the one named by the last assignment, which staff made, and is staff. */
  lemma {:induction false} AssignedByStaff(resolve: Resolver, states: seq<State>, steps: seq<Step>, n: nat)
    returns (k: nat)
    requires IsRun(resolve, states, steps) && n < |states|
    requires states[n].ticket.Some? && states[n].ticket.value.agent.Some?
    ensures k < n && Assigns(resolve, states[k], steps[k]) && Staff(steps[k].role)
    ensures Staff(steps[k].assignee.value.role) && steps[k].assignee.value.id == states[n].ticket.value.agent.value
    ensures forall j :: k < j < n ==> !Assigns(resolve, states[j], steps[j])
  {
    var s, step := states[n - 1], steps[n - 1];
    assert states[n] == Apply(resolve, s, step);
    if Assigns(resolve, s, step) {
      k := n - 1;
    } else {
      k := AssignedByStaff(resolve, states, steps, n - 1);
    }
  }

  predicate SameEnd(s: State, s': State) {
    s.ticket.Some? && s'.ticket.Some? && s.ticket.value.status == s'.ticket.value.status
    && s.ticket.value.closedAt == s'.ticket.value.closedAt
  }

  /** A resolved or closed ticket was made so by staff, and has stood so since; `closed_at` is that moment. */
  lemma {:induction false} EndedByStaff(resolve: Resolver, states: seq<State>, steps: seq<Step>, n: nat)
    returns (k: nat)
    requires IsRun(resolve, states, steps) && n < |states|
    requires states[n].ticket.Some? && Terminal(states[n].ticket.value.status)
    ensures k < n && steps[k].Update? && Staff(steps[k].role) && steps[k].status == Some(states[n].ticket.value.status)
    ensures states[n].ticket.value.closedAt
            == if states[n].ticket.value.status.Closed? then Some(steps[k].now) else None
    ensures forall j :: k < j <= n ==> SameEnd(states[j], states[n])
  {
    var s, step := states[n - 1], steps[n - 1];
    assert states[n] == Apply(resolve, s, step);
    if step.Update? && step.status.Some? && Succeeds(resolve, s, step) {
      k := n - 1;
    } else {
      k := EndedByStaff(resolve, states, steps, n - 1);
    }
  }
}
