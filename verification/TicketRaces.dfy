/**
  Overlapping changes of one ticket's status. A request loads the row without a lock, and later writes the columns it
  has changed against what it loaded; the database checks the row that results, and a request that fails is undone.
 */
module TicketRaces {
  import opened Wrappers
  import opened HelpdeskTypes

  type RequestId = nat

  datatype Row = Row(status: TicketStatus, closedAt: Option<int>)

  /** An update by a person, or an escalation from a chat, which does not touch `closed_at`. */
  datatype Intent = SetStatus(status: TicketStatus, now: int) | Escalate

  datatype Request = Request(intent: Intent, loaded: Row)

  datatype State = State(row: Row, requests: map<RequestId, Request>, events: nat)

  datatype Step = Load(r: RequestId, intent: Intent) | Write(r: RequestId)

  /** The CHECK constraint on `closed_at`. */
  predicate Consistent(row: Row) { row.status.Closed? <==> row.closedAt.Some? }

  /** The row as the request wants it, from what it loaded. */
  function Wanted(q: Request): Row {
    match q.intent
    case SetStatus(status, now) => Row(status, if status.Closed? then Some(now) else None)
    case Escalate => q.loaded.(status := Escalated)
  }

  /** Only columns that differ from the loaded ones are written. */
  function Written(row: Row, q: Request): Row {
    Row(if Wanted(q).status != q.loaded.status then Wanted(q).status else row.status,
        if Wanted(q).closedAt != q.loaded.closedAt then Wanted(q).closedAt else row.closedAt)
  }

  predicate Aborted(row: Row, q: Request) { !Consistent(Written(row, q)) }

  /** A resolved event goes with an update into resolved or closed from another status, as loaded. */
  predicate Records(q: Request) {
    q.intent.SetStatus? && Terminal(q.intent.status) && q.loaded.status != q.intent.status
  }

  predicate Enabled(s: State, step: Step) {
    match step
    case Load(r, _) => r !in s.requests
    case Write(r) => r in s.requests
  }

  function Apply(s: State, step: Step): State
    requires Enabled(s, step)
  {
    match step
    case Load(r, intent) => s.(requests := s.requests[r := Request(intent, s.row)])
    case Write(r) =>
      var q := s.requests[r];
      var s' := s.(requests := s.requests - {r});
      if Aborted(s.row, q) then s'
      else s'.(row := Written(s.row, q), events := s.events + if Records(q) then 1 else 0)
  }

  ghost predicate IsRun(states: seq<State>, steps: seq<Step>) {
    && |states| == |steps| + 1
    && states[0] == State(Row(Open, None), map[], 0)
    && forall i :: 0 <= i < |steps| ==> Enabled(states[i], steps[i]) && states[i + 1] == Apply(states[i], steps[i])
  }

  ghost predicate Inv(s: State) {
    Consistent(s.row) && forall r :: r in s.requests ==> Consistent(s.requests[r].loaded)
  }

  /** However requests overlap, the stored row is consistent, and so is what every request has loaded. */
  lemma {:induction false} RowStaysConsistent(states: seq<State>, steps: seq<Step>, n: nat)
    requires IsRun(states, steps) && n < |states|
    ensures Inv(states[n])
  {
    if n > 0 {
      RowStaysConsistent(states, steps, n - 1);
      assert states[n] == Apply(states[n - 1], steps[n - 1]);
    }
  }

  /** The three ways in which a request can run into the constraint. */
  predicate Collides(row: Row, q: Request) {
    match q.intent
    case SetStatus(Closed, now) => q.loaded.status.Closed? && q.loaded.closedAt != Some(now) && !row.status.Closed?
    case SetStatus(status, _) => !q.loaded.status.Closed? && q.loaded.status != status && row.status.Closed?
    case Escalate => row.status.Closed? && !q.loaded.status.Escalated?
  }

  /**
    A request is aborted by the constraint if and only if it closes a ticket again that was reopened since it was
    loaded, moves a ticket on that was closed since it was loaded, or escalates a closed one.
   */
  lemma AbortedIff(states: seq<State>, steps: seq<Step>, n: nat, r: RequestId)
    requires IsRun(states, steps) && n < |states| && r in states[n].requests
    ensures Aborted(states[n].row, states[n].requests[r]) <==> Collides(states[n].row, states[n].requests[r])
  {
    RowStaysConsistent(states, steps, n);
  }

  // --- resolved events ---

  /** The stored status changed into resolved or closed. */
  predicate Ends(s: State, s': State) { s.row.status != s'.row.status && Terminal(s'.row.status) }

  /** The step records an event although the ticket stands in that status already. */
  predicate Repeats(s: State, step: Step) {
    step.Write? && step.r in s.requests
    && var q := s.requests[step.r];
    Records(q) && !Aborted(s.row, q) && s.row.status == q.intent.status
  }

  function CountEnds(states: seq<State>): nat {
    if |states| <= 1 then 0
    else CountEnds(states[..|states| - 1]) + if Ends(states[|states| - 2], states[|states| - 1]) then 1 else 0
  }

  function CountRepeats(states: seq<State>, steps: seq<Step>): nat
    requires |states| >= |steps|
  {
    if steps == [] then 0
    else
      var n := |steps| - 1;
      CountRepeats(states, steps[..n]) + if Repeats(states[n], steps[n]) then 1 else 0
  }

  lemma StepRecords(s: State, step: Step)
    requires Enabled(s, step)
    ensures var s' := Apply(s, step);
      s'.events == s.events + (if Ends(s, s') then 1 else 0) + (if Repeats(s, step) then 1 else 0)
  {
  }

  /** Over every interleaving, resolved events number the ends of the ticket, plus the repeated ones. */
  lemma {:induction false} EventsCounted(states: seq<State>, steps: seq<Step>, n: nat)
    requires IsRun(states, steps) && n < |states|
    ensures states[n].events == CountEnds(states[..n + 1]) + CountRepeats(states, steps[..n])
  {
    if n > 0 {
      EventsCounted(states, steps, n - 1);
      StepRecords(states[n - 1], steps[n - 1]);
      assert states[..n + 1][..n] == states[..n];
      assert steps[..n][..n - 1] == steps[..n - 1];
    }
  }

  lemma {:induction false} NoRepeatsIff(states: seq<State>, steps: seq<Step>)
    requires |states| >= |steps|
    ensures CountRepeats(states, steps) == 0 <==> forall i :: 0 <= i < |steps| ==> !Repeats(states[i], steps[i])
  {
    if steps != [] {
      var n := |steps| - 1;
      NoRepeatsIff(states, steps[..n]);
      assert forall i :: 0 <= i < n ==> steps[..n][i] == steps[i];
    }
  }

  /**
    Along an interleaving each end of the ticket has exactly one event if and only if no request resolves or closes the
    ticket to a status that another one has given it since it was loaded.
   */
  lemma EventsExactIff(states: seq<State>, steps: seq<Step>)
    requires IsRun(states, steps)
    ensures states[|steps|].events == CountEnds(states)
            <==> forall i :: 0 <= i < |steps| ==> !Repeats(states[i], steps[i])
  {
    EventsCounted(states, steps, |steps|);
    NoRepeatsIff(states, steps);
    assert states[..|steps| + 1] == states && steps[..|steps|] == steps;
  }

  /** Requests that do not overlap are written on the row they loaded. */
  ghost predicate Serial(states: seq<State>, steps: seq<Step>)
    requires IsRun(states, steps)
  {
    forall i :: 0 <= i < |steps| && steps[i].Write? ==>
      states[i].requests[steps[i].r].loaded == states[i].row
  }

  /** Without overlaps there is one event for each end, and only an escalation of a closed ticket is aborted. */
  lemma SerialExact(states: seq<State>, steps: seq<Step>)
    requires IsRun(states, steps) && Serial(states, steps)
    ensures states[|steps|].events == CountEnds(states)
    ensures forall i :: 0 <= i < |steps| && steps[i].Write? ==>
              var q := states[i].requests[steps[i].r];
              Aborted(states[i].row, q) ==> q.intent.Escalate? && states[i].row.status.Closed?
  {
    EventsExactIff(states, steps);
    forall i | 0 <= i < |steps| && steps[i].Write?
      ensures var q := states[i].requests[steps[i].r];
        Aborted(states[i].row, q) ==> q.intent.Escalate? && states[i].row.status.Closed?
    {
      AbortedIff(states, steps, i, steps[i].r);
    }
  }

  /** Two closes that overlap: the ticket ends once, and two events say so. */
  lemma TwoClosesTwoEvents(a: int, b: int) returns (states: seq<State>, steps: seq<Step>)
    requires a < b
    ensures IsRun(states, steps) && states[|steps|].row == Row(Closed, Some(b))
    ensures states[|steps|].events == 2 && CountEnds(states) == 1
  {
    var q1, q2 := Request(SetStatus(Closed, a), Row(Open, None)), Request(SetStatus(Closed, b), Row(Open, None));
    steps := [Load(1, q1.intent), Load(2, q2.intent), Write(1), Write(2)];
    var s0 := State(Row(Open, None), map[], 0);
    var s1 := State(Row(Open, None), map[1 := q1], 0);
    var s2 := State(Row(Open, None), map[1 := q1, 2 := q2], 0);
    var s3 := State(Row(Closed, Some(a)), map[2 := q2], 1);
    var s4 := State(Row(Closed, Some(b)), map[], 2);
    states := [s0, s1, s2, s3, s4];
    assert s2.requests - {1} == s3.requests && s3.requests - {2} == s4.requests;
    assert Repeats(s3, Write(2)) && !Repeats(s2, Write(1));
    EventsCounted(states, steps, 4);
    assert states[..5] == states && steps[..4] == steps;
    assert steps[..3] == [steps[0], steps[1], steps[2]] && steps[..3][..2] == [steps[0], steps[1]]
           && steps[..3][..2][..1] == [steps[0]] && steps[..3][..2][..1][..0] == [];
  }
}
