/**
  Chat turns: the bounded tool-dispatch loop of `send_message`, escalation to a human, and the low-confidence streak.
  Replies of the language model and outcomes of database calls are inputs.
 */
module Chat {
  import opened Wrappers

  type Id = int

  datatype SessionStatus = Active | Escalated | Closed

  datatype Role = UserRow | AssistantRow | ToolRow

  datatype Session = Session(user: Option<Id>, ticket: Option<Id>, status: SessionStatus, escalatedAt: Option<int>,
                             streak: nat, rows: seq<Role>)

  /** A tool call the model asked for; `fails` when the handler raises for a reason of its own. */
  datatype Call =
    | CheckTicketStatus(fails: bool)
    | CreateTicket(contracts: nat, id: Id, fails: bool)
    | ScheduleVisit(fails: bool)
    | EscalateToHuman(id: Id, now: int, fails: bool)

  /** A model reply: text when it asks for no tool. */
  datatype Reply = Reply(calls: seq<Call>)

  /** One inbound turn: chunks retrieved, the model's reply in each round, and the automatic escalation's inputs. */
  datatype Turn = Turn(chunks: nat, replies: nat -> Reply, ticketId: Id, now: int, escalationFails: bool)

  // --- tools ---

  /** `escalate_to_human`: the time is stamped once; an identified session gets a ticket if it has none. */
  function Escalate(s: Session, id: Id, now: int): Session {
    s.(escalatedAt := if s.escalatedAt.None? then Some(now) else s.escalatedAt,
       ticket := if s.user.Some? && s.ticket.None? then Some(id) else s.ticket,
       status := Escalated)
  }

  /** One handler; nothing when it raises (a ticket may be linked to an identified session only). */
  function Dispatch(s: Session, call: Call): Option<Session> {
    if call.fails then None
    else match call
      case CheckTicketStatus(_) => Some(s)
      case CreateTicket(contracts, id, _) =>
        if contracts != 1 then Some(s) else if s.user.None? then None else Some(s.(ticket := Some(id)))
      case ScheduleVisit(_) => Some(s)
      case EscalateToHuman(id, now, _) => Some(Escalate(s, id, now))
  }

  /** A round's calls in order, each followed by its tool row. */
  function DispatchAll(s: Session, calls: seq<Call>): Option<Session> {
    if calls == [] then Some(s)
    else
      var before := DispatchAll(s, calls[..|calls| - 1]);
      if before.None? then None
      else
        var after := Dispatch(before.value, calls[|calls| - 1]);
        if after.None? then None else Some(after.value.(rows := after.value.rows + [ToolRow]))
  }

  /** Rounds from `round` on: the session they leave and how many model calls they make. */
  function Rounds(s: Session, replies: nat -> Reply, round: nat, maxRounds: nat): Option<(Session, nat)>
    requires round <= maxRounds
    decreases maxRounds - round
  {
    if round == maxRounds || replies(round).calls == [] then Some((s, 1))
    else
      var next := DispatchAll(s, replies(round).calls);
      if next.None? then None
      else
        var rest := Rounds(next.value, replies, round + 1, maxRounds);
        if rest.None? then None else Some((rest.value.0, rest.value.1 + 1))
  }

  /** The end of a turn: the assistant row, the streak, and the automatic escalation at a streak of two. */
  function Conclude(s: Session, turn: Turn): Option<(Session, bool)> {
    var s1 := s.(rows := s.rows + [AssistantRow], streak := if turn.chunks == 0 then s.streak + 1 else 0);
    if s1.streak < 2 then Some((s1, false))
    else if turn.escalationFails then None
    else Some((Escalate(s1, turn.ticketId, turn.now).(streak := 0), true))
  }

  /** The whole turn: the session afterwards, model calls made, and whether it escalated by itself. */
  function CompletedTurn(s: Session, turn: Turn, maxRounds: nat): Option<(Session, nat, bool)> {
    var r := Rounds(s.(rows := s.rows + [UserRow]), turn.replies, 0, maxRounds);
    if r.None? then None
    else
      var c := Conclude(r.value.0, turn);
      if c.None? then None else Some((c.value.0, r.value.1, c.value.1))
  }

  // --- the code's own steps ---

  class ChatSession {
    var session: Session

    constructor (s: Session)
      ensures session == s
    {
      session := s;
    }

    method HandleCalls(calls: seq<Call>) returns (raised: bool)
      modifies this
      ensures raised <==> DispatchAll(old(session), calls).None?
      ensures !raised ==> session == DispatchAll(old(session), calls).value
    {
      for i := 0 to |calls|
        invariant DispatchAll(old(session), calls[..i]) == Some(session)
      {
        assert calls[..i + 1][..i] == calls[..i];
        var result := Dispatch(session, calls[i]);
        if result.None? {
          DispatchStops(old(session), calls, i + 1);
          return true;
        }
        session := result.value.(rows := result.value.rows + [ToolRow]);
      }
      assert calls[..|calls|] == calls;
      return false;
    }

    /** Afterwards either the turn is complete or it has raised, and the request rolls everything back. */
    method SendMessage(turn: Turn, maxRounds: nat) returns (raised: bool, llmCalls: nat, escalated: bool)
      modifies this
      ensures raised <==> CompletedTurn(old(session), turn, maxRounds).None?
      ensures !raised ==> CompletedTurn(old(session), turn, maxRounds) == Some((session, llmCalls, escalated))
    {
      hide DispatchAll, Dispatch, Escalate;
      session := session.(rows := session.rows + [UserRow]);
      ghost var started := session;
      var lowConfidence := turn.chunks == 0;
      llmCalls, escalated := 0, false;
      var round := 0;
      var answered := false;
      while round < maxRounds && !answered
        invariant round <= maxRounds && llmCalls == round + (if answered then 1 else 0)
        invariant answered ==> Rounds(started, turn.replies, 0, maxRounds) == Some((session, llmCalls))
        invariant !answered ==> Rounds(started, turn.replies, 0, maxRounds)
                                 == Plus(Rounds(session, turn.replies, round, maxRounds), llmCalls)
        decreases maxRounds - round, !answered
      {
        var reply := turn.replies(round);
        llmCalls := llmCalls + 1;
        if reply.calls == [] {
          answered := true;
        } else {
          raised := HandleCalls(reply.calls);
          if raised {
            return;
          }
          round := round + 1;
        }
      }
      if !answered {
        llmCalls := llmCalls + 1;
      }
      session := session.(rows := session.rows + [AssistantRow]);
      session := session.(streak := if lowConfidence then session.streak + 1 else 0);
      if session.streak >= 2 {
        if turn.escalationFails {
          return true, llmCalls, escalated;
        }
        session := Escalate(session, turn.ticketId, turn.now);
        escalated := true;
        session := session.(streak := 0);
      }
      return false, llmCalls, escalated;
    }
  }

  function Plus(r: Option<(Session, nat)>, n: nat): Option<(Session, nat)> {
    if r.None? then None else Some((r.value.0, r.value.1 + n))
  }

  lemma {:induction false} DispatchStops(s: Session, calls: seq<Call>, i: nat)
    requires i <= |calls| && DispatchAll(s, calls[..i]).None?
    ensures DispatchAll(s, calls).None?
    decreases |calls| - i
  {
    if i < |calls| {
      assert calls[..i + 1][..i] == calls[..i];
      DispatchStops(s, calls, i + 1);
    } else {
      assert calls[..i] == calls;
    }
  }

  // --- one turn ---

  function Count(rows: seq<Role>, r: Role): nat {
    if rows == [] then 0 else Count(rows[..|rows| - 1], r) + if rows[|rows| - 1] == r then 1 else 0
  }

  /** What tools leave alone, and how they may move a session. */
  ghost predicate Moves(s: Session, s': Session) {
    && s'.user == s.user && s'.streak == s.streak
    && (s.escalatedAt.Some? ==> s'.escalatedAt == s.escalatedAt)
    && (s.status.Escalated? ==> s'.status.Escalated?)
    && (s.ticket.Some? ==> s'.ticket.Some?)
    && (Linked(s) ==> Linked(s'))
    && Count(s'.rows, UserRow) == Count(s.rows, UserRow) && Count(s'.rows, AssistantRow) == Count(s.rows, AssistantRow)
  }

  /** An identified escalated session has a ticket; the ticket column stays empty without a user. */
  predicate Linked(s: Session) {
    (s.user.Some? && s.status.Escalated? ==> s.ticket.Some?) && (s.ticket.Some? ==> s.user.Some?)
  }

  lemma CountAppend(rows: seq<Role>, r: Role, q: Role)
    ensures Count(rows + [r], q) == Count(rows, q) + if r == q then 1 else 0
  {
    assert (rows + [r])[..|rows|] == rows;
  }

  lemma {:induction false} DispatchMoves(s: Session, calls: seq<Call>)
    requires DispatchAll(s, calls).Some?
    ensures Moves(s, DispatchAll(s, calls).value)
  {
    if calls != [] {
      var n := |calls| - 1;
      DispatchMoves(s, calls[..n]);
      var after := Dispatch(DispatchAll(s, calls[..n]).value, calls[n]).value;
      CountAppend(after.rows, ToolRow, UserRow);
      CountAppend(after.rows, ToolRow, AssistantRow);
    }
  }

  lemma {:induction false} RoundsMove(s: Session, replies: nat -> Reply, round: nat, maxRounds: nat)
    requires round <= maxRounds && Rounds(s, replies, round, maxRounds).Some?
    ensures Moves(s, Rounds(s, replies, round, maxRounds).value.0)
    ensures 1 <= Rounds(s, replies, round, maxRounds).value.1 <= maxRounds - round + 1
    decreases maxRounds - round
  {
    if round < maxRounds && replies(round).calls != [] {
      DispatchMoves(s, replies(round).calls);
      RoundsMove(DispatchAll(s, replies(round).calls).value, replies, round + 1, maxRounds);
    }
  }

  /** The streak and the automatic escalation of a completed turn depend only on the streak before and on retrieval. */
  lemma TurnStreak(s: Session, turn: Turn, maxRounds: nat)
    requires CompletedTurn(s, turn, maxRounds).Some?
    ensures var (s', llmCalls, escalated) := CompletedTurn(s, turn, maxRounds).value;
      && (escalated <==> turn.chunks == 0 && s.streak >= 1)
      && (escalated ==> s'.status.Escalated? && s'.escalatedAt.Some?)
      && s'.streak == if turn.chunks == 0 && !escalated then s.streak + 1 else 0
  {
    RoundsMove(s.(rows := s.rows + [UserRow]), turn.replies, 0, maxRounds);
    hide Rounds, Count, Linked;
  }

  /**
    Every completed turn makes between one and `maxRounds + 1` model calls, stores exactly one user and one assistant
    row, and never unsets an escalation.
   */
  lemma TurnBounds(s: Session, turn: Turn, maxRounds: nat)
    requires CompletedTurn(s, turn, maxRounds).Some?
    ensures var (s', llmCalls, escalated) := CompletedTurn(s, turn, maxRounds).value;
      && 1 <= llmCalls <= maxRounds + 1
      && Count(s'.rows, UserRow) == Count(s.rows, UserRow) + 1
      && Count(s'.rows, AssistantRow) == Count(s.rows, AssistantRow) + 1
      && s'.user == s.user
      && (s.escalatedAt.Some? ==> s'.escalatedAt == s.escalatedAt)
      && (s.status.Escalated? ==> s'.status.Escalated?)
      && (Linked(s) ==> Linked(s'))
  {
    var s0 := s.(rows := s.rows + [UserRow]);
    CountAppend(s.rows, UserRow, UserRow);
    CountAppend(s.rows, UserRow, AssistantRow);
    RoundsMove(s0, turn.replies, 0, maxRounds);
    ConcludeKeeps(Rounds(s0, turn.replies, 0, maxRounds).value.0, turn);
    hide Rounds, Count, Conclude;
  }

  lemma ConcludeKeeps(s: Session, turn: Turn)
    requires Conclude(s, turn).Some?
    ensures var s' := Conclude(s, turn).value.0;
      && s'.user == s.user
      && Count(s'.rows, UserRow) == Count(s.rows, UserRow)
      && Count(s'.rows, AssistantRow) == Count(s.rows, AssistantRow) + 1
      && (s.escalatedAt.Some? ==> s'.escalatedAt == s.escalatedAt)
      && (s.status.Escalated? ==> s'.status.Escalated?)
      && (Linked(s) ==> Linked(s'))
  {
    CountAppend(s.rows, AssistantRow, UserRow);
    CountAppend(s.rows, AssistantRow, AssistantRow);
    hide Count;
  }

  // --- what a turn does with the model's replies ---

  /** The calls of the replies from `round` on, up to the first reply that asks for no tool, or to the last round. */
  function Executed(replies: nat -> Reply, round: nat, maxRounds: nat): seq<Call>
    requires round <= maxRounds
    decreases maxRounds - round
  {
    if round == maxRounds || replies(round).calls == [] then []
    else replies(round).calls + Executed(replies, round + 1, maxRounds)
  }

  lemma {:induction false} DispatchAppend(s: Session, a: seq<Call>, b: seq<Call>)
    ensures DispatchAll(s, a + b)
            == if DispatchAll(s, a).None? then None else DispatchAll(DispatchAll(s, a).value, b)
  {
    if b == [] {
      assert a + b == a;
    } else {
      var n := |b| - 1;
      DispatchAppend(s, a, b[..n]);
      assert (a + b)[..|a + b| - 1] == a + b[..n];
    }
  }

  /** The rounds dispatch those calls in order, and make one model call more than there are rounds. */
  lemma {:induction false} RoundsExecute(s: Session, replies: nat -> Reply, round: nat, maxRounds: nat)
    returns (last: nat)
    requires round <= maxRounds
    ensures round <= last <= maxRounds && (last < maxRounds ==> replies(last).calls == [])
    ensures forall k :: round <= k < last ==> replies(k).calls != []
    ensures var done := DispatchAll(s, Executed(replies, round, maxRounds));
      Rounds(s, replies, round, maxRounds) == if done.None? then None else Some((done.value, last - round + 1))
    decreases maxRounds - round
  {
    hide Dispatch;
    last := round;
    if round < maxRounds && replies(round).calls != [] {
      var calls := replies(round).calls;
      DispatchAppend(s, calls, Executed(replies, round + 1, maxRounds));
      var next := DispatchAll(s, calls);
      last := RoundsExecute(if next.Some? then next.value else s, replies, round + 1, maxRounds);
    }
  }

  /** A call raises when its handler does, or when it would link a ticket to an anonymous session. */
  predicate Raises(user: Option<Id>, call: Call) {
    call.fails || (call.CreateTicket? && call.contracts == 1 && user.None?)
  }

  predicate Escalates(call: Call) { call.EscalateToHuman? }

  predicate Links(call: Call) { call.CreateTicket? && call.contracts == 1 }

  function ToolRows(n: nat): seq<Role> { seq(n, i => ToolRow) }

  /** The calls of a turn raise exactly when one of them does, and otherwise each leaves its tool row. */
  lemma {:induction false} CallsRaiseIff(s: Session, calls: seq<Call>)
    ensures DispatchAll(s, calls).None? <==> exists i :: 0 <= i < |calls| && Raises(s.user, calls[i])
    ensures DispatchAll(s, calls).Some? ==>
              var s' := DispatchAll(s, calls).value;
              s'.user == s.user && s'.streak == s.streak && s'.rows == s.rows + ToolRows(|calls|)
  {
    if calls != [] {
      var n := |calls| - 1;
      CallsRaiseIff(s, calls[..n]);
      assert forall i :: 0 <= i < n ==> calls[..n][i] == calls[i];
      assert ToolRows(n + 1) == ToolRows(n) + [ToolRow];
    }
  }

  predicate NoneEscalates(calls: seq<Call>) { forall i :: 0 <= i < |calls| ==> !Escalates(calls[i]) }

  predicate NoneLinks(calls: seq<Call>) { forall i :: 0 <= i < |calls| ==> !Links(calls[i]) }

  /** Call `i` is the first escalation. */
  predicate FirstEscalates(calls: seq<Call>, i: nat) {
    i < |calls| && Escalates(calls[i]) && NoneEscalates(calls[..i])
  }

  /** Call `i` is the last that links a ticket. */
  predicate LastLinks(calls: seq<Call>, i: nat) {
    i < |calls| && Links(calls[i]) && NoneLinks(calls[i + 1..])
  }

  lemma OneMoreCall(calls: seq<Call>, i: nat)
    requires calls != []
    ensures var n := |calls| - 1;
      && (NoneEscalates(calls) <==> NoneEscalates(calls[..n]) && !Escalates(calls[n]))
      && (NoneLinks(calls) <==> NoneLinks(calls[..n]) && !Links(calls[n]))
      && (FirstEscalates(calls, i) <==>
            FirstEscalates(calls[..n], i) || (i == n && Escalates(calls[n]) && NoneEscalates(calls[..n])))
      && (LastLinks(calls, i) <==> (LastLinks(calls[..n], i) && !Links(calls[n])) || (i == n && Links(calls[n])))
  {
    var n := |calls| - 1;
    if i < n {
      assert calls[..n][..i] == calls[..i];
      assert calls[i + 1..] == calls[..n][i + 1..] + [calls[n]];
      assert calls[i + 1..][n - i - 1] == calls[n];
    }
  }

  /** They escalate the session exactly when one of them is an escalation, and stamp the time of the first. */
  lemma {:induction false} CallsEscalate(s: Session, calls: seq<Call>, i: nat)
    requires DispatchAll(s, calls).Some?
    ensures var s' := DispatchAll(s, calls).value;
      && s'.status == (if NoneEscalates(calls) then s.status else Escalated)
      && (s.escalatedAt.Some? || NoneEscalates(calls) ==> s'.escalatedAt == s.escalatedAt)
      && (s.escalatedAt.None? && FirstEscalates(calls, i) ==> s'.escalatedAt == Some(calls[i].now))
  {
    if calls != [] {
      OneMoreCall(calls, i);
      CallsEscalate(s, calls[..|calls| - 1], i);
      hide NoneEscalates, FirstEscalates;
      if !NoneEscalates(calls[..|calls| - 1]) { CallsEscalated(s, calls[..|calls| - 1]); }
    }
  }

  lemma {:induction false} CallsEscalated(s: Session, calls: seq<Call>)
    requires DispatchAll(s, calls).Some? && !NoneEscalates(calls)
    ensures DispatchAll(s, calls).value.escalatedAt.Some?
  {
    OneMoreCall(calls, 0);
    if !NoneEscalates(calls[..|calls| - 1]) { CallsEscalated(s, calls[..|calls| - 1]); }
    hide NoneEscalates;
  }

  /** The last ticket created for the one contract is linked; without one, the first escalation's if there was none. */
  lemma {:induction false} CallsLink(s: Session, calls: seq<Call>, i: nat)
    requires DispatchAll(s, calls).Some?
    ensures var s' := DispatchAll(s, calls).value;
      && (LastLinks(calls, i) ==> s'.ticket == Some(calls[i].id))
      && (NoneLinks(calls) && (s.ticket.Some? || s.user.None? || NoneEscalates(calls)) ==> s'.ticket == s.ticket)
      && (NoneLinks(calls) && s.ticket.None? && s.user.Some? && FirstEscalates(calls, i) ==>
            s'.ticket == Some(calls[i].id))
  {
    if calls != [] {
      var before := calls[..|calls| - 1];
      OneMoreCall(calls, i);
      CallsLink(s, before, i);
      CallsRaiseIff(s, before);
      if LastLinks(before, i) || !NoneEscalates(before) { CallsLinked(s, before, i); }
      hide NoneEscalates, FirstEscalates, NoneLinks, LastLinks;
    }
  }

  lemma {:induction false} CallsLinked(s: Session, calls: seq<Call>, i: nat)
    requires DispatchAll(s, calls).Some? && (LastLinks(calls, i) || !NoneEscalates(calls))
    ensures s.user.Some? ==> DispatchAll(s, calls).value.ticket.Some?
  {
    OneMoreCall(calls, i);
    var before := calls[..|calls| - 1];
    CallsRaiseIff(s, before);
    if LastLinks(before, i) || !NoneEscalates(before) { CallsLinked(s, before, i); }
    hide NoneEscalates, FirstEscalates, NoneLinks, LastLinks, Raises;
  }

  /** A second low-confidence turn in a row escalates by itself. */
  predicate Insists(s: Session, turn: Turn) { turn.chunks == 0 && s.streak >= 1 }

  /** A turn raises exactly when one of the calls it executes does, or its own escalation does. */
  lemma TurnRaisesIff(s: Session, turn: Turn, maxRounds: nat)
    ensures var calls := Executed(turn.replies, 0, maxRounds);
      CompletedTurn(s, turn, maxRounds).None?
      <==> (exists i :: 0 <= i < |calls| && Raises(s.user, calls[i])) || (Insists(s, turn) && turn.escalationFails)
  {
    var s0 := s.(rows := s.rows + [UserRow]);
    var last := RoundsExecute(s0, turn.replies, 0, maxRounds);
    CallsRaiseIff(s0, Executed(turn.replies, 0, maxRounds));
    hide Rounds, DispatchAll, Executed, Raises;
  }

  /**
    A completed turn leaves the user's row, one row for each tool call and the assistant's; it makes one model call for
    each round up to the first that asks for no tool, and one at the end of all; and the session is escalated after it
    if and only if it was, the model asked for it, or a second low-confidence turn in a row did.
   */
  lemma TurnWrites(s: Session, turn: Turn, maxRounds: nat) returns (last: nat)
    requires CompletedTurn(s, turn, maxRounds).Some?
    ensures last <= maxRounds && (last < maxRounds ==> turn.replies(last).calls == [])
    ensures forall k :: 0 <= k < last ==> turn.replies(k).calls != []
    ensures var calls := Executed(turn.replies, 0, maxRounds);
      var (s', llmCalls, escalated) := CompletedTurn(s, turn, maxRounds).value;
      && llmCalls == last + 1 && (escalated <==> Insists(s, turn))
      && s'.rows == s.rows + [UserRow] + ToolRows(|calls|) + [AssistantRow]
      && s'.status == (if escalated || !NoneEscalates(calls) then Escalated else s.status)
      && (!escalated && NoneEscalates(calls) ==> s'.escalatedAt == s.escalatedAt)
  {
    var s0 := s.(rows := s.rows + [UserRow]);
    var calls := Executed(turn.replies, 0, maxRounds);
    last := RoundsExecute(s0, turn.replies, 0, maxRounds);
    CallsRaiseIff(s0, calls);
    CallsEscalate(s0, calls, 0);
    hide Rounds, DispatchAll, Executed, Raises, ToolRows, NoneEscalates;
  }

  /** For the session's status, time and ticket an automatic escalation is one more escalation call. */
  lemma TurnIsCalls(s: Session, turn: Turn, maxRounds: nat)
    requires CompletedTurn(s, turn, maxRounds).Some?
    ensures var s' := CompletedTurn(s, turn, maxRounds).value.0;
      var auto := if Insists(s, turn) then [EscalateToHuman(turn.ticketId, turn.now, false)] else [];
      var done := DispatchAll(s, Executed(turn.replies, 0, maxRounds) + auto);
      && done.Some? && s'.user == done.value.user
      && s'.status == done.value.status && s'.escalatedAt == done.value.escalatedAt && s'.ticket == done.value.ticket
  {
    var s0, calls := s.(rows := s.rows + [UserRow]), Executed(turn.replies, 0, maxRounds);
    var auto := if Insists(s, turn) then [EscalateToHuman(turn.ticketId, turn.now, false)] else [];
    var last := RoundsExecute(s0, turn.replies, 0, maxRounds);
    RowsApart(s, s0, calls);
    DispatchAppend(s, calls, auto);
    CallsRaiseIff(s0, calls);
    hide Rounds, Executed, Raises;
    OneCall(DispatchAll(s, calls).value, EscalateToHuman(turn.ticketId, turn.now, false));
  }

  lemma OneCall(s: Session, call: Call)
    ensures DispatchAll(s, []) == Some(s)
    ensures var after := Dispatch(s, call);
      DispatchAll(s, [call]) == if after.None? then None else Some(after.value.(rows := after.value.rows + [ToolRow]))
  {
    assert [call][..0] == [];
  }

  /** What calls do does not depend on the rows. */
  lemma {:induction false} RowsApart(s: Session, s': Session, calls: seq<Call>)
    requires s'.(rows := s.rows) == s
    ensures DispatchAll(s, calls).Some? <==> DispatchAll(s', calls).Some?
    ensures DispatchAll(s, calls).Some? ==>
              DispatchAll(s', calls).value.(rows := DispatchAll(s, calls).value.rows) == DispatchAll(s, calls).value
  {
    if calls != [] { RowsApart(s, s', calls[..|calls| - 1]); }
  }

  // --- sequences of completed turns ---

  ghost predicate IsRun(states: seq<Session>, turns: seq<Turn>, maxRounds: nat) {
    && |states| == |turns| + 1
    && states[0].streak == 0 && Linked(states[0])
    && forall i :: 0 <= i < |turns| ==>
         CompletedTurn(states[i], turns[i], maxRounds).Some?
         && states[i + 1] == CompletedTurn(states[i], turns[i], maxRounds).value.0
  }

  /** Which turns were low-confidence. */
  function Lows(turns: seq<Turn>): seq<bool> {
    if turns == [] then [] else Lows(turns[..|turns| - 1]) + [turns[|turns| - 1].chunks == 0]
  }

  /** Lengths of the maximal runs of `true`, in order. */
  function RunLengths(lows: seq<bool>): seq<nat> {
    if lows == [] then []
    else
      var rest := RunLengths(lows[..|lows| - 1]);
      if !lows[|lows| - 1] then rest
      else if |lows| >= 2 && lows[|lows| - 2] && rest != [] then rest[|rest| - 1 := rest[|rest| - 1] + 1]
      else rest + [1]
  }

  function HalfSum(lengths: seq<nat>): nat {
    if lengths == [] then 0 else HalfSum(lengths[..|lengths| - 1]) + lengths[|lengths| - 1] / 2
  }

  /** How many of the first `n` turns escalated by themselves. */
  function AutoEscalations(states: seq<Session>, turns: seq<Turn>, n: nat, maxRounds: nat): nat
    requires n <= |turns| && n <= |states|
  {
    if n == 0 then 0
    else
      var r := CompletedTurn(states[n - 1], turns[n - 1], maxRounds);
      AutoEscalations(states, turns, n - 1, maxRounds) + if r.Some? && r.value.2 then 1 else 0
  }

  /** Length of the low-confidence run still in progress. */
  function OpenRun(lows: seq<bool>): nat {
    if lows == [] || !lows[|lows| - 1] || RunLengths(lows) == [] then 0 else RunLengths(lows)[|RunLengths(lows)| - 1]
  }

  lemma HalfSumLast(lengths: seq<nat>, n: nat)
    ensures lengths != [] ==> HalfSum(lengths[|lengths| - 1 := n]) == HalfSum(lengths[..|lengths| - 1]) + n / 2
    ensures HalfSum(lengths + [n]) == HalfSum(lengths) + n / 2
  {
    if lengths != [] {
      var k := |lengths| - 1;
      assert lengths[k := n][..k] == lengths[..k];
    }
    assert (lengths + [n])[..|lengths|] == lengths;
  }

  /** One more turn: a low one lengthens the run in progress, and every second one adds an escalation. */
  lemma RunsStep(lows: seq<bool>, low: bool)
    ensures OpenRun(lows + [low]) == if low then OpenRun(lows) + 1 else 0
    ensures HalfSum(RunLengths(lows + [low]))
            == HalfSum(RunLengths(lows)) + if low && OpenRun(lows) % 2 == 1 then 1 else 0
  {
    var more, runs := lows + [low], RunLengths(lows);
    assert more[..|lows|] == lows;
    if low {
      if lows != [] && lows[|lows| - 1] && runs != [] {
        HalfSumLast(runs, runs[|runs| - 1] + 1);
      } else {
        HalfSumLast(runs, 1);
      }
    }
  }

  lemma ParityStep(low: bool, run: nat, run': nat, streak: nat, streak': nat)
    requires streak == run % 2 && run' == (if low then run + 1 else 0)
    requires streak' == if low && streak == 0 then 1 else 0
    ensures streak' == run' % 2 && (streak >= 1 <==> run % 2 == 1)
  {
  }

  /**
    Automatic escalations after any number of completed turns are the sum, over the maximal runs of consecutive
    low-confidence turns, of half the run's length rounded down; the streak is the parity of the run in progress.
   */
  lemma {:induction false} EscalationsPerRun(states: seq<Session>, turns: seq<Turn>, n: nat, maxRounds: nat)
    requires IsRun(states, turns, maxRounds) && n <= |turns|
    ensures AutoEscalations(states, turns, n, maxRounds) == HalfSum(RunLengths(Lows(turns[..n])))
    ensures states[n].streak == OpenRun(Lows(turns[..n])) % 2
    decreases n
  {
    if n == 0 {
      assert turns[..0] == [];
    } else {
      var m := n - 1;
      EscalationsPerRun(states, turns, m, maxRounds);
      OneMoreTurn(states, turns, m, maxRounds);
      hide *;
      RunsStep(Lows(turns[..m]), turns[m].chunks == 0);
      ParityStep(turns[m].chunks == 0, OpenRun(Lows(turns[..m])), OpenRun(Lows(turns[..n])),
                 states[m].streak, states[n].streak);
    }
  }

  lemma OneMoreTurn(states: seq<Session>, turns: seq<Turn>, m: nat, maxRounds: nat)
    requires IsRun(states, turns, maxRounds) && m < |turns|
    ensures Lows(turns[..m + 1]) == Lows(turns[..m]) + [turns[m].chunks == 0]
    ensures AutoEscalations(states, turns, m + 1, maxRounds)
            == AutoEscalations(states, turns, m, maxRounds)
               + if turns[m].chunks == 0 && states[m].streak >= 1 then 1 else 0
    ensures states[m + 1].streak == if turns[m].chunks == 0 && states[m].streak == 0 then 1 else 0
  {
    assert turns[..m + 1][..m] == turns[..m];
    TurnStreak(states[m], turns[m], maxRounds);
    hide CompletedTurn, Linked;
  }

  /** Once set, `escalated_at` stays and ESCALATED is never left; an identified escalated session has a ticket. */
  lemma {:induction false} EscalationSticks(states: seq<Session>, turns: seq<Turn>, m: nat, n: nat, maxRounds: nat)
    requires IsRun(states, turns, maxRounds) && m <= n < |states|
    ensures states[m].escalatedAt.Some? ==> states[n].escalatedAt == states[m].escalatedAt
    ensures states[m].status.Escalated? ==> states[n].status.Escalated?
    ensures Linked(states[n]) && states[n].user == states[m].user
  {
    if m < n {
      EscalationSticks(states, turns, m, n - 1, maxRounds);
      TurnBounds(states[n - 1], turns[n - 1], maxRounds);
    } else if n > 0 {
      EscalationSticks(states, turns, 0, n - 1, maxRounds);
      TurnBounds(states[n - 1], turns[n - 1], maxRounds);
    }
  }
}
