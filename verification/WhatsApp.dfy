/**
  WhatsApp ingestion: the session an inbound message belongs to, and the capped list of processed message ids that
  decides whether a delivery is a replay. A webhook request carries a batch of messages and is rolled back as a whole
  when one of them raises.
 */
module WhatsApp {
  import opened Wrappers

  type SessionId = nat
  type Wamid = int

  datatype Status = Active | Escalated | Closed

  /** A chat session row; `waId` is `None` on other channels. The session's id is its index in the table. */
  datatype Row = Row(
    org: int, waId: Option<int>, status: Status, lastInboundAt: Option<int>, lastActivityAt: int, processed: seq<Wamid>)

  /**
    One inbound message with what its call meets outside the table: the clock in minutes, whether the sender resolves
    inside the organization, whether the ticket thread takes the text, and whether the rate limiter lets it pass.
   */
  datatype Message = Message(
    org: int, waId: int, wamid: Wamid, isText: bool, now: int, senderOk: bool, appendOk: bool, underLimit: bool)

  datatype Outcome =
    | Unsupported
    | CrossOrgConflict
    | Replayed(session: SessionId)
    | AppendedToEscalated(session: SessionId)
    | RateLimited(session: SessionId)
    | BotReplyQueued(session: SessionId)
    | Raised

  // --- the capped list ---

  /** Python's `s[start:]`. */
  function SliceFrom<T>(s: seq<T>, start: int): seq<T> {
    if start >= |s| then []
    else if start >= 0 then s[start..]
    else if start + |s| >= 0 then s[start + |s|..]
    else s
  }

  function WithAppended<T>(list: seq<T>, value: T, cap: Option<int>): seq<T> {
    var longer := list + [value];
    if cap.Some? then SliceFrom(longer, -cap.value) else longer
  }

  function LastN<T>(s: seq<T>, n: nat): (r: seq<T>)
    ensures |r| == if |s| <= n then |s| else n
  {
    if |s| <= n then s else s[|s| - n..]
  }

  /** Appending keeps the newest `cap` items exactly for a positive cap; a cap of zero keeps the whole list. */
  lemma CapKeepsNewest<T>(list: seq<T>, value: T, cap: nat)
    ensures WithAppended(list, value, Some(cap)) == LastN(list + [value], cap) <==> cap > 0
  {
    var longer := list + [value];
    assert |longer| > 0;
    if cap == 0 { assert WithAppended(list, value, Some(cap)) == longer; }
  }

  /** The capped list refines the full history: trimming before the append loses nothing the later trim would keep. */
  lemma CappedRefinesHistory<T>(history: seq<T>, value: T, cap: nat)
    requires cap > 0
    ensures WithAppended(LastN(history, cap), value, Some(cap)) == LastN(history + [value], cap)
  {
    CapKeepsNewest(LastN(history, cap), value, cap);
    assert LastN(LastN(history, cap) + [value], cap) == LastN(history + [value], cap);
  }

  // --- one call ---

  predicate OfSender(row: Row, org: int, waId: int) { row.org == org && row.waId == Some(waId) }

  /** Of two sessions, `k` is the one that is found: it was active later, or as late and is listed first. */
  predicate Precedes(rows: seq<Row>, k: SessionId, s: SessionId)
    requires k < |rows| && s < |rows|
  {
    rows[s].lastActivityAt < rows[k].lastActivityAt || (rows[s].lastActivityAt == rows[k].lastActivityAt && k < s)
  }

  /** `found` is the sender's session with the latest activity, the first of them, if the sender has one. */
  predicate IsLatest(rows: seq<Row>, m: Message, found: Option<SessionId>) {
    match found
    case None => forall s :: 0 <= s < |rows| ==> !OfSender(rows[s], m.org, m.waId)
    case Some(k) =>
      k < |rows| && OfSender(rows[k], m.org, m.waId)
      && (forall s :: 0 <= s < |rows| && s != k && OfSender(rows[s], m.org, m.waId) ==> Precedes(rows, k, s))
  }

  function LatestSession(rows: seq<Row>, m: Message): (found: Option<SessionId>)
    ensures IsLatest(rows, m, found)
  {
    if rows == [] then None
    else
      var n := |rows| - 1;
      var before := LatestSession(rows[..n], m);
      if OfSender(rows[n], m.org, m.waId)
         && (before.None? || rows[before.value].lastActivityAt < rows[n].lastActivityAt)
      then Some(n)
      else before
  }

  predicate WithinIdleWindow(lastInboundAt: Option<int>, now: int) {
    lastInboundAt.Some? && now - lastInboundAt.value <= 1440
  }

  predicate Reusable(row: Row, now: int) {
    row.status == Escalated || (row.status == Active && WithinIdleWindow(row.lastInboundAt, now))
  }

  function TouchedRow(row: Row, m: Message): Row {
    row.(processed := WithAppended(row.processed, m.wamid, Some(50)),
         lastInboundAt := Some(m.now), lastActivityAt := m.now)
  }

  function NewRow(m: Message): Row {
    Row(m.org, Some(m.waId), Active, Some(m.now), m.now, [m.wamid])
  }

  function OutcomeOn(status: Status, m: Message, s: SessionId): Outcome {
    if status == Escalated then (if m.appendOk then AppendedToEscalated(s) else Raised)
    else if m.underLimit then BotReplyQueued(s)
    else RateLimited(s)
  }

  /** The session of the sender that the message may continue. */
  function ReusedSession(rows: seq<Row>, m: Message): (found: Option<SessionId>)
    ensures found.Some? ==> found.value < |rows| && OfSender(rows[found.value], m.org, m.waId)
    ensures found.Some? ==> Reusable(rows[found.value], m.now)
  {
    var existing := LatestSession(rows, m);
    if existing.Some? && Reusable(rows[existing.value], m.now) then existing else None
  }

  function Ingest(rows: seq<Row>, m: Message): (seq<Row>, Outcome) {
    if !m.isText then (rows, Unsupported)
    else if !m.senderOk then (rows, CrossOrgConflict)
    else
      match ReusedSession(rows, m)
      case Some(s) =>
        if m.wamid in rows[s].processed then (rows, Replayed(s))
        else (rows[s := TouchedRow(rows[s], m)], OutcomeOn(rows[s].status, m, s))
      case None => (rows + [NewRow(m)], OutcomeOn(Active, m, |rows|))
  }

  // --- the table and the committed calls ---

  datatype Entry = Entry(wamid: Wamid, outcome: Outcome)

  /** The session table, and the results of the calls committed so far. */
  datatype State = State(rows: seq<Row>, log: seq<Entry>)

  function Call(st: State, m: Message): State {
    var (rows, outcome) := Ingest(st.rows, m);
    State(rows, st.log + [Entry(m.wamid, outcome)])
  }

  /** The messages of one request in order, or nothing when one of them raises. */
  function Batch(st: State, batch: seq<Message>): Option<State>
    decreases |batch|
  {
    if batch == [] then Some(st)
    else if Ingest(st.rows, batch[0]).1.Raised? then None
    else Batch(Call(st, batch[0]), batch[1..])
  }

  datatype Op =
    | Webhook(batch: seq<Message>)
    | SessionChanged(session: SessionId, status: Status, lastActivityAt: int)
    | OtherChannelSession(org: int, lastActivityAt: int)

  function Step(st: State, op: Op): State {
    match op
    case Webhook(batch) => (match Batch(st, batch) case Some(next) => next case None => st)
    case SessionChanged(s, status, at) =>
      if s < |st.rows| then st.(rows := st.rows[s := st.rows[s].(status := status, lastActivityAt := at)]) else st
    case OtherChannelSession(org, at) => st.(rows := st.rows + [Row(org, None, Active, None, at, [])])
  }

  function Run(ops: seq<Op>): State {
    if ops == [] then State([], []) else Step(Run(ops[..|ops| - 1]), ops[|ops| - 1])
  }

  class Inbox {
    var rows: seq<Row>

    method FindExisting(m: Message) returns (found: Option<SessionId>)
      ensures found == LatestSession(rows, m)
    {
      found := None;
      for i := 0 to |rows|
        invariant found == LatestSession(rows[..i], m)
      {
        assert rows[..i + 1][..i] == rows[..i];
        if OfSender(rows[i], m.org, m.waId)
           && (found.None? || rows[found.value].lastActivityAt < rows[i].lastActivityAt) {
          found := Some(i);
        }
      }
      assert rows[..|rows|] == rows;
    }

    method IngestInboundMessage(m: Message) returns (outcome: Outcome)
      modifies this
      ensures (rows, outcome) == Ingest(old(rows), m)
    {
      if !m.isText { return Unsupported; }
      if !m.senderOk { return CrossOrgConflict; }
      var existing := FindExisting(m);
      var reuse := false;
      if existing.Some? {
        if rows[existing.value].status == Escalated {
          reuse := true;
        } else if rows[existing.value].status == Active && WithinIdleWindow(rows[existing.value].lastInboundAt, m.now) {
          reuse := true;
        }
      }
      var s;
      if reuse {
        s := existing.value;
        if m.wamid in rows[s].processed { return Replayed(s); }
        rows := rows[s := rows[s].(processed := WithAppended(rows[s].processed, m.wamid, Some(50)))];
        rows := rows[s := rows[s].(lastInboundAt := Some(m.now))];
        rows := rows[s := rows[s].(lastActivityAt := m.now)];
      } else {
        s := |rows|;
        rows := rows + [NewRow(m)];
      }
      assert rows == Ingest(old(rows), m).0;
      if rows[s].status == Escalated {
        if !m.appendOk { return Raised; }
        return AppendedToEscalated(s);
      }
      if !m.underLimit { return RateLimited(s); }
      return BotReplyQueued(s);
    }

    /** A whole request: all its messages are committed, or none. */
    method ReceiveWebhook(batch: seq<Message>, ghost log: seq<Entry>) returns (committed: bool)
      modifies this
      ensures committed <==> Batch(State(old(rows), log), batch).Some?
      ensures rows == Step(State(old(rows), log), Webhook(batch)).rows
    {
      var snapshot := rows;
      ghost var done := log;
      var i := 0;
      while i < |batch|
        invariant 0 <= i <= |batch|
        invariant Batch(State(rows, done), batch[i..]) == Batch(State(snapshot, log), batch)
      {
        assert batch[i..][0] == batch[i] && batch[i..][1..] == batch[i + 1..];
        var outcome := IngestInboundMessage(batch[i]);
        if outcome.Raised? {
          rows := snapshot;
          return false;
        }
        done := done + [Entry(batch[i].wamid, outcome)];
        i := i + 1;
      }
      return true;
    }
  }

  // --- what the buffer means ---

  predicate RecordedOn(outcome: Outcome, s: SessionId) {
    outcome == AppendedToEscalated(s) || outcome == RateLimited(s) || outcome == BotReplyQueued(s)
  }

  /** The ids a session has taken in, oldest first: every committed call on it that was not a replay. */
  function Recorded(log: seq<Entry>, s: SessionId): seq<Wamid> {
    if log == [] then []
    else
      var e := log[|log| - 1];
      Recorded(log[..|log| - 1], s) + if RecordedOn(e.outcome, s) then [e.wamid] else []
  }

  /** Equal ids are more than `gap` places apart. */
  ghost predicate Spaced(ids: seq<Wamid>, gap: nat) {
    forall i, j :: 0 <= i < j < |ids| && ids[i] == ids[j] ==> j - i > gap
  }

  lemma RecordedNext(log: seq<Entry>, e: Entry, s: SessionId)
    ensures Recorded(log + [e], s) == Recorded(log, s) + if RecordedOn(e.outcome, s) then [e.wamid] else []
  {
    assert (log + [e])[..|log|] == log;
  }

  lemma SpacedNext(ids: seq<Wamid>, id: Wamid, gap: nat)
    requires Spaced(ids, gap) && id !in LastN(ids, gap)
    ensures Spaced(ids + [id], gap)
  {
    var last := LastN(ids, gap);
    forall i | 0 <= i < |ids| && |ids| - i <= gap
      ensures ids[i] in last
    {
      assert last[i - (|ids| - |last|)] == ids[i];
    }
  }

  ghost predicate BufferFaithful(st: State, s: SessionId) {
    var ids := Recorded(st.log, s);
    && Spaced(ids, 50)
    && (s < |st.rows| ==> st.rows[s].processed == LastN(ids, 50))
    && (s >= |st.rows| ==> ids == [])
  }

  /** How a call changes one session's buffer. */
  lemma CallOnBuffer(rows: seq<Row>, m: Message, s: SessionId)
    requires !Ingest(rows, m).1.Raised?
    ensures var (next, outcome) := Ingest(rows, m);
      if RecordedOn(outcome, s) then
        s < |next| && |rows| <= |next| &&
        if s < |rows| then
          m.wamid !in rows[s].processed && next[s].processed == WithAppended(rows[s].processed, m.wamid, Some(50))
        else next[s].processed == [m.wamid]
      else |rows| <= |next| && (s < |rows| ==> next[s].processed == rows[s].processed) && (s >= |rows| ==> s >= |next|)
  {
    hide LatestSession, WithAppended;
  }

  lemma CallKeeps(st: State, m: Message, s: SessionId)
    requires BufferFaithful(st, s) && !Ingest(st.rows, m).1.Raised?
    ensures BufferFaithful(Call(st, m), s)
  {
    var e := Entry(m.wamid, Ingest(st.rows, m).1);
    var ids := Recorded(st.log, s);
    CallOnBuffer(st.rows, m, s);
    RecordedNext(st.log, e, s);
    hide Ingest;
    if RecordedOn(e.outcome, s) {
      CappedRefinesHistory(ids, m.wamid, 50);
      SpacedNext(ids, m.wamid, 50);
      hide Spaced, Recorded, WithAppended;
    }
  }

  lemma {:induction false} BatchKeeps(st: State, batch: seq<Message>, s: SessionId)
    requires BufferFaithful(st, s) && Batch(st, batch).Some?
    ensures BufferFaithful(Batch(st, batch).value, s)
    decreases |batch|
  {
    hide BufferFaithful, Ingest;
    if batch != [] {
      CallKeeps(st, batch[0], s);
      BatchKeeps(Call(st, batch[0]), batch[1..], s);
    }
  }

  /**
    In every run, a session's buffer is the last 50 ids the session recorded, and equal ids were recorded more than 50
    places apart.
   */
  lemma {:induction false} BufferIsRecentHistory(ops: seq<Op>, s: SessionId)
    ensures BufferFaithful(Run(ops), s)
  {
    if ops != [] {
      var before := Run(ops[..|ops| - 1]);
      BufferIsRecentHistory(ops[..|ops| - 1], s);
      match ops[|ops| - 1]
      case Webhook(batch) =>
        if Batch(before, batch).Some? { BatchKeeps(before, batch, s); }
        hide BufferFaithful;
      case _ =>
        hide Spaced, Recorded;
    }
  }

  lemma WindowDistinct(ids: seq<Wamid>, gap: nat)
    requires Spaced(ids, gap)
    ensures var last := LastN(ids, gap); forall i, j :: 0 <= i < j < |last| ==> last[i] != last[j]
  {
    var last := LastN(ids, gap);
    forall i, j | 0 <= i < j < |last| ensures last[i] != last[j] {
      assert last[i] == ids[|ids| - |last| + i] && last[j] == ids[|ids| - |last| + j];
    }
  }

  /** The buffers are duplicate-free and hold at most 50 ids. */
  lemma BufferBounded(ops: seq<Op>, s: SessionId)
    requires s < |Run(ops).rows|
    ensures var ids := Run(ops).rows[s].processed;
      |ids| <= 50 && forall i, j :: 0 <= i < j < |ids| ==> ids[i] != ids[j]
  {
    BufferIsRecentHistory(ops, s);
    var ids := Recorded(Run(ops).log, s);
    assert Spaced(ids, 50);
    WindowDistinct(ids, 50);
    hide Spaced, Run, Recorded;
  }

  /** After any run, a message is a replay exactly when its id is among the last 50 that its reused session recorded. */
  lemma ReplayedIff(ops: seq<Op>, m: Message, s: SessionId)
    ensures Ingest(Run(ops).rows, m).1 == Replayed(s) <==>
      && m.isText && m.senderOk && ReusedSession(Run(ops).rows, m) == Some(s)
      && m.wamid in LastN(Recorded(Run(ops).log, s), 50)
  {
    BufferIsRecentHistory(ops, s);
    hide Run, Recorded, Spaced, LatestSession, ReusedSession, LastN;
  }

  // --- redelivery over whole runs ---

  lemma {:induction false} RecordedPrefix(log: seq<Entry>, n: nat, s: SessionId)
    requires n <= |log|
    ensures Recorded(log[..n], s) <= Recorded(log, s)
  {
    if n == |log| {
      assert log[..n] == log;
    } else {
      RecordedPrefix(log[..|log| - 1], n, s);
      assert log[..|log| - 1][..n] == log[..n];
    }
  }

  /** Where an entry's id stands among the ids its session recorded. */
  function Position(log: seq<Entry>, k: nat, s: SessionId): int
    requires k < |log|
  {
    |Recorded(log[..k + 1], s)| - 1
  }

  lemma {:induction false} PositionHolds(log: seq<Entry>, k: nat, s: SessionId)
    requires k < |log| && RecordedOn(log[k].outcome, s)
    ensures 0 <= Position(log, k, s) < |Recorded(log, s)| && Recorded(log, s)[Position(log, k, s)] == log[k].wamid
  {
    RecordedPrefix(log, k + 1, s);
    assert log[..k + 1][..k] == log[..k];
  }

  /** Every recorded id comes from an entry at its position. */
  lemma {:induction false} EntryAt(log: seq<Entry>, s: SessionId, p: nat) returns (j: nat)
    requires p < |Recorded(log, s)|
    ensures j < |log| && RecordedOn(log[j].outcome, s) && log[j].wamid == Recorded(log, s)[p]
    ensures Position(log, j, s) == p
  {
    var n := |log| - 1;
    if p < |Recorded(log[..n], s)| {
      j := EntryAt(log[..n], s, p);
      assert log[..n][..j + 1] == log[..j + 1];
    } else {
      j := n;
      assert log[..n + 1] == log;
    }
  }

  lemma PositionMonotone(log: seq<Entry>, j: nat, k: nat, s: SessionId)
    requires j <= k < |log|
    ensures Position(log, j, s) <= Position(log, k, s)
  {
    assert log[..k + 1][..j + 1] == log[..j + 1];
    RecordedPrefix(log[..k + 1], j + 1, s);
  }

  /** How many ids the session recorded after entry `k`. */
  function RecordedSince(log: seq<Entry>, k: nat, s: SessionId): int
    requires k < |log|
  {
    |Recorded(log, s)| - 1 - Position(log, k, s)
  }

  predicate LastRecordOf(log: seq<Entry>, k: nat, s: SessionId, id: Wamid) {
    && k < |log| && RecordedOn(log[k].outcome, s) && log[k].wamid == id
    && forall j :: k < j < |log| && RecordedOn(log[j].outcome, s) ==> log[j].wamid != id
  }

  lemma InLastIff(ids: seq<Wamid>, n: nat, id: Wamid)
    ensures id in LastN(ids, n) <==> exists p :: 0 <= p < |ids| && |ids| - n <= p && ids[p] == id
  {
    var last := LastN(ids, n);
    assert forall i :: 0 <= i < |last| ==> last[i] == ids[|ids| - |last| + i];
    if p :| 0 <= p < |ids| && |ids| - n <= p && ids[p] == id {
      assert last[p - (|ids| - |last|)] == id;
    }
  }

  lemma AmongLastIff(log: seq<Entry>, k: nat, s: SessionId, id: Wamid, n: nat)
    requires LastRecordOf(log, k, s, id)
    ensures id in LastN(Recorded(log, s), n) <==> RecordedSince(log, k, s) < n
  {
    hide Recorded, LastN, Position;
    var ids := Recorded(log, s);
    PositionHolds(log, k, s);
    InLastIff(ids, n, id);
    if p :| 0 <= p < |ids| && |ids| - n <= p && ids[p] == id {
      var j := EntryAt(log, s, p);
      PositionMonotone(log, j, k, s);
    }
  }

  /**
    Over every run, the exact reach of the replay check: a message whose id was last recorded on session `s` by entry
    `k` of the log is a replay there if and only if it reuses that session and fewer than 50 ids followed on it.
   */
  lemma RedeliveredIff(ops: seq<Op>, k: nat, m: Message, s: SessionId)
    requires LastRecordOf(Run(ops).log, k, s, m.wamid)
    ensures Ingest(Run(ops).rows, m).1 == Replayed(s) <==>
      && m.isText && m.senderOk && ReusedSession(Run(ops).rows, m) == Some(s)
      && RecordedSince(Run(ops).log, k, s) < 50
  {
    ReplayedIff(ops, m, s);
    AmongLastIff(Run(ops).log, k, s, m.wamid, 50);
    hide Run, Recorded, LastN, ReusedSession, Ingest, RecordedSince, LastRecordOf;
  }

  // --- what one message does ---

  /** Session `s` is the sender's latest, and escalated, or active with its last message at most a day old. */
  predicate Continues(rows: seq<Row>, m: Message, s: SessionId) {
    && s < |rows| && rows[s].org == m.org && rows[s].waId == Some(m.waId)
    && (forall k :: 0 <= k < |rows| && k != s && rows[k].org == m.org && rows[k].waId == Some(m.waId) ==>
          rows[k].lastActivityAt < rows[s].lastActivityAt
          || (rows[k].lastActivityAt == rows[s].lastActivityAt && s < k))
    && (|| rows[s].status == Escalated
        || (rows[s].status == Active && rows[s].lastInboundAt.Some?
            && m.now - rows[s].lastInboundAt.value <= 24 * 60))
  }

  lemma ReusedIs(rows: seq<Row>, m: Message, s: SessionId)
    ensures ReusedSession(rows, m) == Some(s) <==> Continues(rows, m, s)
  {
    var found := LatestSession(rows, m);
    assert IsLatest(rows, m, found);
    hide LatestSession;
    if Continues(rows, m, s) { assert OfSender(rows[s], m.org, m.waId); }
  }

  /** The session that the message is taken in on: the one it continues, or a new one. */
  ghost predicate On(rows: seq<Row>, m: Message, s: SessionId) {
    Continues(rows, m, s) || (s == |rows| && forall k :: !Continues(rows, m, k))
  }

  /**
    What a message comes to. A text of a known sender goes to the latest session if that is escalated or active and not
    idle, and to a new one otherwise; there it is a replay if the id is remembered; else an escalated session's ticket
    takes it, or raises, and in any other the bot answers, unless the rate limit is used up.
   */
  lemma OutcomeIs(rows: seq<Row>, m: Message, s: SessionId)
    ensures var outcome := Ingest(rows, m).1;
      && (!m.isText ==> outcome == Unsupported)
      && (m.isText && !m.senderOk ==> outcome == CrossOrgConflict)
      && (m.isText && m.senderOk && On(rows, m, s) ==>
            var known := s < |rows| && m.wamid in rows[s].processed;
            var escalated := s < |rows| && rows[s].status == Escalated;
            && (known ==> outcome == Replayed(s))
            && (!known && escalated ==> outcome == if m.appendOk then AppendedToEscalated(s) else Raised)
            && (!known && !escalated ==> outcome == if m.underLimit then BotReplyQueued(s) else RateLimited(s)))
  {
    ReusedIs(rows, m, s);
    var reused := ReusedSession(rows, m);
    if reused.Some? { ReusedIs(rows, m, reused.value); }
    forall k { ReusedIs(rows, m, k); }
    hide ReusedSession, Continues;
  }

  /** And what it writes: the session's list of ids and its times, and nothing at all unless it is taken in. */
  lemma RowsAfter(rows: seq<Row>, m: Message, s: SessionId)
    ensures var (rows', outcome) := Ingest(rows, m);
      && (!RecordedOn(outcome, s) ==> s < |rows| ==> s < |rows'| && (outcome == Raised || rows'[s] == rows[s]))
      && (|rows| <= |rows'| <= |rows| + 1)
      && (RecordedOn(outcome, s) && s < |rows| ==>
            && |rows'| == |rows|
            && rows'[s].processed == LastN(rows[s].processed + [m.wamid], 50)
            && rows'[s].lastInboundAt == Some(m.now) && rows'[s].lastActivityAt == m.now
            && rows'[s].org == rows[s].org && rows'[s].waId == rows[s].waId && rows'[s].status == rows[s].status)
      && (RecordedOn(outcome, s) && s >= |rows| ==>
            s == |rows| && rows' == rows + [Row(m.org, Some(m.waId), Active, Some(m.now), m.now, [m.wamid])])
  {
    hide LatestSession;
    if s < |rows| { CapKeepsNewest(rows[s].processed, m.wamid, 50); }
  }

  // --- whole requests ---

  /** The states after the first `n` messages of a batch, none of which raises. */
  ghost predicate Chain(states: seq<State>, st: State, batch: seq<Message>, n: nat) {
    && n <= |batch| && |states| == n + 1 && states[0] == st
    && forall i :: 0 <= i < n ==>
         !Ingest(states[i].rows, batch[i]).1.Raised?
         && states[i + 1].rows == Ingest(states[i].rows, batch[i]).0
         && states[i + 1].log == states[i].log + [Entry(batch[i].wamid, Ingest(states[i].rows, batch[i]).1)]
  }

  /** A request runs its messages in order, up to its end or to the first that raises. */
  lemma {:induction false} BatchRuns(st: State, batch: seq<Message>) returns (states: seq<State>, n: nat)
    ensures Chain(states, st, batch, n)
    ensures n < |batch| ==> Ingest(states[n].rows, batch[n]).1.Raised?
    ensures Batch(st, batch) == if n == |batch| then Some(states[n]) else None
    decreases |batch|
  {
    hide Ingest;
    if batch == [] || Ingest(st.rows, batch[0]).1.Raised? {
      states, n := [st], 0;
    } else {
      var rest, m := BatchRuns(Call(st, batch[0]), batch[1..]);
      states, n := [st] + rest, m + 1;
      forall i | 0 <= i < n
        ensures !Ingest(states[i].rows, batch[i]).1.Raised?
        ensures states[i + 1].rows == Ingest(states[i].rows, batch[i]).0
        ensures states[i + 1].log == states[i].log + [Entry(batch[i].wamid, Ingest(states[i].rows, batch[i]).1)]
      {
        if i > 0 { assert batch[1..][i - 1] == batch[i] && states[i] == rest[i - 1] && states[i + 1] == rest[i]; }
      }
      assert n < |batch| ==> batch[1..][m] == batch[n];
    }
  }

  /** A request that raises changes nothing; staff and the idle sweep change one session, and other channels add one. */
  lemma StepIs(st: State, op: Op)
    ensures op.Webhook? ==> Step(st, op) == if Batch(st, op.batch).Some? then Batch(st, op.batch).value else st
    ensures op.SessionChanged? && op.session < |st.rows| ==>
              var rows := Step(st, op).rows;
              && |rows| == |st.rows| && (forall k :: 0 <= k < |rows| && k != op.session ==> rows[k] == st.rows[k])
              && rows[op.session].status == op.status && rows[op.session].lastActivityAt == op.lastActivityAt
              && rows[op.session].(status := st.rows[op.session].status,
                                   lastActivityAt := st.rows[op.session].lastActivityAt) == st.rows[op.session]
    ensures op.OtherChannelSession? ==>
              var rows := Step(st, op).rows;
              && |rows| == |st.rows| + 1 && rows[..|st.rows|] == st.rows
              && rows[|st.rows|].org == op.org && rows[|st.rows|].waId == None && rows[|st.rows|].processed == []
              && rows[|st.rows|].lastActivityAt == op.lastActivityAt && rows[|st.rows|].status == Active
    ensures !op.Webhook? ==> Step(st, op).log == st.log
  {
  }

  // --- escalated senders ---

  /** The sender's latest session is `s`, and it is escalated. */
  predicate EscalatedTop(rows: seq<Row>, org: int, waId: int, s: SessionId) {
    && s < |rows| && OfSender(rows[s], org, waId) && rows[s].status == Escalated
    && forall k :: 0 <= k < |rows| && k != s && OfSender(rows[k], org, waId) ==> Precedes(rows, s, k)
  }

  predicate StaysOn(outcome: Outcome, s: SessionId) {
    outcome == Unsupported || outcome == CrossOrgConflict || outcome == Replayed(s) || outcome == AppendedToEscalated(s)
  }

  lemma TopReused(rows: seq<Row>, m: Message, s: SessionId)
    requires EscalatedTop(rows, m.org, m.waId, s)
    ensures ReusedSession(rows, m) == Some(s)
  {
    var found := LatestSession(rows, m);
    assert IsLatest(rows, m, found);
    hide LatestSession;
    assert OfSender(rows[s], m.org, m.waId);
  }

  lemma TopKept(rows: seq<Row>, m: Message, org: int, waId: int, s: SessionId)
    requires EscalatedTop(rows, org, waId, s) && !Ingest(rows, m).1.Raised? && rows[s].lastActivityAt <= m.now
    ensures EscalatedTop(Ingest(rows, m).0, org, waId, s) && Ingest(rows, m).0[s].lastActivityAt <= m.now
    ensures m.org == org && m.waId == waId ==> StaysOn(Ingest(rows, m).1, s)
  {
    if m.org == org && m.waId == waId { TopReused(rows, m, s); }
    hide LatestSession, WithAppended;
    var reused := ReusedSession(rows, m);
    hide ReusedSession;
    assert m.isText && m.senderOk && reused.Some? ==> OfSender(rows[reused.value], m.org, m.waId);
  }

  predicate Ordered(batch: seq<Message>) { forall i, j :: 0 <= i < j < |batch| ==> batch[i].now <= batch[j].now }

  /**
    A sender whose latest session is escalated stays on it through any batch of messages, their own and others': none of
    their messages reaches the bot or opens another session, and the session remains their latest.
   */
  lemma {:induction false} EscalatedSenderStays(st: State, batch: seq<Message>, org: int, waId: int, s: SessionId)
    requires EscalatedTop(st.rows, org, waId, s) && Batch(st, batch).Some? && Ordered(batch)
    requires forall i :: 0 <= i < |batch| ==> st.rows[s].lastActivityAt <= batch[i].now
    ensures var st' := Batch(st, batch).value;
      && EscalatedTop(st'.rows, org, waId, s)
      && |st'.log| == |st.log| + |batch| && st.log <= st'.log
      && forall i :: 0 <= i < |batch| && batch[i].org == org && batch[i].waId == waId ==>
           StaysOn(st'.log[|st.log| + i].outcome, s)
    decreases |batch|
  {
    if batch != [] {
      TopKept(st.rows, batch[0], org, waId, s);
      hide Ingest, StaysOn;
      var next, rest := Call(st, batch[0]), batch[1..];
      assert forall i :: 0 <= i < |rest| ==> rest[i] == batch[i + 1];
      EscalatedSenderStays(next, rest, org, waId, s);
      hide EscalatedTop;
      var st' := Batch(st, batch).value;
      assert st'.log[|st.log|] == next.log[|st.log|];
      forall i | 0 < i < |batch| && batch[i].org == org && batch[i].waId == waId
        ensures StaysOn(st'.log[|st.log| + i].outcome, s)
      {
        assert batch[i] == rest[i - 1];
      }
    }
  }

  /**
    A message that was taken in, even one the rate limit dropped, is a replay without effect when it is delivered again
    within the idle window, provided the sender's sessions were all active strictly before it.
   */
  lemma RedeliveryReplayed(rows: seq<Row>, m: Message, again: Message, s: SessionId)
    requires RecordedOn(Ingest(rows, m).1, s)
    requires forall k :: 0 <= k < |rows| && OfSender(rows[k], m.org, m.waId) ==> rows[k].lastActivityAt < m.now
    requires again == m.(now := again.now, appendOk := again.appendOk, underLimit := again.underLimit)
    requires again.now - m.now <= 1440
    ensures Ingest(Ingest(rows, m).0, again) == (Ingest(rows, m).0, Replayed(s))
  {
    var next := Ingest(rows, m).0;
    RecordedRow(rows, m, s);
    hide Ingest, LatestSession, WithAppended;
    var found := LatestSession(next, again);
    assert found == Some(s) by {
      assert IsLatest(next, again, found);
      assert OfSender(next[s], again.org, again.waId);
    }
    assert ReusedSession(next, again) == Some(s) by { hide OfSender, IsLatest; }
    hide ReusedSession, IsLatest;
    ReplayUnfolded(next, again, s);
  }

  lemma ReplayUnfolded(rows: seq<Row>, m: Message, s: SessionId)
    requires m.isText && m.senderOk && ReusedSession(rows, m) == Some(s) && m.wamid in rows[s].processed
    ensures Ingest(rows, m) == (rows, Replayed(s))
  {
    hide ReusedSession;
  }

  /** What a recording call leaves in its session's row and in the others. */
  lemma RecordedRow(rows: seq<Row>, m: Message, s: SessionId)
    requires RecordedOn(Ingest(rows, m).1, s)
    ensures var next := Ingest(rows, m).0;
      && s < |next|
      && OfSender(next[s], m.org, m.waId) && next[s].lastActivityAt == m.now && next[s].lastInboundAt == Some(m.now)
      && next[s].status != Closed
      && m.wamid in next[s].processed
      && forall k :: 0 <= k < |next| && k != s ==> k < |rows| && next[k] == rows[k]
  {
    hide LatestSession, WithAppended;
    var before := if s < |rows| then rows[s].processed else [];
    AppendedIsIn(before, m.wamid);
  }

  lemma AppendedIsIn(list: seq<Wamid>, id: Wamid)
    ensures id in WithAppended(list, id, Some(50))
  {
    CapKeepsNewest(list, id, 50);
    var last := LastN(list + [id], 50);
    assert last[|last| - 1] == id;
  }
}
