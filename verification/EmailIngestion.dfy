/**
  Inbound and outbound e-mail on one organization's tickets: replay detection, the matching ladder
  (reference, subject tag, sender and subject), the message ids each ticket remembers, and the subject a reply
  goes out under. A webhook request whose ingestion raises is rolled back.
 */
module EmailIngestion {
  import opened Wrappers
  import opened HelpdeskTypes
  import opened EmailThreading
  import opened SubjectText

  type UserId = int

  datatype Metadata = Metadata(sender: string, subject: string, messageIds: seq<string>, lastOutbound: Option<string>)

  /** `reporter`, `tenant` and `owner` decide who sees the ticket; `posts` counts its messages. */
  datatype Ticket = Ticket(id: string, title: string, reporter: UserId, tenant: Option<UserId>, owner: Option<UserId>,
                           email: bool, status: TicketStatus, createdAt: int, metadata: Option<Metadata>, posts: nat)

  datatype Sender = Sender(id: UserId, role: UserRole, address: string)

  /** One e-mail; `accepted` says whether the message or ticket service takes it without raising. */
  datatype Inbound = Inbound(sender: Sender, messageId: string, subject: string, inReplyTo: Option<string>,
                             references: seq<string>, now: int, accepted: bool)

  datatype Outcome = Replayed | Appended | Created | Raised

  /** The ancestors of the e-mail, in the order in which they are tried. */
  function Refs(e: Inbound): seq<string> { ReferenceIds(e.inReplyTo, e.references) }

  const SUBJECT_MATCH_WINDOW := 30 * 24 * 3600

  function Ids(t: Ticket): seq<string> {
    if t.metadata.Some? then t.metadata.value.messageIds else []
  }

  /** Role-based visibility of `TicketRepository.select`, restricted to e-mail tickets. */
  predicate IsCandidate(t: Ticket, s: Sender) {
    t.email && (Staff(s.role) || (s.role.Tenant? && (t.reporter == s.id || t.tenant == Some(s.id)))
                || (s.role.Owner? && t.owner == Some(s.id)))
  }

  predicate Holds(t: Ticket, s: Sender, messageId: string) {
    IsCandidate(t, s) && messageId in Ids(t)
  }

  // --- the searches ---

  /** The first candidate that remembers the message id. */
  function FindHolder(ts: seq<Ticket>, s: Sender, messageId: string): (i: Option<nat>)
    ensures i.Some? ==> i.value < |ts| && Holds(ts[i.value], s, messageId)
    ensures i.Some? ==> forall k :: 0 <= k < i.value ==> !Holds(ts[k], s, messageId)
    ensures i.None? ==> forall k :: 0 <= k < |ts| ==> !Holds(ts[k], s, messageId)
  {
    if ts == [] then None
    else
      var rest := FindHolder(ts[..|ts| - 1], s, messageId);
      if rest.Some? then rest
      else if Holds(ts[|ts| - 1], s, messageId) then Some(|ts| - 1) else None
  }

  /** The first reference, newest ancestor first, that some candidate remembers. */
  function MatchByReference(ts: seq<Ticket>, s: Sender, references: seq<string>): (i: Option<nat>)
    ensures i.Some? ==> i.value < |ts| && IsCandidate(ts[i.value], s)
    ensures i.None? ==> forall r :: r in references ==> FindHolder(ts, s, r).None?
  {
    if references == [] then None
    else
      var first := FindHolder(ts, s, references[0]);
      if first.Some? then first
      else
        assert forall r :: r in references ==> r == references[0] || r in references[1..];
        MatchByReference(ts, s, references[1..])
  }

  /** The reference that decides is the first, newest ancestor first, that any candidate remembers. */
  lemma {:induction false} NewestKnownReferenceWins(ts: seq<Ticket>, s: Sender, references: seq<string>)
    returns (j: nat)
    requires MatchByReference(ts, s, references).Some?
    ensures j < |references| && MatchByReference(ts, s, references) == FindHolder(ts, s, references[j])
    ensures forall k :: 0 <= k < j ==> FindHolder(ts, s, references[k]).None?
  {
    if FindHolder(ts, s, references[0]).Some? {
      j := 0;
    } else {
      var i := NewestKnownReferenceWins(ts, s, references[1..]);
      j := i + 1;
      forall k | 0 <= k < j ensures FindHolder(ts, s, references[k]).None? {
        if k > 0 { assert references[k] == references[1..][k - 1]; }
      }
    }
  }

  predicate Tagged(t: Ticket, s: Sender, tag: string) {
    IsCandidate(t, s) && tag <= t.id
  }

  predicate OnlyTagged(ts: seq<Ticket>, s: Sender, tag: string, i: nat)
    requires i < |ts|
  {
    Tagged(ts[i], s, tag) && forall k :: 0 <= k < |ts| && Tagged(ts[k], s, tag) ==> k == i
  }

  function TaggedIndices(ts: seq<Ticket>, s: Sender, tag: string): seq<nat> {
    if ts == [] then []
    else
      var n := |ts| - 1;
      TaggedIndices(ts[..n], s, tag) + if Tagged(ts[n], s, tag) then [n] else []
  }

  lemma {:induction false} TaggedIndicesIn(ts: seq<Ticket>, s: Sender, tag: string, k: nat)
    ensures k in TaggedIndices(ts, s, tag) <==> k < |ts| && Tagged(ts[k], s, tag)
  {
    if ts != [] {
      var n := |ts| - 1;
      TaggedIndicesIn(ts[..n], s, tag, k);
      assert k < n ==> ts[..n][k] == ts[k];
      hide Tagged;
    }
  }

  lemma {:induction false} TaggedIndicesAscend(ts: seq<Ticket>, s: Sender, tag: string, a: nat, b: nat)
    requires a < b < |TaggedIndices(ts, s, tag)|
    ensures TaggedIndices(ts, s, tag)[a] < TaggedIndices(ts, s, tag)[b]
  {
    var n := |ts| - 1;
    var rest := TaggedIndices(ts[..n], s, tag);
    if b < |rest| {
      TaggedIndicesAscend(ts[..n], s, tag, a, b);
    } else {
      TaggedIndicesIn(ts[..n], s, tag, rest[a]);
    }
  }

  /** The one candidate with the tag's prefix; none when there are several. */
  function MatchByTag(ts: seq<Ticket>, s: Sender, subject: string): (i: Option<nat>)
    ensures i.Some? ==> i.value < |ts| && ParseTag(subject).Some?
                        && OnlyTagged(ts, s, ParseTag(subject).value, i.value)
    ensures forall k :: 0 <= k < |ts| && ParseTag(subject).Some? && OnlyTagged(ts, s, ParseTag(subject).value, k) ==>
              i == Some(k)
  {
    if ParseTag(subject).None? then None
    else
      var tag := ParseTag(subject).value;
      OneTagged(ts, s, tag);
      var found := TaggedIndices(ts, s, tag);
      if |found| == 1 then Some(found[0]) else None
  }

  lemma OneTagged(ts: seq<Ticket>, s: Sender, tag: string)
    ensures var found := TaggedIndices(ts, s, tag);
      && (|found| == 1 ==> found[0] < |ts| && OnlyTagged(ts, s, tag, found[0]))
      && (forall k :: 0 <= k < |ts| && OnlyTagged(ts, s, tag, k) ==> |found| == 1 && found[0] == k)
  {
    var found := TaggedIndices(ts, s, tag);
    if |found| > 1 { TaggedIndicesAscend(ts, s, tag, 0, 1); }
    forall k: nat ensures k in found <==> k < |ts| && Tagged(ts[k], s, tag) { TaggedIndicesIn(ts, s, tag, k); }
    hide TaggedIndices, Tagged;
    if |found| == 1 {
      assert found[0] in found;
    }
    assert |found| > 1 ==> found[0] < found[1] && found[0] in found && found[1] in found;
    forall k | 0 <= k < |ts| && OnlyTagged(ts, s, tag, k) ensures |found| == 1 && found[0] == k {
      assert k in found;
    }
  }

  predicate Eligible(t: Ticket, s: Sender, address: string, subject: string, cutoff: int) {
    && IsCandidate(t, s) && !t.status.Closed?
    && t.metadata.Some? && t.metadata.value.sender == address && t.metadata.value.subject == subject
    && t.createdAt > cutoff
  }

  /** The most recently created eligible ticket, the first listed of several. */
  function MatchBySubject(ts: seq<Ticket>, s: Sender, address: string, subject: string, cutoff: int): (i: Option<nat>)
    ensures i.Some? ==> i.value < |ts| && Eligible(ts[i.value], s, address, subject, cutoff)
    ensures i.Some? ==> forall k :: 0 <= k < |ts| && Eligible(ts[k], s, address, subject, cutoff) ==>
              ts[k].createdAt <= ts[i.value].createdAt
    ensures i.Some? ==> forall k :: 0 <= k < i.value && Eligible(ts[k], s, address, subject, cutoff) ==>
              ts[k].createdAt < ts[i.value].createdAt
    ensures i.None? ==> forall k :: 0 <= k < |ts| ==> !Eligible(ts[k], s, address, subject, cutoff)
  {
    if ts == [] then None
    else
      var n := |ts| - 1;
      var rest := MatchBySubject(ts[..n], s, address, subject, cutoff);
      if !Eligible(ts[n], s, address, subject, cutoff) then rest
      else if rest.Some? && ts[n].createdAt <= ts[rest.value].createdAt then rest else Some(n)
  }

  function MatchBySenderSubject(ts: seq<Ticket>, e: Inbound): (i: Option<nat>)
    ensures i.Some? ==> i.value < |ts| && IsCandidate(ts[i.value], e.sender)
  {
    MatchBySubject(ts, e.sender, LowerAll(e.sender.address), Normalize(e.subject), e.now - SUBJECT_MATCH_WINDOW)
  }

  function Match(ts: seq<Ticket>, e: Inbound): (i: Option<nat>)
    ensures i.Some? ==> i.value < |ts| && IsCandidate(ts[i.value], e.sender)
  {
    var byReference := MatchByReference(ts, e.sender, Refs(e));
    if byReference.Some? then byReference
    else
      var byTag := MatchByTag(ts, e.sender, e.subject);
      if byTag.Some? then byTag else MatchBySenderSubject(ts, e)
  }

  /** Some candidate remembers reference `j`, and none remembers an earlier one. */
  predicate Decides(ts: seq<Ticket>, e: Inbound, j: nat) {
    && j < |Refs(e)| && FindHolder(ts, e.sender, Refs(e)[j]).Some?
    && forall k :: 0 <= k < j ==> FindHolder(ts, e.sender, Refs(e)[k]).None?
  }

  ghost predicate TagDecides(ts: seq<Ticket>, e: Inbound, k: nat) {
    k < |ts| && ParseTag(e.subject).Some? && OnlyTagged(ts, e.sender, ParseTag(e.subject).value, k)
  }

  lemma {:induction false} FirstReferenceDecides(ts: seq<Ticket>, s: Sender, references: seq<string>, j: nat)
    requires j < |references| && FindHolder(ts, s, references[j]).Some?
    requires forall k :: 0 <= k < j ==> FindHolder(ts, s, references[k]).None?
    ensures MatchByReference(ts, s, references) == FindHolder(ts, s, references[j])
  {
    if j > 0 {
      assert references[1..][j - 1] == references[j];
      FirstReferenceDecides(ts, s, references[1..], j - 1);
    }
  }

  /**
    The ladder: a known reference decides whatever the subject says, then a tag that names one candidate, and only
    then sender and subject.
   */
  lemma LadderOrder(ts: seq<Ticket>, e: Inbound, j: nat, k: nat)
    ensures Decides(ts, e, j) ==> Match(ts, e) == FindHolder(ts, e.sender, Refs(e)[j])
    ensures (forall i: nat :: !Decides(ts, e, i)) && TagDecides(ts, e, k) ==> Match(ts, e) == Some(k)
    ensures (forall i: nat :: !Decides(ts, e, i)) && (forall i: nat :: !TagDecides(ts, e, i)) ==>
              Match(ts, e) == MatchBySenderSubject(ts, e)
  {
    hide FindHolder, MatchByTag, ParseTag, OnlyTagged, MatchBySenderSubject, Holds;
    if Decides(ts, e, j) { FirstReferenceDecides(ts, e.sender, Refs(e), j); }
    if MatchByReference(ts, e.sender, Refs(e)).Some? {
      var i := NewestKnownReferenceWins(ts, e.sender, Refs(e));
      assert Decides(ts, e, i);
    }
    if MatchByTag(ts, e.sender, e.subject).Some? {
      assert TagDecides(ts, e, MatchByTag(ts, e.sender, e.subject).value);
    }
  }

  /** A ticket that the last rung may take the e-mail to. */
  predicate Continues(t: Ticket, e: Inbound) {
    && t.email && t.status != Closed
    && (|| e.sender.role == Agent || e.sender.role == Admin
        || (e.sender.role == Tenant && (t.reporter == e.sender.id || t.tenant == Some(e.sender.id)))
        || (e.sender.role == Owner && t.owner == Some(e.sender.id)))
    && t.metadata.Some? && t.metadata.value.sender == LowerAll(e.sender.address)
    && t.metadata.value.subject == Normalize(e.subject)
    && e.now - t.createdAt < 30 * 24 * 3600
  }

  /** Ticket `k` is the one e-mail ticket that the sender sees whose id begins with the tag. */
  predicate Singled(ts: seq<Ticket>, s: Sender, tag: string, k: nat) {
    && k < |ts|
    && forall i :: 0 <= i < |ts| ==>
         (IsCandidate(ts[i], s) && |tag| <= |ts[i].id| && ts[i].id[..|tag|] == tag <==> i == k)
  }

  /** The rung before: with no known reference, a tag decides for exactly the ticket that it singles out. */
  lemma TagRung(ts: seq<Ticket>, e: Inbound, k: nat)
    requires ParseTag(e.subject).Some? && forall j: nat :: !Decides(ts, e, j)
    ensures Singled(ts, e.sender, ParseTag(e.subject).value, k) ==> Match(ts, e) == Some(k)
    ensures (forall i: nat :: !Singled(ts, e.sender, ParseTag(e.subject).value, i)) ==> OnlySubject(ts, e)
  {
    var tag := ParseTag(e.subject).value;
    LadderOrder(ts, e, 0, k);
    forall i | 0 <= i < |ts| ensures OnlyTagged(ts, e.sender, tag, i) <==> Singled(ts, e.sender, tag, i) {
      assert Tagged(ts[i], e.sender, tag)
             <==> IsCandidate(ts[i], e.sender) && |tag| <= |ts[i].id| && ts[i].id[..|tag|] == tag;
      hide IsCandidate;
    }
    hide Match, OnlyTagged, Singled, Decides;
  }

  /** Neither a reference nor a tag of the e-mail decides. */
  ghost predicate OnlySubject(ts: seq<Ticket>, e: Inbound) {
    (forall j: nat :: !Decides(ts, e, j)) && (forall k: nat :: !TagDecides(ts, e, k))
  }

  /**
    The last rung: with no known reference and no telling tag, the e-mail goes to the newest ticket that its sender
    sees, that is not closed, bears the sender's lower-cased address and the e-mail's normalized subject, and is less
    than thirty days old; and to none exactly when there is no such ticket.
   */
  lemma LastRung(ts: seq<Ticket>, e: Inbound)
    requires OnlySubject(ts, e)
    ensures Match(ts, e).None? <==> forall k :: 0 <= k < |ts| ==> !Continues(ts[k], e)
    ensures Match(ts, e).Some? ==>
              && Continues(ts[Match(ts, e).value], e)
              && forall k :: 0 <= k < |ts| && Continues(ts[k], e) ==>
                   ts[k].createdAt <= ts[Match(ts, e).value].createdAt
  {
    LadderOrder(ts, e, 0, 0);
    forall k | 0 <= k < |ts|
      ensures Continues(ts[k], e)
              <==> Eligible(ts[k], e.sender, LowerAll(e.sender.address), Normalize(e.subject), e.now - 2_592_000)
    {
    }
    hide Continues, Eligible, Match, LowerAll, Normalize, OnlySubject;
  }

  // --- the writes ---

  /** `with_appended(metadata, "message_ids", id)`, on a ticket whose metadata may be missing. */
  function Remember(t: Ticket, id: string): Ticket {
    var m := if t.metadata.Some? then t.metadata.value else Metadata("", "", [], None);
    t.(metadata := Some(m.(messageIds := m.messageIds + [id])))
  }

  function TitleOf(subject: string): string { if Trim(subject) == "" then "(no subject)" else Trim(subject) }

  function NewTicket(e: Inbound, id: string): Ticket {
    Ticket(id, TitleOf(e.subject), e.sender.id, None, None, true, Open, e.now,
           Some(Metadata(LowerAll(e.sender.address), Normalize(e.subject), [e.messageId], None)), 0)
  }

  /**
    The tickets an ingestion leaves in its session, what happened, and the ticket it acted on. The id is remembered
    before the message is posted, so an ingestion that raises there leaves it behind in the session.
   */
  function Ingest(ts: seq<Ticket>, e: Inbound, id: string): (r: (seq<Ticket>, Outcome, nat))
    ensures !r.1.Raised? ==> r.2 < |r.0|
  {
    var replay := FindHolder(ts, e.sender, e.messageId);
    if replay.Some? then (ts, Replayed, replay.value)
    else
      var i := Match(ts, e);
      if i.Some? then
        var t := Remember(ts[i.value], e.messageId);
        if e.accepted then (ts[i.value := t.(posts := t.posts + 1)], Appended, i.value)
        else (ts[i.value := t], Raised, i.value)
      else if e.accepted then (ts + [NewTicket(e, id)], Created, |ts|)
      else (ts, Raised, |ts|)
  }

  /** What the webhook request commits: the ingestion, or nothing when it raised. */
  function Receive(ts: seq<Ticket>, e: Inbound, id: string): (r: (seq<Ticket>, Outcome, nat))
    ensures !r.1.Raised? ==> r == Ingest(ts, e, id) && r.2 < |r.0|
    ensures r.1.Raised? ==> r.0 == ts
  {
    var r := Ingest(ts, e, id);
    if r.1.Raised? then (ts, Raised, r.2) else r
  }

  /** The first eight characters of the ticket's id. */
  function OwnTag(t: Ticket): string { if |t.id| < 8 then t.id else t.id[..8] }

  /** What a reply's subject is built on: the stored subject, or the title when that is empty or missing. */
  function BaseSubject(t: Ticket): string {
    if t.metadata.Some? && t.metadata.value.subject != "" then t.metadata.value.subject else t.title
  }

  function OutboundSubject(t: Ticket): string { ReplySubject(BaseSubject(t), OwnTag(t)) }

  /** An outbound reply: nothing when its id is already remembered or the mail could not be sent. */
  function Send(ts: seq<Ticket>, i: nat, outboundId: string, sent: bool): seq<Ticket>
    requires i < |ts|
  {
    if outboundId in Ids(ts[i]) || !sent then ts
    else
      var t := Remember(ts[i], outboundId);
      ts[i := t.(metadata := Some(t.metadata.value.(lastOutbound := Some(outboundId))))]
  }

  // --- the code's own steps ---

  class Mailbox {
    var tickets: seq<Ticket>

    constructor (ts: seq<Ticket>)
      ensures tickets == ts
    {
      tickets := ts;
    }

    method IngestInboundEmail(e: Inbound, id: string) returns (outcome: Outcome, acted: nat)
      modifies this
      ensures (tickets, outcome, acted) == Ingest(old(tickets), e, id)
    {
      hide FindHolder, MatchByReference, MatchByTag, MatchBySenderSubject, ReferenceIds, Ancestors, FirstIndex,
           NewTicket, Remember, Holds, IsCandidate, OnlyTagged, ParseTag, Ids;
      var replay := FindHolder(tickets, e.sender, e.messageId);
      if replay.Some? {
        return Replayed, replay.value;
      }
      var referenceIds := ExtractReferenceIds(e.inReplyTo, e.references);
      var matched := MatchByReference(tickets, e.sender, referenceIds);
      if matched.None? {
        matched := MatchByTag(tickets, e.sender, e.subject);
      }
      if matched.None? {
        matched := MatchBySenderSubject(tickets, e);
      }
      if matched.Some? {
        var ticket := Remember(tickets[matched.value], e.messageId);
        tickets := tickets[matched.value := ticket];
        if !e.accepted {
          return Raised, matched.value;
        }
        tickets := tickets[matched.value := ticket.(posts := ticket.posts + 1)];
        assert tickets == old(tickets)[matched.value := tickets[matched.value]];
        return Appended, matched.value;
      }
      if !e.accepted {
        return Raised, |tickets|;
      }
      tickets := tickets + [NewTicket(e, id)];
      return Created, |tickets| - 1;
    }

    /** The webhook request around it: an ingestion that raises is rolled back. */
    method ReceiveEmailWebhook(e: Inbound, id: string) returns (outcome: Outcome, acted: nat)
      modifies this
      ensures (tickets, outcome, acted) == Receive(old(tickets), e, id)
    {
      var saved := tickets;
      outcome, acted := IngestInboundEmail(e, id);
      if outcome.Raised? {
        tickets := saved;
      }
    }

    /** `subject` is the one the mail is sent under, if it comes to sending. */
    method SendTicketEmailReply(i: nat, outboundId: string, sent: bool) returns (subject: Option<string>)
      requires i < |tickets|
      modifies this
      ensures tickets == Send(old(tickets), i, outboundId, sent)
      ensures subject == if outboundId in Ids(old(tickets)[i]) then None else Some(OutboundSubject(old(tickets)[i]))
    {
      if outboundId in Ids(tickets[i]) {
        return None;
      }
      var base := if tickets[i].metadata.Some? then tickets[i].metadata.value.subject else "";
      if base == "" {
        base := tickets[i].title;
      }
      subject := Some(ReplySubject(base, OwnTag(tickets[i])));
      if !sent {
        return;
      }
      var t := Remember(tickets[i], outboundId);
      t := t.(metadata := Some(t.metadata.value.(lastOutbound := Some(outboundId))));
      tickets := tickets[i := t];
    }
  }

  // --- runs ---

  datatype Step =
    | InboundStep(e: Inbound, id: string)
    | OutboundStep(i: nat, outboundId: string, sent: bool)
    | StatusStep(i: nat, status: TicketStatus)
    | OtherTicket(ticket: Ticket)

  predicate Enabled(ts: seq<Ticket>, step: Step) {
    match step
    case InboundStep(_, _) => true
    case OutboundStep(i, _, _) => i < |ts|
    case StatusStep(i, _) => i < |ts|
    case OtherTicket(t) => t.metadata.None?
  }

  function Apply(ts: seq<Ticket>, step: Step): seq<Ticket>
    requires Enabled(ts, step)
  {
    match step
    case InboundStep(e, id) => Receive(ts, e, id).0
    case OutboundStep(i, outboundId, sent) => Send(ts, i, outboundId, sent)
    case StatusStep(i, status) => ts[i := ts[i].(status := status)]
    case OtherTicket(t) => ts + [t]
  }

  ghost predicate IsRun(states: seq<seq<Ticket>>, steps: seq<Step>) {
    && |states| == |steps| + 1 && states[0] == []
    && forall i :: 0 <= i < |steps| ==> Enabled(states[i], steps[i]) && states[i + 1] == Apply(states[i], steps[i])
  }

  predicate NoDuplicates(ids: seq<string>) {
    forall i, j :: 0 <= i < j < |ids| ==> ids[i] != ids[j]
  }

  /** Tickets keep their place, who sees them and what replies are titled, and remember what they remembered. */
  ghost predicate Grows(ts: seq<Ticket>, ts': seq<Ticket>) {
    && |ts| <= |ts'|
    && forall k :: 0 <= k < |ts| ==> SameThread(ts[k], ts'[k]) && Ids(ts[k]) <= Ids(ts'[k])
  }

  predicate SameThread(t: Ticket, t': Ticket) {
    && t.id == t'.id && t.reporter == t'.reporter && t.tenant == t'.tenant && t.owner == t'.owner && t.email == t'.email
    && t.createdAt == t'.createdAt && BaseSubject(t) == BaseSubject(t')
    && (t.metadata.Some? ==> t'.metadata.Some? && t.metadata.value.sender == t'.metadata.value.sender
                             && t.metadata.value.subject == t'.metadata.value.subject)
  }

  ghost predicate Distinct(ts: seq<Ticket>) {
    forall k :: 0 <= k < |ts| ==> NoDuplicates(Ids(ts[k]))
  }

  /** Replacing one ticket by one that remembers one new id more. */
  lemma RememberKeeps(ts: seq<Ticket>, i: nat, t: Ticket, id: string)
    requires Distinct(ts) && i < |ts| && SameThread(ts[i], t) && Ids(t) == Ids(ts[i]) + [id] && id !in Ids(ts[i])
    ensures Grows(ts, ts[i := t]) && Distinct(ts[i := t])
  {
  }

  lemma InboundKeeps(ts: seq<Ticket>, e: Inbound, id: string)
    requires Distinct(ts)
    ensures Grows(ts, Receive(ts, e, id).0) && Distinct(Receive(ts, e, id).0)
  {
    hide Match, Normalize, LowerAll, IsCandidate, TitleOf;
    if FindHolder(ts, e.sender, e.messageId).None? && Match(ts, e).Some? && e.accepted {
      var i := Match(ts, e).value;
      assert !Holds(ts[i], e.sender, e.messageId);
      var t := Remember(ts[i], e.messageId);
      RememberKeeps(ts, i, t.(posts := t.posts + 1), e.messageId);
    }
  }

  lemma StepKeeps(ts: seq<Ticket>, step: Step)
    requires Distinct(ts) && Enabled(ts, step)
    ensures Grows(ts, Apply(ts, step)) && Distinct(Apply(ts, step))
  {
    match step
    case InboundStep(e, id) => InboundKeeps(ts, e, id);
    case OutboundStep(i, outboundId, sent) =>
      if outboundId !in Ids(ts[i]) && sent { RememberKeeps(ts, i, Send(ts, i, outboundId, sent)[i], outboundId); }
    case StatusStep(_, _) =>
    case OtherTicket(_) =>
  }

  lemma GrowsReflexive(a: seq<Ticket>)
    ensures Grows(a, a)
  {
  }

  lemma GrowsTransitive(a: seq<Ticket>, b: seq<Ticket>, c: seq<Ticket>)
    requires Grows(a, b) && Grows(b, c)
    ensures Grows(a, c)
  {
    forall k | 0 <= k < |a| ensures SameThread(a[k], c[k]) && Ids(a[k]) <= Ids(c[k]) {
      assert SameThread(a[k], b[k]) && SameThread(b[k], c[k]);
    }
  }

  lemma {:induction false} RunDistinct(states: seq<seq<Ticket>>, steps: seq<Step>, n: nat)
    requires IsRun(states, steps) && n < |states|
    ensures Distinct(states[n])
  {
    if n > 0 {
      RunDistinct(states, steps, n - 1);
      StepKeeps(states[n - 1], steps[n - 1]);
    }
  }

  /** Over every run, a ticket's message ids only grow, and it never remembers an id twice. */
  lemma {:induction false} IdsOnlyGrow(states: seq<seq<Ticket>>, steps: seq<Step>, m: nat, n: nat)
    requires IsRun(states, steps) && m <= n < |states|
    ensures Grows(states[m], states[n]) && Distinct(states[n])
  {
    RunDistinct(states, steps, n);
    hide Grows, Distinct, Apply, Enabled;
    if m == n {
      GrowsReflexive(states[m]);
    } else {
      IdsOnlyGrow(states, steps, m, n - 1);
      StepKeeps(states[n - 1], steps[n - 1]);
      GrowsTransitive(states[m], states[n - 1], states[n]);
    }
  }

  /** An e-mail taken in is remembered by the ticket it acted on, and by no other candidate unless it was a replay. */
  lemma ReceiveRemembers(ts: seq<Ticket>, e: Inbound, id: string)
    requires !Receive(ts, e, id).1.Raised?
    ensures var (ts', outcome, i) := Receive(ts, e, id);
      && e.messageId in Ids(ts'[i])
      && (outcome.Created? || IsCandidate(ts'[i], e.sender))
      && (!outcome.Replayed? ==> forall k :: 0 <= k < |ts'| && k != i ==> !Holds(ts'[k], e.sender, e.messageId))
  {
    hide Match, Normalize, LowerAll, TitleOf;
  }

  /** An e-mail that no candidate remembers changes the table exactly when it is accepted. */
  lemma NewEmailChanges(ts: seq<Ticket>, e: Inbound, id: string)
    requires FindHolder(ts, e.sender, e.messageId).None?
    ensures Receive(ts, e, id).0 != ts <==> e.accepted
  {
    hide Match, Normalize, LowerAll, IsCandidate, FindHolder, TitleOf;
    if Match(ts, e).Some? {
      var i := Match(ts, e).value;
      assert Remember(ts[i], e.messageId).(posts := ts[i].posts + 1) != ts[i];
    }
  }

  /**
    Redelivering an e-mail at once changes nothing exactly when its sender can see the ticket that took it, or the
    second delivery raises; otherwise it is ingested again.
   */
  lemma RedeliveryIff(ts: seq<Ticket>, e: Inbound, id: string, e': Inbound, id': string)
    requires !Receive(ts, e, id).1.Raised?
    requires e'.sender == e.sender && e'.messageId == e.messageId
    ensures var (ts', _, i) := Receive(ts, e, id);
      Receive(ts', e', id').0 == ts' <==> IsCandidate(ts'[i], e.sender) || !e'.accepted
  {
    ReceiveRemembers(ts, e, id);
    var (ts', outcome, i) := Receive(ts, e, id);
    hide Match, Normalize, LowerAll, IsCandidate, TitleOf;
    if IsCandidate(ts'[i], e.sender) {
      assert Holds(ts'[i], e'.sender, e'.messageId);
    } else {
      hide Receive, Ingest;
      NewEmailChanges(ts', e', id');
    }
  }

  lemma CreatedIsNew(ts: seq<Ticket>, e: Inbound, id: string)
    requires Receive(ts, e, id).1.Created?
    ensures Receive(ts, e, id).2 < |Receive(ts, e, id).0|
    ensures Receive(ts, e, id).0[Receive(ts, e, id).2] == NewTicket(e, id)
  {
    hide FindHolder, Match, NewTicket, Remember;
  }

  lemma NewTicketSeen(e: Inbound, id: string)
    ensures IsCandidate(NewTicket(e, id), e.sender) <==> !e.sender.role.Owner?
  {
    hide Normalize, LowerAll, TitleOf;
  }

  /** A tenant, agent or admin always sees the ticket that took their e-mail; an owner never sees one they created. */
  lemma SenderSeesTicket(ts: seq<Ticket>, e: Inbound, id: string)
    requires !Receive(ts, e, id).1.Raised?
    ensures var (ts', outcome, i) := Receive(ts, e, id);
      IsCandidate(ts'[i], e.sender) <==> !(e.sender.role.Owner? && outcome.Created?)
  {
    hide *;
    ReceiveRemembers(ts, e, id);
    if Receive(ts, e, id).1.Created? {
      CreatedIsNew(ts, e, id);
      NewTicketSeen(e, id);
    }
  }

  /** However many steps later, redelivery by a sender other than an owner is a replay that changes nothing. */
  lemma RedeliveryChangesNothing(states: seq<seq<Ticket>>, steps: seq<Step>, m: nat, n: nat, e': Inbound, id': string)
    requires IsRun(states, steps) && m < n < |states| && steps[m].InboundStep?
    requires !Receive(states[m], steps[m].e, steps[m].id).1.Raised?
    requires e'.sender == steps[m].e.sender && e'.messageId == steps[m].e.messageId && !e'.sender.role.Owner?
    ensures Receive(states[n], e', id').0 == states[n] && Receive(states[n], e', id').1 == Replayed
  {
    var i := Receive(states[m], steps[m].e, steps[m].id).2;
    ReceiveRemembers(states[m], steps[m].e, steps[m].id);
    SenderSeesTicket(states[m], steps[m].e, steps[m].id);
    IdsOnlyGrow(states, steps, m + 1, n);
    assert SameThread(states[m + 1][i], states[n][i]);
    assert Holds(states[n][i], e'.sender, e'.messageId);
  }

  // --- conversations ---

  /** The ticket an e-mail opens is its sender's, open, of that moment, and bears their address and the subject. */
  lemma OpenedTicket(ts: seq<Ticket>, e: Inbound, id: string)
    requires Receive(ts, e, id).1.Created?
    ensures var (ts', _, i) := Receive(ts, e, id);
      && ts' == ts + [ts'[i]] && i == |ts|
      && var t := ts'[i];
      && t.id == id && t.reporter == e.sender.id && t.email && t.status == Open && t.createdAt == e.now
      && t.tenant == None && t.owner == None && t.posts == 0
      && t.title == (if Trim(e.subject) != "" then Trim(e.subject) else "(no subject)")
      && t.metadata == Some(Metadata(LowerAll(e.sender.address), Normalize(e.subject), [e.messageId], None))
  {
    hide FindHolder, Match, Remember;
  }

  /** An e-mail that is appended adds one message to the ticket it acts on, and its id, and touches nothing else. */
  lemma AppendedMessage(ts: seq<Ticket>, e: Inbound, id: string)
    requires Receive(ts, e, id).1.Appended?
    ensures var (ts', _, i) := Receive(ts, e, id);
      && i < |ts| && Match(ts, e) == Some(i)
      && |ts'| == |ts| && (forall k :: 0 <= k < |ts| && k != i ==> ts'[k] == ts[k])
      && ts'[i].posts == ts[i].posts + 1 && Ids(ts'[i]) == Ids(ts[i]) + [e.messageId]
      && ts'[i].status == ts[i].status && SameThread(ts[i], ts'[i])
  {
    hide FindHolder, Match;
  }

  /** In its session, an ingestion that raises at a match has remembered the id already, and posted nothing. */
  lemma RaisedRemembers(ts: seq<Ticket>, e: Inbound, id: string, i: nat)
    requires Ingest(ts, e, id).1.Raised? && Match(ts, e) == Some(i)
    ensures var ts' := Ingest(ts, e, id).0;
      && |ts'| == |ts| && (forall k :: 0 <= k < |ts| && k != i ==> ts'[k] == ts[k])
      && Ids(ts'[i]) == Ids(ts[i]) + [e.messageId] && ts'[i].posts == ts[i].posts && SameThread(ts[i], ts'[i])
  {
    hide FindHolder, Match;
  }

  /** What becomes of an e-mail. */
  lemma OutcomeIs(ts: seq<Ticket>, e: Inbound, id: string)
    ensures Receive(ts, e, id).1
            == if exists k :: 0 <= k < |ts| && Holds(ts[k], e.sender, e.messageId) then Replayed
               else if !e.accepted then Raised
               else if Match(ts, e).Some? then Appended else Created
    ensures !Receive(ts, e, id).1.Appended? && !Receive(ts, e, id).1.Created? ==> Receive(ts, e, id).0 == ts
  {
    hide Match, Holds;
  }

  /**
    Over every run: once an e-mail has opened a ticket, a later e-mail of the same sender under the same normalized
    subject, with no known reference and no telling tag, joins a ticket no older, if it comes within thirty days and the
    ticket is not closed by then. It does not open another one.
   */
  lemma ConversationContinues(states: seq<seq<Ticket>>, steps: seq<Step>, m: nat, n: nat, e': Inbound, id': string)
    requires IsRun(states, steps) && m < n < |states| && steps[m].InboundStep?
    requires Receive(states[m], steps[m].e, steps[m].id).1.Created?
    requires var e := steps[m].e;
      && e'.sender.id == e.sender.id && !e'.sender.role.Owner? && e'.accepted
      && LowerAll(e'.sender.address) == LowerAll(e.sender.address) && Normalize(e'.subject) == Normalize(e.subject)
      && e'.now - e.now < 30 * 24 * 3600
    requires OnlySubject(states[n], e')
    requires forall k :: 0 <= k < |states[n]| ==> !Holds(states[n][k], e'.sender, e'.messageId)
    requires |states[m]| < |states[n]| ==> states[n][|states[m]|].status != Closed
    ensures |states[m]| < |states[n]|
    ensures var (ts', outcome, j) := Receive(states[n], e', id');
      && outcome == Appended && j < |states[n]|
      && Continues(states[n][j], e') && states[n][j].createdAt >= steps[m].e.now
  {
    var i, ts := |states[m]|, states[n];
    OpenedTicket(states[m], steps[m].e, steps[m].id);
    IdsOnlyGrow(states, steps, m + 1, n);
    assert SameThread(states[m + 1][i], ts[i]);
    hide Receive, IsRun, OnlySubject, LowerAll, Normalize, Holds, Grows;
    assert Continues(ts[i], e');
    hide Continues, SameThread;
    LastRung(ts, e');
    OutcomeIs(ts, e', id');
    AppendedMessage(ts, e', id');
  }

  /** A ticket is of the status it was last set to; tickets of other channels come with theirs. */
  lemma StatusesSet(states: seq<seq<Ticket>>, steps: seq<Step>, n: nat, i: nat)
    requires IsRun(states, steps) && n < |steps| && i < |states[n + 1]|
    ensures i < |states[n]| ==>
              states[n + 1][i].status
              == if steps[n].StatusStep? && steps[n].i == i then steps[n].status else states[n][i].status
    ensures i >= |states[n]| ==>
              (steps[n].InboundStep? && states[n + 1][i].status == Open)
              || (steps[n].OtherTicket? && states[n + 1][i] == steps[n].ticket)
    ensures steps[n].OtherTicket? ==> |states[n + 1]| == |states[n]| + 1
  {
    assert Enabled(states[n], steps[n]) && states[n + 1] == Apply(states[n], steps[n]);
    if steps[n].InboundStep? {
      var e, id := steps[n].e, steps[n].id;
      OutcomeIs(states[n], e, id);
      if Receive(states[n], e, id).1.Created? {
        OpenedTicket(states[n], e, id);
      } else if Receive(states[n], e, id).1.Appended? {
        AppendedMessage(states[n], e, id);
      }
      hide Receive, Match, Holds, SameThread;
    }
    hide IsRun;
  }

  /** Step `m` makes ticket `i` remember the id: an e-mail taken in there, or a reply sent. */
  predicate Teaches(states: seq<seq<Ticket>>, steps: seq<Step>, m: nat, i: nat, id: string)
    requires m < |steps| && m < |states|
  {
    match steps[m]
    case InboundStep(e, new_) =>
      var (_, outcome, acted) := Receive(states[m], e, new_);
      e.messageId == id && acted == i && (outcome.Appended? || outcome.Created?)
    case OutboundStep(k, outboundId, sent) => k == i && outboundId == id && sent
    case StatusStep(_, _) => false
    case OtherTicket(_) => false
  }

  ghost predicate Taught(states: seq<seq<Ticket>>, steps: seq<Step>, n: nat, i: nat, id: string)
    requires n <= |steps| && n <= |states|
  {
    exists m :: 0 <= m < n && Teaches(states, steps, m, i, id)
  }

  lemma TaughtNext(states: seq<seq<Ticket>>, steps: seq<Step>, n: nat, i: nat, id: string)
    requires n < |steps| && n < |states|
    ensures Taught(states, steps, n + 1, i, id)
            <==> Taught(states, steps, n, i, id) || Teaches([states[n]], [steps[n]], 0, i, id)
  {
    assert Teaches(states, steps, n, i, id) <==> Teaches([states[n]], [steps[n]], 0, i, id);
    hide Teaches;
    if Teaches(states, steps, n, i, id) { assert 0 <= n < n + 1; }
  }

  /** Over every run a ticket remembers exactly the e-mails it took in and the replies that were sent on it. */
  lemma {:induction false} IdsTaught(states: seq<seq<Ticket>>, steps: seq<Step>, n: nat, i: nat, id: string)
    requires IsRun(states, steps) && n < |states|
    ensures i < |states[n]| && id in Ids(states[n][i]) <==> Taught(states, steps, n, i, id)
  {
    if n > 0 {
      IdsTaught(states, steps, n - 1, i, id);
      assert Enabled(states[n - 1], steps[n - 1]) && states[n] == Apply(states[n - 1], steps[n - 1]);
      StepTeaches(states[n - 1], steps[n - 1], i, id);
      TaughtNext(states, steps, n - 1, i, id);
      hide Apply, Enabled, Ids, IsRun, Teaches, Taught;
    }
  }

  lemma StepTeaches(ts: seq<Ticket>, step: Step, i: nat, id: string)
    requires Enabled(ts, step)
    ensures var ts' := Apply(ts, step);
      i < |ts'| && id in Ids(ts'[i]) <==>
        (i < |ts| && id in Ids(ts[i])) || Teaches([ts], [step], 0, i, id)
  {
    match step
    case InboundStep(e, new_) =>
      OutcomeIs(ts, e, new_);
      var (ts', outcome, k) := Receive(ts, e, new_);
      if outcome.Created? {
        OpenedTicket(ts, e, new_);
      } else if outcome.Appended? {
        AppendedMessage(ts, e, new_);
      }
      hide Receive, Match, Holds;
    case OutboundStep(_, _, _) =>
    case StatusStep(_, _) =>
    case OtherTicket(_) =>
  }

  /** A reply that could not be sent leaves nothing; one that was is remembered as the last, and never sent again. */
  lemma SentOnce(states: seq<seq<Ticket>>, steps: seq<Step>, m: nat, n: nat, sent: bool)
    requires IsRun(states, steps) && m < n < |states| && steps[m].OutboundStep?
    ensures var OutboundStep(i, outboundId, _) := steps[m];
      && (!steps[m].sent ==> states[m + 1] == states[m])
      && (steps[m].sent && outboundId !in Ids(states[m][i]) ==>
            states[m + 1][i].metadata.Some? && states[m + 1][i].metadata.value.lastOutbound == Some(outboundId))
      && (steps[m].sent ==> i < |states[n]| && Send(states[n], i, outboundId, sent) == states[n])
  {
    assert Enabled(states[m], steps[m]) && states[m + 1] == Apply(states[m], steps[m]);
    IdsOnlyGrow(states, steps, m + 1, n);
    var i, outboundId := steps[m].i, steps[m].outboundId;
    if steps[m].sent {
      assert outboundId in Ids(states[m + 1][i]);
      assert SameThread(states[m + 1][i], states[n][i]) && Ids(states[m + 1][i]) <= Ids(states[n][i]);
    }
  }

  // --- answers to outbound replies ---

  /** A ticket's id is a UUID in text form: its first eight characters are hex digits. */
  predicate IsTicketId(id: string) { |id| >= 8 && IsTag(id[..8]) }

  /** The stored subject carries no tag, or the ticket's own. */
  predicate OwnOrNoTag(t: Ticket) {
    ParseTag(BaseSubject(t)).None? || ParseTag(BaseSubject(t)) == Some(OwnTag(t))
  }

  /** A reply goes out under a subject that names its own ticket exactly when the stored subject names no other. */
  lemma OutboundTagIff(t: Ticket)
    requires IsTicketId(t.id)
    ensures ParseTag(OutboundSubject(t)) == Some(OwnTag(t)) <==> OwnOrNoTag(t)
    ensures !OwnOrNoTag(t) ==> OutboundSubject(t) == BaseSubject(t)
  {
    if ParseTag(BaseSubject(t)).None? { ReplyRoundTrip(BaseSubject(t), OwnTag(t)); }
  }

  /**
    An answer that quotes the subject of a reply, under any prefix without a bracket, reaches the ticket through the tag
    rung exactly when the stored subject named no other ticket and no other candidate has the same eight digits.
   */
  lemma AnswerRoutedIff(ts: seq<Ticket>, e: Inbound, i: nat, before: string)
    requires i < |ts| && IsTicketId(ts[i].id) && NoBracket(before)
    requires e.subject == before + OutboundSubject(ts[i])
    requires MatchByReference(ts, e.sender, Refs(e)).None?
    ensures MatchByTag(ts, e.sender, e.subject) == Some(i)
            <==> OwnOrNoTag(ts[i]) && OnlyTagged(ts, e.sender, OwnTag(ts[i]), i)
    ensures OwnOrNoTag(ts[i]) && OnlyTagged(ts, e.sender, OwnTag(ts[i]), i) ==> Match(ts, e) == Some(i)
  {
    var out := OutboundSubject(ts[i]);
    ParseTagPast(before, out);
    OutboundTagIff(ts[i]);
    ParseTagIff(out);
    hide OutboundSubject, BaseSubject, ParseTag;
    if ParseTag(out).Some? && ParseTag(out).value <= ts[i].id {
      assert ParseTag(out).value == OwnTag(ts[i]);
    }
  }

  /** A title carries a tag exactly when the subject it was made from does. */
  lemma TitleTag(subject: string)
    ensures HasTag(TitleOf(subject)) <==> HasTag(subject)
  {
    SpacesAreSpaces(subject);
    TagPastSpaces(subject, Spaces(subject));
    TrimRightTag(TrimLeft(subject));
    assert HasTag(Trim(subject)) <==> HasTag(subject);
    if Trim(subject) == "" {
      var title := "(no subject)";
      assert title[1] != '#' && title[2] != '#';
      assert forall i :: !TagAt(title, i) && !TagAt("", i);
    }
  }

  /**
    Over every run: the subject of replies on a ticket that an e-mail opened is fixed by that e-mail's subject. It
    carries a tag of its own exactly when what is left of the subject after prefixes and tags does in lower case, or
    nothing is left and the subject does.
   */
  lemma RepliesFixedByFirstEmail(states: seq<seq<Ticket>>, steps: seq<Step>, m: nat, n: nat)
    requires IsRun(states, steps) && m < n < |states| && steps[m].InboundStep?
    requires Receive(states[m], steps[m].e, steps[m].id).1.Created?
    ensures var i, subject := Receive(states[m], steps[m].e, steps[m].id).2, steps[m].e.subject;
      && i < |states[n]|
      && BaseSubject(states[n][i]) == (if Normalize(subject) != "" then Normalize(subject) else TitleOf(subject))
      && (ParseTag(BaseSubject(states[n][i])).Some?
          <==> if Normalize(subject) != "" then HasTag(Leftover(subject)) else HasTag(subject))
  {
    var i, subject := Receive(states[m], steps[m].e, steps[m].id).2, steps[m].e.subject;
    IdsOnlyGrow(states, steps, m + 1, n);
    assert SameThread(states[m + 1][i], states[n][i]);
    NormalizeLeftover(subject);
    TitleTag(subject);
    ParseTagIff(BaseSubject(states[n][i]));
  }

  /** An answer that names a remembered message as its parent reaches the ticket that alone remembers it. */
  lemma AnswerFollowsParent(ts: seq<Ticket>, e: Inbound, i: nat, parent: string)
    requires i < |ts| && parent != "" && e.inReplyTo == Some(parent) && Holds(ts[i], e.sender, parent)
    requires forall k :: 0 <= k < |ts| && k != i ==> !Holds(ts[k], e.sender, parent)
    ensures Match(ts, e) == Some(i)
  {
    ParentFirst(Ancestors(e.inReplyTo, e.references));
    assert Refs(e)[0] == parent;
    LadderOrder(ts, e, 0, 0);
  }
}
