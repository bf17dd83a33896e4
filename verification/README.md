# A verified model of the helpdesk backend's algorithms and protocols

The backend serves a multi-tenant property helpdesk: tickets arrive by web, e-mail, chat and WhatsApp, carry
service-level deadlines in business hours, are classified and answered with help from language models, and are
measured every day. This project models the parts of it that carry real algorithms or protocols, and proves what they
promise for every input, every run and every interleaving.

The database is modelled as maps and sequences of rows, the clock as an integer, and language models, the tokenizer,
the mail server and failing calls as arbitrary inputs. Code that works by changing things step by step is imperative
Dafny (classes and loops) proved against a function of the old state; the promises are lemmas about that function over
whole runs.

| file | component |
|---|---|
| `BusinessCalendar.dfy`, `SlaWalk.dfy`, `SlaBooks.dfy`, `SlaDue.dfy`, `SlaLaws.dfy`, `SlaCapacity.dfy`, `BusinessHours.dfy` | business-hours deadlines: the calendar, the walk, its accounts and its proof, its laws, weekly capacity, and the validator |
| `SlaTransitions.dfy`, `SlaTimeline.dfy`, `SlaLedger.dfy`, `SlaMerging.dfy` | clock changes inside business hours: when the walk is exact, zones with many changes, what the walk charges, and windows without a gap |
| `SlaMonitor.dfy`, `SlaMonitorRuns.dfy` | the monitor's passes with savepoints, and every run of them |
| `SuggestionCache.dfy`, `Separation.dfy` | the AI-suggestion cache under concurrency |
| `Chunking.dfy` | the document chunker |
| `RefreshTokens.dfy` | refresh-token families |
| `EmailThreading.dfy`, `SubjectText.dfy`, `EmailIngestion.dfy` | subjects, tags and references; the text operations under them; the matching ladder and its runs |
| `TicketLifecycle.dfy`, `TicketRaces.dfy` | one ticket's life under CHECK constraints; status changes that overlap |
| `Chat.dfy` | chat turns and escalation |
| `Analytics.dfy` | daily metrics and the nightly rollup |
| `RateLimit.dfy`, `WhatsApp.dfy`, `MacroF1.dfy` | the hourly limiter, WhatsApp ingestion, the classifier's score |
| `HelpdeskTypes.dfy`, `Wrappers.dfy` | shared types |

Where the code does not do what it documents or sets out to do, the model follows the code:

- `normalize_subject` is documented as idempotent and is not: `[#12345678] Re: x` becomes `re: x`, then `x`.
  `EmailThreading.IdempotentIff` says exactly when it is.
- A chunk is documented as staying within the budget when possible. A slice of tokens need not decode to a text of as few
  tokens; `Chunking.DocumentUnitsFitIff` says exactly when every unit fits.
- A `resolved` event is documented as recorded at the transition edge. The row is read without a lock, so two overlapping
  closes both record one. `TicketRaces.EventsExactIff` says exactly when there is one event for each change.
- `parse_business_hours` is documented as making the walk safe; it accepts a day whose windows are listed out of order,
  and the walk then skips windows. `BusinessHours.ExactIffAscending` says exactly when the walk is right.
- Presenting a rotated refresh token is documented as revoking its family. The service does so and then raises, the
  request is rolled back with it, and the newest token goes on rotating. `RefreshTokens.ReuseKillsIffDead` says exactly
  what a reuse leaves.
- The second look at the cache under the lock is there so that one request regenerates and the others reuse its
  suggestion. Rows are stamped with the start of their transaction, so a suggestion can sort before the message that
  asked for it; suggestions then stand side by side, in any number (`SuggestionCache.NoBoundOnSuggestions`).
  `SuggestionCache.SeparatedIffFits` says exactly when they do not.
- Where a window edge falls into an hour the clock skips or repeats, the walk can be wrong and an earlier start can be
  due later. `SlaTransitions.ExactIffAllSafe` says exactly when it is right.
- A stored subject is in lower case, so `[#ABCDEF12] help` becomes a tag, and replies carry it instead of their own.
  `EmailIngestion.OutboundTagIff` says exactly when a reply names its own ticket.
- `with_appended` is documented as trimming to the last `cap` items; a cap of 0 keeps the whole list
  (`WhatsApp.CapKeepsNewest`).

## Model

| member | source | states |
|---|---|---|
| `BusinessCalendar.OneTransitionPassesOnce` | app/services/sla.py:88-97 | a zone with one offset change passes a wall-clock reading exactly once if and only if the reading is not strictly inside the skipped or repeated stretch; this is when the walk's conversions to UTC are in order |
| `BusinessCalendar.ConstantOffsetRegular` | app/services/sla.py:77-110 | a constant-offset zone meets the walk's assumption for every schedule |
| `BusinessCalendar.KeepsAllIffAscending` | app/services/sla.py:85-103 | the walk sees every window of an accepted day if and only if the day lists them in ascending order |
| `SlaWalk.WalkEffective` | app/services/sla.py:81-110 | in every zone the walk over a schedule is the walk over its effective windows, those that end later than all listed before them on their day |
| `SlaBooks.DayOnTrack` | app/services/sla.py:85-103 | from balanced books, one day's windows either land on the first instant with exactly the budgeted open time, or leave the books balanced |
| `SlaDue.WalkMeets` | app/services/sla.py:81-110 | where the zone passes the schedule's midnights and edges once, the walk gives the first instant by which exactly the budget of open time has passed since the start, counted over the windows it sees, or the error when the 366 days hold less |
| `SlaDue.ComputeSlaDueAt` | app/services/sla.py:51-115 | the loops compute the walk that the lemmas are about, in every zone and for every accepted schedule; with a positive budget and edges passed once the result is the exact due instant or the error; without business hours it is start plus hours |
| `SlaLaws.ExhaustedIff` | app/services/sla.py:37-115 | the error is raised exactly when the open time from the start to the end of the 366th local day is less than the budget |
| `SlaLaws.MeetsUnique` | app/services/sla.py:81-115 | at most one result meets the specification |
| `SlaLaws.MeetsTotal` | app/services/sla.py:81-115 | some result meets the specification for every start and positive budget |
| `SlaLaws.Compose` | app/services/sla.py:93-110 | when due(t, a+b) exists, due(t, a) exists and due(due(t, a), b) is the same instant, window ends included |
| `SlaLaws.Sequence` | app/services/sla.py:93-110 | conversely, running budget a and then b is running a+b |
| `SlaLaws.MonotoneInStart` | app/services/sla.py:93-110 | a later start is never due earlier |
| `SlaLaws.MonotoneInBudget` | app/services/sla.py:93-110 | more hours are due strictly later |
| `SlaLaws.DueAfterStart` | app/services/sla.py:97-100 | a deadline is at least its budget after its start |
| `SlaLaws.FiftyTwoWeeksFit` | app/services/sla.py:37-115 | in a constant-offset zone the walk over an accepted schedule, in any order, never fails for a positive budget of at most 52 times the weekly capacity of the windows it sees |
| `BusinessHours.FindOverlap` | app/services/sla.py:162-167 | the nested loops report an overlap exactly when two windows of the day are not disjoint |
| `BusinessHours.ParseDay` | app/services/sla.py:133-167 | a day is accepted exactly when it meets every rule, and the fault names a rule it breaks |
| `BusinessHours.ParseBusinessHours` | app/services/sla.py:118-172 | a payload is accepted exactly when every day meets the documented rules and some day is open; the fault reported is true of the payload |
| `BusinessHours.AcceptableIff` | app/services/sla.py:131-172 | those rules entry by entry: known day names, ends given and in order, no two entries of a day that overlap while touching is allowed, and some entry |
| `BusinessHours.WeekListed` | app/services/sla.py:81-86 | each day of every week has the windows listed under its name, Monday under `mon`, in their order; a day that is not named is closed |
| `BusinessHours.PairwiseIffNeighbours` | app/services/sla.py:162-167 | the pairwise check on any listing equals the neighbour check on the listing sorted by start, and an accepted day sorts into an ascending chain |
| `BusinessHours.EffectiveWellFormed` | app/services/sla.py:85-103 | what the walk sees of an accepted schedule is valid and ascending, and is the whole schedule when that is ascending |
| `BusinessHours.SortedScheduleExact` | app/services/sla.py:85-172 | sorting each accepted day by start meets the walk's precondition, and the walk over it is exact for the schedule as written |
| `BusinessHours.OutOfOrderWitness` | app/services/sla.py:85-103 | every accepted schedule with a day out of order has a start and a budget for which the walk's answer is wrong |
| `BusinessHours.ExactIffAscending` | app/services/sla.py:85-172 | the walk is exact for an accepted schedule on all starts and budgets if and only if every day is ascending |
| `BusinessHours.DescendingDayAccepted` | app/services/sla.py:131-172 | a concrete accepted payload, afternoon listed before morning, on which the walk is wrong |
| `SlaTransitions.ExactIffAllSafe` | app/services/sla.py:81-110 | in a zone with any number of offset changes, ten days apart and with no midnight inside their stretches, the walk is exact for the windows it sees on all starts and budgets if and only if every window edge strictly inside a skipped or repeated stretch joins windows open throughout the stretch and, for a skip, for as long after it as the edge lies into it |
| `SlaTransitions.ExactIffSafe` | app/services/sla.py:81-110 | the same for one offset change |
| `SlaTransitions.ExactIffNoEdgeInside` | app/services/sla.py:81-110 | for a schedule without abutting windows: if and only if no edge lies strictly inside a stretch |
| `SlaTransitions.SafeMonotone` | app/services/sla.py:81-110 | where every such edge is harmless, a later start is never due earlier |
| `SlaTimeline.MixedWrong` | app/services/sla.py:93-103 | with an open and a closed reading in a stretch there is a start next to it for which the walk has gone wrong within nine days: it has landed where the budget is not due, or goes on after it was |
| `SlaTimeline.EdgeWrong` | app/services/sla.py:93-103 | so there is with abutting windows over a skip that close too soon after it |
| `SlaTimeline.WrongForGood` | app/services/sla.py:81-110 | a walk that has gone wrong by the end of some day gives a wrong answer |
| `SlaTransitions.AllSafeExact` | app/services/sla.py:93-103 | edges between windows open for long enough do no harm: charges of opposite sign cancel along the run of windows |
| `SlaTransitions.LaterStartDueEarlier` | app/services/sla.py:88-103 | where a day's one window opens at a skipped reading, a start before the skip is due later than a start soon after it |
| `SlaTransitions.LaterStartDueEarlierRepeated` | app/services/sla.py:88-103 | where a day's one window ends at a repeated reading, a start in the second pass before that reading is due later than a start after it |
| `SuggestionCache.OneGenerator` | app/services/rag.py:171-271 | in every state of every interleaving of requests with unlocked posts, whatever keys the rows get, at most one request per ticket is generating, only while the newest suggestion is outdated, and every suggestion handed out is a stored one |
| `SuggestionCache.FinishedHow` | app/services/rag.py:193-273 | in every interleaving a request ends in exactly three ways: it gives up with nothing, it inserts a suggestion and is handed that one, or it is handed a stored suggestion of its ticket that no other message follows, under the lock the newest |
| `SuggestionCache.HandedWhatItLookedUp` | app/services/rag.py:195-207 | a request that has looked up a suggestion is handed it at its next step, unless it gives up, if and only if no other message follows it by then; else it goes on to the lock, or with the lock to the generator; both times it looks |
| `SuggestionCache.LookupFindsNewest` | app/services/rag.py:97-106 | what a lookup finds is the suggestion with the greatest key, or nothing when there is none |
| `SuggestionCache.RowsStored` | app/services/rag.py:260-271 | over every interleaving the suggestions of a ticket are exactly the keys inserted for it, and its other messages the keys posted on it |
| `SuggestionCache.LockReleased` | app/services/rag.py:203-271 | a ticket is locked exactly while a request for it is between taking the lock and its end, by that request |
| `SuggestionCache.SeparatedIffFits` | app/services/rag.py:171-271 | along every interleaving, any two suggestions of any ticket have another message between them in all states if and only if every suggestion, where it is inserted, has another message between itself and the nearest suggestion on either side |
| `SuggestionCache.InsertSeparatedIff` | app/services/rag.py:193-207 | the same for one insertion into a separated thread |
| `SuggestionCache.NewestSeparatedIff` | app/services/rag.py:97-123 | for a suggestion newer than the latest one before it: if and only if another message lies between the two |
| `SuggestionCache.GreatestFits` | app/services/rag.py:97-123 | a suggestion added under the greatest key to a thread whose latest suggestion is outdated fits |
| `SuggestionCache.SuggestionsSeparated` | app/services/rag.py:171-271 | with suggestions keyed in insertion order, in every state of every interleaving any two suggestions of a ticket have another message between them, and they are at most the others plus one |
| `SuggestionCache.StampedSeparatedIff` | app/models/base.py:31-33 | with transaction-start timestamps, an insertion by a request that began after the latest suggestion keeps the thread separated if and only if a message newer than that suggestion was there before the request began |
| `SuggestionCache.LateMessageNotSeparated` | app/models/base.py:31-33 | for all stamps a < b < h, a run in which a message at h arrives during the one request that began at b leaves the adjacent suggestions a and b |
| `SuggestionCache.NoBoundOnSuggestions` | app/models/base.py:31-33 | for every n, a run under these timestamps leaves n suggestions to one other message |
| `Separation.SeparatedCount` | app/services/rag.py:193-207 | a set of keys separated by another set has at most one member more |
| `SlaMonitor.RecipientsExact` | app/services/notification_service.py:47-74 | each active admin of the organization and the active assigned agent, each once, and nobody else |
| `SlaMonitor.Session.RecordOnce` | app/services/sla_event_service.py:35-72 | inserts one row with a new id exactly when the ticket has no event of the kind |
| `SlaMonitor.Session.ResolveRecipients` | app/services/notification_service.py:47-74 | computes the recipients that `RecipientsExact` characterizes |
| `SlaMonitor.Session.FanOut` | app/services/notification_service.py:83-113 | appends one unread notification per recipient and changes nothing else |
| `SlaMonitor.Session.ProcessTicket` | app/workers/sla.py:92-136 | unless it raises, records and announces exactly the warning and the breach that are due and missing |
| `SlaMonitor.Session.MonitorSla` | app/workers/sla.py:54-90 | a pass processes each candidate once, and the partial work of every ticket that raised is undone |
| `SlaMonitorRuns.EventsRecordedOnce` | app/workers/sla.py:69-136 | in every run of passes mixed with ticket, user and read-flag changes and failures, a ticket has at most one warning and one breach, and a breach only with a warning |
| `SlaMonitorRuns.NotifiedAsRecorded` | app/services/notification_service.py:58-113 | in every run, each warning or breach keeps exactly one notification per recipient of the state in which it was recorded |
| `SlaMonitorRuns.CleanPassComplete` | app/workers/sla.py:69-136 | a pass that does not fail on a ticket leaves it warned at 80% of its time and with both events past its deadline; it records nothing ahead of time or for resolved tickets |
| `SlaMonitorRuns.PassRecordsIff` | app/workers/sla.py:54-136 | after a pass of any run a ticket has a warning, or a breach, exactly when it had one or the pass did not fail on it, it has a deadline, is neither resolved nor closed, has used four fifths of its time, and for a breach has reached the deadline |
| `SlaMonitorRuns.ReadOnce` | app/services/notification_service.py:159-175 | over every run a notification is never removed, is read from the first time it is marked, and nothing else of it changes |
| `Chunking.PackUnits` | app/services/chunking.py:79-101 | the groups keep all units in order, none is over the budget unless it is a single unit, and none has room for the next group's first unit |
| `Chunking.PackingOptimal` | app/services/chunking.py:79-101 | greedy packing uses the fewest groups of any order-preserving partition under the budget |
| `Chunking.AllWithinBudget` | app/services/chunking.py:79-101 | when every unit fits, every group's token sum fits |
| `Chunking.OverlapPrefix` | app/services/chunking.py:104-122 | takes the longest suffix of sentences whose token sum fits the overlap budget, none for a budget of zero or less |
| `Chunking.SlicesExact` | app/services/chunking.py:52-59 | a hard split loses and reorders no token, and no slice is empty or over the budget |
| `Chunking.SlicesAt` | app/services/chunking.py:52-59 | slice k is the tokens from k times `max_tokens` up to the next multiple, or to the end, and the slices reach to the end |
| `Chunking.UnitsForParagraph` | app/services/chunking.py:62-76 | a paragraph that fits stands for itself; else each sentence in order stands for itself when it fits and for its decoded slices of `max_tokens` tokens when not; it raises exactly at `max_tokens` 0 with a sentence to split |
| `Chunking.DocumentRaisesIff` | app/services/chunking.py:52-76 | a document raises exactly when `max_tokens` is 0 and some paragraph has a sentence to hard-split |
| `Chunking.NegativeBudgetLosesAll` | app/services/chunking.py:52-76 | a negative `max_tokens` gives no units for any document, without an error |
| `Chunking.DocumentUnitsFitIff` | app/services/chunking.py:52-76 | every unit of a document fits the budget if and only if every piece of a sentence that has to be hard-split comes to at most `max_tokens` when it is encoded again; for every tokenizer |
| `Chunking.DocumentUnitsFit` | app/services/chunking.py:52-76 | in particular with a tokenizer that does not grow on the slices of an encoded text |
| `Chunking.GroupsFitIff` | app/services/chunking.py:79-101 | the groups of a greedy packing are all within the budget if and only if the units are |
| `Chunking.ChunkDocument` | app/services/chunking.py:125-166 | for every `max_tokens`, raising exactly at 0 with a sentence to split: chunk i is group i preceded by the longest overlap from group i-1; the groups, in the fewest, hold one part per paragraph in order: the paragraph itself when it fits, else for each sentence the sentence or its decoded slices; all within the budget if and only if every hard-split piece is |
| `Chunking.JoinAppend` | app/services/chunking.py:79-101 | joining puts the separator between the parts, and nothing around them |
| `RefreshTokens.FindAfterIssue` | app/repositories/refresh_token_repository.py:24-60 | a token just issued is the one a lookup by it finds, and every other token is found where it was |
| `RefreshTokens.FindAfterRevoke` | app/repositories/refresh_token_repository.py:48-65 | revoking a row changes no lookup |
| `RefreshTokens.AuthSession.RevokeAll` | app/repositories/refresh_token_repository.py:67-78 | stamps exactly the still-live rows of the family |
| `RefreshTokens.AuthSession.LoginCall` | app/services/auth_service.py:51-70 | issues the first token of a new family to an active, verified user, and otherwise changes nothing |
| `RefreshTokens.AuthSession.RefreshCall` | app/services/auth_service.py:73-95 | rotates a live, unexpired token of an active user; revokes the family on reuse; otherwise changes nothing |
| `RefreshTokens.AuthSession.RefreshRequest` | app/api/v1/auth.py:43-51 | the request around it: the call's outcome, and the rows as they were when it raises |
| `RefreshTokens.AuthSession.LogoutCall` | app/services/auth_service.py:98-108 | revokes the presented token's family, if it is known |
| `RefreshTokens.FamilyInvariant` | app/services/auth_service.py:73-108 | in every reachable state a family has one user and at most one live token |
| `RefreshTokens.RevokedOnce` | app/repositories/refresh_token_repository.py:48-78 | along every run `revoked_at` is written at most once per token and nothing else of a token changes |
| `RefreshTokens.IssuedByRotation` | app/services/auth_service.py:149-157 | a token added to an existing family comes from rotating the presented live, unexpired token of that family |
| `RefreshTokens.IssuedIff` | app/services/auth_service.py:51-95 | along every run a step adds a token exactly when it is the login of an active user or a refresh with a live, unexpired token of an active user; then one token, live, that user's and good for thirty days |
| `RefreshTokens.OutcomeIff` | app/services/auth_service.py:51-95 | the call returns the new token in exactly these cases and denies the caller in all others |
| `RefreshTokens.RotatedForThirtyDays` | app/services/auth_service.py:73-95 | a token issued by a login or a rotation can be rotated at any later point of the run if and only if it is not revoked, thirty days have not passed since, and its user is active |
| `RefreshTokens.RevokedIff` | app/repositories/refresh_token_repository.py:62-78 | along every run a live token is revoked exactly by its own rotation or by a logout with a token of its family, and stamped with that time |
| `RefreshTokens.DeadForever` | app/services/auth_service.py:73-108 | a family with no live token stays without one, and no token is added to it |
| `RefreshTokens.ReuseRevokesSession` | app/services/auth_service.py:73-95 | presenting a revoked token raises, and the call's session then holds no live token of its family |
| `RefreshTokens.ReuseKillsIffDead` | app/core/session.py:50-57 | the request changes no committed row, so the family is dead for the rest of the run if and only if it had no live token already |
| `RefreshTokens.LiveTokenSurvivesReuse` | app/services/auth_service.py:73-95 | in the state after a reuse the family's live, unexpired token of an active user is still rotated |
| `RefreshTokens.ReuseNotCommitted` | app/services/auth_service.py:81-83 | a concrete history: log in with 100, rotate to 101, present 100 again, and 101 still rotates |
| `RefreshTokens.DeniedRequestsInvisible` | app/core/session.py:50-57 | striking all refused requests from any history leaves the same rows |
| `RefreshTokens.LogoutKillsFamily` | app/services/auth_service.py:98-108 | logging out with any token of a family leaves it revoked for the rest of the run |
| `EmailThreading.NormalizeSubject` | app/services/email_threading.py:38-53 | the loop ends and computes the normal form that the lemmas below are about |
| `EmailThreading.PrefixStripped` | app/services/email_threading.py:27-53 | `re`, `fw` or `fwd` in any case, with white space, at most one colon and white space, is stripped from the front, and then what follows is |
| `SubjectText.SpacesAre` | app/services/email_threading.py:27-53 | white space is the 29 characters that `\s` matches, and no others |
| `EmailThreading.IdempotentIff` | app/services/email_threading.py:38-53 | normalizing twice is normalizing once if and only if what is left of the subject without its leading prefixes and its tags has no prefix after leading whitespace and no tag |
| `EmailThreading.IdempotentOnPlain` | app/services/email_threading.py:38-53 | in particular on every subject without leading whitespace and without `[#` |
| `EmailThreading.NotIdempotent` | app/services/email_threading.py:38-53 | two whole families of subjects on which the documented idempotence fails: a text with a reply prefix, tidy but for its capitals, after a space or after a tag |
| `EmailThreading.TaggedReplyNotIdempotent` | app/services/email_threading.py:38-53 | `[#12345678] Re: x` normalizes to `re: x`, and that to something else |
| `EmailThreading.ReplyRoundTrip` | app/services/email_threading.py:105-119 | for every untagged subject the reply's subject parses back to the ticket's tag and normalizes to the same string as the original |
| `EmailThreading.NeverDoubleTagged` | app/services/email_threading.py:105-119 | a subject that carries a tag is sent back unchanged |
| `EmailThreading.ParseTagIff` | app/services/email_threading.py:76-82 | a tag is found exactly when the subject contains one, and it is eight lowercase hex digits |
| `EmailThreading.ExtractReferenceIds` | app/services/email_threading.py:56-73 | the non-empty ancestors, direct parent first and then newest to oldest, each exactly once |
| `EmailThreading.ParseTagPast` | app/services/email_threading.py:76-82 | text without a bracket in front of a subject does not change the tag that is found |
| `EmailThreading.CapitalsBecomeTag` | app/services/email_threading.py:38-82 | a bracketed number in capitals is no tag, and normalizing the subject turns it into one |
| `EmailIngestion.FindHolder` | app/services/email_ingestion.py:116-120 | the first candidate that remembers the message id, none exactly when no candidate does |
| `EmailIngestion.NewestKnownReferenceWins` | app/services/email_ingestion.py:123-129 | the deciding reference is the first one that any candidate remembers |
| `EmailIngestion.LadderOrder` | app/services/email_ingestion.py:98-102 | a known reference, parent first, decides whatever the subject says, then a tag naming exactly one candidate, and only then sender and subject |
| `EmailIngestion.LastRung` | app/services/email_ingestion.py:142-161 | with no known reference and no telling tag the e-mail goes to the newest ticket that its sender sees, that is not closed, bears the lower-cased sender address and the normalized subject and is less than thirty days old, and to none exactly when there is no such ticket |
| `EmailIngestion.ConversationContinues` | app/services/email_ingestion.py:98-207 | over every run: once an e-mail has opened a ticket, a later one of the same sender under the same normalized subject, with no known reference or telling tag, within thirty days and before the ticket is closed, is appended to a ticket no older |
| `EmailIngestion.MatchByTag` | app/services/email_ingestion.py:132-139 | finds a ticket exactly when it is the only candidate whose id starts with the parsed tag |
| `EmailIngestion.TagRung` | app/services/email_ingestion.py:132-139 | with no known reference a tag decides for exactly the one ticket its sender sees whose id begins with it |
| `EmailIngestion.MatchBySubject` | app/services/email_ingestion.py:142-161 | the most recently created eligible ticket, none exactly when none is eligible |
| `EmailIngestion.Mailbox.IngestInboundEmail` | app/services/email_ingestion.py:78-207 | replay, then the references extracted from the headers, tag and subject rungs in this order, then a new ticket; the new table is given whole, also when the service that takes the message raises |
| `EmailIngestion.Mailbox.ReceiveEmailWebhook` | app/api/v1/webhooks_email.py:34-75 | the request around it: an ingestion that raises leaves the table as it was |
| `EmailIngestion.ReceiveRemembers` | app/services/email_ingestion.py:164-207 | an e-mail taken in is remembered by the ticket it acted on and, unless it was a replay, by no other ticket its sender sees |
| `EmailIngestion.OutcomeIs` | app/services/email_ingestion.py:92-107 | a known id is a replay; else a delivery that is not taken raises, and one that is taken is appended to its match or opens a ticket; nothing is left behind by the first two |
| `EmailIngestion.OpenedTicket` | app/services/email_ingestion.py:184-207 | the ticket an e-mail opens is its sender's, open, of that moment, with the lower-cased address, the normalized subject and the one id |
| `EmailIngestion.AppendedMessage` | app/services/email_ingestion.py:164-181 | an appended e-mail adds one message and its id to the matching ticket and touches nothing else |
| `EmailIngestion.RaisedRemembers` | app/services/email_ingestion.py:172-180 | in its session an ingestion that raises at a match has remembered the id and posted nothing |
| `EmailIngestion.IdsTaught` | app/services/email_ingestion.py:164-207 | over every run a ticket remembers exactly the e-mails it took in and the replies that were sent on it |
| `EmailIngestion.NewEmailChanges` | app/services/email_ingestion.py:92-107 | an e-mail that no candidate remembers changes the table exactly when nothing raises |
| `EmailIngestion.Mailbox.SendTicketEmailReply` | app/workers/email.py:85-137 | remembers the outbound id once, and only when the mail was sent; the subject is built from the stored one |
| `EmailIngestion.SentOnce` | app/workers/email.py:85-137 | over every run a reply that could not be sent leaves nothing, and one that was is the last outbound id and is never sent again |
| `EmailIngestion.IdsOnlyGrow` | app/services/email_ingestion.py:164-207 | over every run a ticket's message ids only grow, in order, and never hold an id twice |
| `EmailIngestion.RedeliveryIff` | app/services/email_ingestion.py:92-107 | redelivering at once changes nothing if and only if the sender can see the ticket that took the message, or the second delivery raises |
| `EmailIngestion.SenderSeesTicket` | app/repositories/ticket_repository.py:42-70 | the sender sees it unless an owner has just created it |
| `EmailIngestion.RedeliveryChangesNothing` | app/services/email_ingestion.py:92-129 | however many steps later, redelivery by a tenant, agent or admin is a replay that changes nothing |
| `EmailIngestion.OutboundTagIff` | app/workers/email.py:97-104 | the subject of a reply parses to the ticket's own eight digits if and only if the stored subject has no tag or has that very one; otherwise it is the stored subject, foreign tag included |
| `EmailIngestion.AnswerRoutedIff` | app/services/email_ingestion.py:132-139 | an answer quoting a reply's subject, with no known reference, reaches the ticket by its tag exactly when the stored subject names no other ticket and no other candidate has its eight digits |
| `EmailIngestion.TitleTag` | app/services/email_ingestion.py:193 | a title carries a tag exactly when the subject it was made from does |
| `EmailIngestion.RepliesFixedByFirstEmail` | app/workers/email.py:97-104 | over every run the subject of replies is fixed by the e-mail that opened the ticket, and carries a tag of its own exactly when what is left of that subject after prefixes and tags does in lower case, or nothing is left and the subject does |
| `EmailIngestion.AnswerFollowsParent` | app/services/email_ingestion.py:123-129 | an answer naming as its parent a message that one candidate alone remembers reaches that candidate |
| `TicketLifecycle.TicketSession.CreateTicket` | app/services/ticket_service.py:207-259 | stores the new row, with a deadline when taxonomy is given, or raises and changes nothing; returns which |
| `TicketLifecycle.TicketSession.UpdateTicket` | app/services/ticket_service.py:329-397 | applies gates, assignment, status, taxonomy and the resolved event as one step, or raises and changes nothing; returns which |
| `TicketLifecycle.TicketSession.ClassifyTicket` | app/workers/classification.py:77-152 | does nothing to a classified ticket or an unavailable verdict, and otherwise writes taxonomy and deadline together |
| `TicketLifecycle.TicketSession.EscalateTicket` | app/services/chat_tools.py:286-306 | sets the status without touching `closed_at`, and is aborted when the row then fails its constraint |
| `TicketLifecycle.RowConsistent` | app/models/ticket.py:100-111 | in every reachable state: a title that is not blank, closed exactly when `closed_at` is set, classified only with category, urgency and deadline |
| `TicketLifecycle.CheckAbortsIff` | app/models/ticket.py:100-111 | in a reachable state the constraints abort exactly two kinds of step: creating a ticket under a blank title, and escalating a closed one |
| `TicketLifecycle.SucceedsIff` | app/services/ticket_service.py:207-397 | in a reachable state exactly which steps go through, by role, lookups, deadline and constraints |
| `TicketLifecycle.UrgencyLastNamed` | app/services/ticket_service.py:356-371 | over every run the ticket's urgency is the one named by the last successful step that named one, an update, a creation, or a classification of a pending ticket; none exactly when none did |
| `TicketLifecycle.CategoryLastNamed` | app/services/ticket_service.py:356-371 | the same for the category |
| `TicketLifecycle.CreationWrites` | app/services/ticket_service.py:229-259 | a new ticket is open, unassigned and pending, with the named taxonomy, and has a deadline if it has both halves of it |
| `TicketLifecycle.UpdateWrites` | app/services/ticket_service.py:342-371 | an update leaves what it names, the deadline of the urgency it leaves if it names taxonomy, and every other column as it was |
| `TicketLifecycle.ClassificationWrites` | app/workers/classification.py:123-141 | a classification of a pending ticket leaves exactly the verdict's category and urgency, that urgency's deadline, and every other column as it was |
| `TicketLifecycle.OthersWrite` | app/services/chat_tools.py:304 | an escalation changes the status alone, and a step that does not go through changes nothing |
| `TicketLifecycle.DeadlineWithUrgencyIff` | app/services/ticket_service.py:207-259 | along every run urgency and deadline are present together in all states if and only if the ticket was not created with an urgency and no category, which only the request schema forbids |
| `TicketLifecycle.DeadlineFromLastWrite` | app/services/ticket_service.py:356-369 | the deadline is the one computed from `created_at` for the present urgency at the last step that wrote an urgency, an update by staff if it was an update |
| `TicketLifecycle.ClassifiedOnce` | app/workers/classification.py:77-152 | a classified ticket stays classified, and later deliveries and sweeps change nothing |
| `TicketLifecycle.ResolvedEventsCounted` | app/services/ticket_service.py:375-395 | when steps follow one another, resolved events number exactly the observed changes of status into resolved or closed |
| `TicketLifecycle.AssignedByStaff` | app/services/ticket_service.py:329-351 | in every run the agent of a ticket is the one, a staff member, named by the last assignment, and staff made it |
| `TicketLifecycle.EndedByStaff` | app/services/ticket_service.py:329-397 | in every run a resolved or closed ticket was made so by staff and has stood so since, with `closed_at` that moment |
| `TicketRaces.RowStaysConsistent` | app/models/ticket.py:100-104 | however loads and writes of requests overlap, the stored row is closed exactly when `closed_at` is set |
| `TicketRaces.AbortedIff` | app/services/ticket_service.py:338-371 | a request is aborted by that constraint if and only if it closes a ticket again that was reopened since it was loaded, moves one on that was closed since, or escalates a closed one |
| `TicketRaces.EventsCounted` | app/services/ticket_service.py:378-395 | over every interleaving, resolved events number the changes of the stored status into resolved or closed, plus the requests that repeat one |
| `TicketRaces.EventsExactIff` | app/services/ticket_service.py:378-395 | there is one event for each such change if and only if no request gives the ticket a final status that another has given it since it was loaded |
| `TicketRaces.SerialExact` | app/services/ticket_service.py:338-395 | requests that do not overlap have one event for each change, and only an escalation of a closed ticket is aborted |
| `TicketRaces.TwoClosesTwoEvents` | app/services/ticket_service.py:338-395 | two closes that overlap record two events for one change |
| `Chat.ChatSession.HandleCalls` | app/services/chat.py:190-211 | a round's calls run in order, each storing its tool row, until one raises |
| `Chat.ChatSession.SendMessage` | app/services/chat.py:105-254 | the bounded loop computes the completed turn: session, number of model calls and automatic escalation; or it raises exactly when a call does |
| `Chat.TurnBounds` | app/services/chat.py:159-247 | a completed turn makes 1 to `chat_max_tool_rounds` + 1 model calls, stores one user and one assistant row, and undoes no escalation |
| `Chat.TurnRaisesIff` | app/services/chat.py:159-244 | a turn raises exactly when one of the calls in its replies does, up to the first reply without calls, or its own escalation does |
| `Chat.TurnWrites` | app/services/chat.py:159-244 | a completed turn stores the user's row, one row per call and the assistant's, in this order; it makes one model call per round and one at the end; the session is escalated after it exactly when it was before, one of the calls asked for it, or a second low-confidence turn in a row did |
| `Chat.TurnIsCalls` | app/services/chat.py:235-244 | for status, time and ticket of the session an automatic escalation is one more escalation call after the model's |
| `Chat.CallsEscalate` | app/services/chat_tools.py:278-306 | calls escalate the session exactly when one of them is an escalation, and stamp the time of the first |
| `Chat.CallsLink` | app/services/chat_tools.py:165-189 | the last ticket created for the one contract is linked, or else the first escalation's if there was none |
| `Chat.TurnStreak` | app/services/chat.py:230-244 | the streak and the automatic escalation depend only on the streak before and on whether retrieval was empty |
| `Chat.EscalationsPerRun` | app/services/chat.py:230-244 | over every sequence of turns, automatic escalations are the sum over maximal low-confidence runs of half the length rounded down, and the streak is the parity of the run in progress |
| `Chat.EscalationSticks` | app/services/chat_tools.py:278-308 | `escalated_at` never changes once set, ESCALATED is never left, and an identified escalated session has a linked ticket |
| `Analytics.DaysTile` | app/services/analytics_service.py:78-98 | the bounds put every instant in exactly one day, the one its local clock shows, and neighbouring days share their boundary |
| `Analytics.CountsAre` | app/services/analytics_service.py:101-144 | the counts are the numbers of tickets created on the local day, closed on it, and open at its end |
| `Analytics.OpenConserved` | app/services/analytics_service.py:101-144 | open(d) + closed within d = open(d-1) + created(d), on every table with `created_at` at most `closed_at` |
| `Analytics.OpenConservedOver` | app/services/analytics_service.py:101-144 | the same over any number of days |
| `Analytics.RollupExact` | app/workers/analytics.py:82-129 | whatever units fail, the stored metrics are the old ones overwritten by exactly the successful units' rows |
| `Analytics.RollupStores` | app/workers/analytics.py:101-121 | a key gets the last row of the last successful unit that has one for it, and is left alone when there is none |
| `Analytics.UnitAt` | app/workers/analytics.py:85-98 | the units are, for each organization in turn, yesterday and the day before by its own clock, each with the five families and the rows of their queries |
| `Analytics.RerunHeals` | app/services/analytics_service.py:490-525 | a rerun on unchanged data, in which no unit fails that had succeeded, leaves what it would have left alone: it makes up for failures, and changes nothing when there were none |
| `Analytics.MetricsStore.RollupFamily` | app/workers/analytics.py:101-129 | a family may raise before, between or after its writes; its rows are all there, or what it wrote is undone and it is reported as failed |
| `Analytics.MetricsStore.RollupDailyMetrics` | app/workers/analytics.py:70-98 | the three nested loops are the rollup of every organization, of its last two completed local days and of all five families, by exactly the units that did not fail |
| `RateLimit.Redis.CheckAndIncrement` | app/services/chat_rate_limit.py:48-78 | counts the call in its session's hour, sets the expiry once, and accepts exactly when the counter is within the limit |
| `RateLimit.CountersFaithful` | app/services/chat_rate_limit.py:62-71 | the 3700-second expiry cannot fire inside the counter's own hour: after any calls a used counter holds all its hour's calls |
| `RateLimit.ExpirySetOnce` | app/services/chat_rate_limit.py:65-70 | a counter expires 3700 seconds after its first call, whatever calls follow |
| `RateLimit.AcceptedIff` | app/services/chat_rate_limit.py:62-78 | each session has exactly the first `limit` calls of each epoch hour accepted |
| `RateLimit.AnyHourBounded` | app/services/chat_rate_limit.py:62-78 | any 3600-second window accepts at most twice the limit |
| `WhatsApp.Inbox.FindExisting` | app/services/whatsapp_ingestion.py:120-133 | the sender's session with the latest activity, none exactly when there is none |
| `WhatsApp.Inbox.IngestInboundMessage` | app/services/whatsapp_ingestion.py:136-246 | the session table and the outcome of one message, branch by branch |
| `WhatsApp.OutcomeIs` | app/services/whatsapp_ingestion.py:150-246 | a text of a known sender goes to the latest session if that is escalated or active and not idle for more than a day, else to a new one; a remembered id is a replay; else an escalated session's ticket takes it or raises, and in any other the bot answers unless the rate limit is used up |
| `WhatsApp.RowsAfter` | app/services/whatsapp_ingestion.py:188-217 | a message taken in leaves its id among the last 50 and its time on its session, or a new session with both; no other session changes |
| `WhatsApp.Inbox.ReceiveWebhook` | app/api/v1/webhooks_whatsapp.py:117-166 | all messages of a request are committed in order, or none when one raises |
| `WhatsApp.BatchRuns` | app/api/v1/webhooks_whatsapp.py:117-166 | a request runs its messages in order up to the first that raises; it leaves the last state when none does, and nothing when one does |
| `WhatsApp.CapKeepsNewest` | app/services/channel_metadata.py:31-37 | appending keeps the newest `cap` items if and only if the cap is positive |
| `WhatsApp.CappedRefinesHistory` | app/services/channel_metadata.py:31-37 | appending to the trimmed list is trimming the appended history |
| `WhatsApp.BufferIsRecentHistory` | app/services/whatsapp_ingestion.py:176-217 | in every run a session's buffer is the last 50 ids it recorded, and equal ids were recorded more than 50 places apart |
| `WhatsApp.BufferBounded` | app/services/whatsapp_ingestion.py:176-217 | the buffers are duplicate-free with at most 50 entries |
| `WhatsApp.ReplayedIff` | app/services/whatsapp_ingestion.py:176-194 | after any run a message is REPLAYED exactly when its id is among the last 50 recorded by the session it reuses |
| `WhatsApp.RedeliveredIff` | app/services/whatsapp_ingestion.py:176-217 | after any run, a message last recorded on a session at some point of the log is replayed there if and only if it reuses that session and the session recorded fewer than 50 ids since |
| `WhatsApp.EscalatedSenderStays` | app/services/whatsapp_ingestion.py:176-246 | through any batch of messages in order of time, none of them before the session's last activity, a sender whose latest session is escalated stays on it: no message of theirs reaches the bot or opens another session |
| `WhatsApp.RedeliveryReplayed` | app/services/whatsapp_ingestion.py:176-240 | a message taken in, even one dropped by the rate limit, is a replay without effect when delivered again at once and within the idle window, if the sender's sessions were all last active strictly before it |
| `MacroF1.ComputeMacroF1` | scripts/evaluate_classifier.py:50-102 | the mean F1 score over the labels that occur, none skipped; 0 for empty lists and the error exactly for different lengths |
| `MacroF1.OccurringLabelCounts` | scripts/evaluate_classifier.py:70-81 | a label occurs exactly when one of its three counts is positive, so the skip branch is never taken |
| `MacroF1.CountIs` | scripts/evaluate_classifier.py:70-79 | each count is the number of samples with the true label or not and the predicted label or not |
| `MacroF1.ScoreClosed` | scripts/evaluate_classifier.py:83-98 | the precision and recall form equals 2tp / (2tp + fp + fn) |
| `MacroF1.MacroRange` | scripts/evaluate_classifier.py:50-102 | the score lies in [0, 1] and is 1 exactly on non-empty lists that agree everywhere |
| `MacroF1.PermutationInvariant` | scripts/evaluate_classifier.py:50-102 | permuting the samples does not change the score |
| `MacroF1.RenamingInvariant` | scripts/evaluate_classifier.py:50-102 | renaming the labels injectively does not change the score |
| `MacroF1.EnumerationSum` | scripts/evaluate_classifier.py:64-102 | the order in which the labels are visited does not matter |

## Left out

- SlaDue.ComputeSlaDueAt: promises the exact instant only where no midnight and no window edge lies strictly inside a skipped or repeated hour of the zone, because elsewhere it can be wrong; `SlaTransitions.ExactIffAllSafe` says exactly when, for window edges.
- SlaTransitions.ExactIffAllSafe: zones with finitely many offset changes, at least ten days apart, whose skipped or repeated stretches hold no midnight strictly inside.
- BusinessHours.ExactIffAscending: assumes that the zone passes the midnights and edges once and that no window loses its whole length to a skipped hour.
- SuggestionCache.SuggestionsSeparated: is the case of keys in insertion order; `created_at` is the transaction's start, and for arbitrary keys `SuggestionCache.SeparatedIffFits` is the exact condition.
- Chunking.ChunkDocument: bounds the per-unit token sums that the code adds up; the recount of the joined text is not bounded by `max_tokens`.
- Chunking.DocumentUnitsFitIff: the tokenizer is an arbitrary pair of functions, so whether a given piece grows when it is encoded again is left to its condition; decoded pieces of a hard split rejoin at token level only.
- RefreshTokens.FamilyInvariant: random tokens and family ids are taken to be new; password rehashing is not modelled, accepting an invite is an activation followed by a login, and requests follow one another.
- EmailThreading.NormalizeSubject: case folding is for ASCII letters only.
- EmailIngestion.RedeliveryChangesNothing: is about sequential deliveries; owners are excluded because they cannot see the ticket they created, as `EmailIngestion.SenderSeesTicket` states; a contract's tenant and owner stay the same during a run.
- EmailIngestion.Mailbox.IngestInboundEmail: whether the ticket or message service raises is an input of each delivery; the address of an unknown organization or of a user of another one changes nothing and is not modelled.
- Analytics.DaysTile: assumes that the zone passes every midnight exactly once.
- SlaMonitor.Session.ProcessTicket: a database failure may interrupt it between any two writes to different tables; the 0.8 warning fraction is the exact 4/5.
- TicketLifecycle.ClassifiedOnce: does not say that the worker leaves a person's taxonomy alone; creation with taxonomy and `update_ticket` leave the ticket PENDING, and a later job overwrites them.
- WhatsApp.Inbox.FindExisting: among sessions with the same latest activity the database's choice is open, here it is the first row; the sender lookup, the ticket thread and the rate limiter enter as inputs of each message.
- TicketRaces.EventsCounted: overlapping requests change the status only; each is one transaction that writes at once, under READ COMMITTED, with columns compared to what it loaded.
- MacroF1.ComputeMacroF1: exact arithmetic instead of floating point; labels are visited in order of first appearance, which `MacroF1.EnumerationSum` shows to be the same as sorted order.
- Concurrency of e-mail deliveries, and of logout with refresh on another row of the family: not serialized by the code.
- API routers, request schemas, migrations and app wiring.
- Calls to language models, the embedder, SMTP, the WhatsApp API, object storage and metrics: their results are arbitrary inputs.
- Password hashing, JWT, encryption and webhook signatures.
- Vector similarity search and the prompts built from its results.
- The database of time zones: zones are abstract, with constant offsets and finite lists of changes worked out.
- Categories, properties, contracts, users and the other plain record-keeping services.
- The analytics families other than ticket counts, and the overview queries.
