/**
  The AI-suggestion cache of `suggest_response` as a concurrent protocol: any number of requests, each going
  through an unlocked check, the ticket's row lock, a second check, generation, and insert-and-commit, interleaved
  statement by statement with messages that people post without any lock.

  A message row is known to the two cache queries only through its sort key `(created_at, id)`, here an integer.
 */
module SuggestionCache {
  import opened Wrappers
  import Separation

  type TicketId = int
  type RequestId = int

  /** Committed rows of one ticket: sort keys of the AI suggestions and of all other messages. */
  datatype Thread = Thread(suggestions: set<int>, others: set<int>)

  datatype Phase =
    | Started                          // transaction open, nothing read
    | Looked(latest: Option<int>)      // unlocked `_latest_suggestion` has answered
    | Missed                           // waiting for the row lock
    | Locked                           // row lock held
    | LookedAgain(latest: Option<int>) // `_latest_suggestion` has answered under the lock
    | Generating                       // cache miss confirmed under the lock
    | Finished(returned: Option<int>)  // a suggestion, or nothing (ungrounded, or failed and rolled back)

  datatype Request = Request(ticket: TicketId, began: int, phase: Phase)

  datatype State = State(threads: map<TicketId, Thread>, locks: map<TicketId, RequestId>,
                         requests: map<RequestId, Request>)

  datatype Step =
    | Begin(r: RequestId, ticket: TicketId, began: int)
    | Look(r: RequestId, latest: Option<int>)
    | Judge(r: RequestId)
    | Acquire(r: RequestId)
    | LookAgain(r: RequestId, latest: Option<int>)
    | JudgeAgain(r: RequestId)
    | GiveUp(r: RequestId)
    | Insert(r: RequestId, key: int)
    | Post(ticket: TicketId, key: int)

  // --- the two queries ---

  /** `_latest_suggestion`: the AI row with the greatest key. */
  ghost predicate IsLatest(th: Thread, latest: Option<int>) {
    match latest
    case None => th.suggestions == {}
    case Some(m) => m in th.suggestions && forall a :: a in th.suggestions ==> a <= m
  }

  /** `_is_fresh`: no other message sorts after the suggestion. */
  ghost predicate IsFresh(th: Thread, m: int) {
    forall h :: h in th.others ==> h <= m
  }

  // --- one step ---

  ghost function ThreadOf(s: State, t: TicketId): Thread {
    if t in s.threads then s.threads[t] else Thread({}, {})
  }

  predicate InPhase(s: State, r: RequestId, p: Phase) {
    r in s.requests && s.requests[r].phase == p
  }

  predicate HoldsLockPhase(p: Phase) { p.Locked? || p.LookedAgain? || p.Generating? }

  ghost predicate Enabled(s: State, step: Step) {
    match step
    case Begin(r, _, _) => r !in s.requests
    case Look(r, latest) => InPhase(s, r, Started) && IsLatest(ThreadOf(s, s.requests[r].ticket), latest)
    case Judge(r) => r in s.requests && s.requests[r].phase.Looked?
    case Acquire(r) => InPhase(s, r, Missed) && s.requests[r].ticket !in s.locks
    case LookAgain(r, latest) => InPhase(s, r, Locked) && IsLatest(ThreadOf(s, s.requests[r].ticket), latest)
    case JudgeAgain(r) => r in s.requests && s.requests[r].phase.LookedAgain?
    case GiveUp(r) => r in s.requests && !s.requests[r].phase.Finished?
    case Insert(r, key) => InPhase(s, r, Generating) && NewKey(ThreadOf(s, s.requests[r].ticket), key)
    case Post(t, key) => NewKey(ThreadOf(s, t), key)
  }

  predicate NewKey(th: Thread, key: int) { key !in th.suggestions && key !in th.others }

  function Goto(s: State, r: RequestId, p: Phase): State
    requires r in s.requests
  {
    s.(requests := s.requests[r := s.requests[r].(phase := p)])
  }

  /** End of the transaction: the row lock, if held, is released. */
  function Finish(s: State, r: RequestId, returned: Option<int>): State
    requires r in s.requests
  {
    var t := s.requests[r].ticket;
    var s' := Goto(s, r, Finished(returned));
    if HoldsLockPhase(s.requests[r].phase) then s'.(locks := s.locks - {t}) else s'
  }

  ghost function Apply(s: State, step: Step): State
    requires Enabled(s, step)
  {
    match step
    case Begin(r, t, began) => s.(requests := s.requests[r := Request(t, began, Started)])
    case Look(r, latest) => Goto(s, r, Looked(latest))
    case Judge(r) =>
      var q := s.requests[r];
      if q.phase.latest.Some? && IsFresh(ThreadOf(s, q.ticket), q.phase.latest.value)
      then Finish(s, r, q.phase.latest) else Goto(s, r, Missed)
    case Acquire(r) => Goto(s, r, Locked).(locks := s.locks[s.requests[r].ticket := r])
    case LookAgain(r, latest) => Goto(s, r, LookedAgain(latest))
    case JudgeAgain(r) =>
      var q := s.requests[r];
      if q.phase.latest.Some? && IsFresh(ThreadOf(s, q.ticket), q.phase.latest.value)
      then Finish(s, r, q.phase.latest) else Goto(s, r, Generating)
    case GiveUp(r) => Finish(s, r, None)
    case Insert(r, key) =>
      var t := s.requests[r].ticket;
      var th := ThreadOf(s, t);
      Finish(s, r, Some(key)).(threads := s.threads[t := th.(suggestions := th.suggestions + {key})])
    case Post(t, key) =>
      var th := ThreadOf(s, t);
      s.(threads := s.threads[t := th.(others := th.others + {key})])
  }

  // --- runs ---

  const INIT := State(map[], map[], map[])

  ghost predicate IsRun(states: seq<State>, steps: seq<Step>) {
    && |states| == |steps| + 1
    && states[0] == INIT
    && forall i :: 0 <= i < |steps| ==> Enabled(states[i], steps[i]) && states[i + 1] == Apply(states[i], steps[i])
  }

  /** Between any two suggestions there is a message that is not one. */
  ghost predicate Separated(th: Thread) { Separation.Separates(th.others, th.suggestions) }

  // --- what the lock and the second check give, whatever keys the rows get ---

  /** A cache miss confirmed under the lock stays true: the newest suggestion is older than some other message. */
  ghost predicate Stale(th: Thread) {
    forall m :: IsLatest(th, Some(m)) ==> !IsFresh(th, m)
  }

  ghost predicate RequestOk(s: State, r: RequestId)
    requires r in s.requests
  {
    var q := s.requests[r];
    var th := ThreadOf(s, q.ticket);
    && (HoldsLockPhase(q.phase) ==> q.ticket in s.locks && s.locks[q.ticket] == r)
    && (q.phase.LookedAgain? ==> IsLatest(th, q.phase.latest))
    && (q.phase.Generating? ==> Stale(th))
    && (q.phase.Looked? && q.phase.latest.Some? ==> q.phase.latest.value in th.suggestions)
    && (q.phase.Finished? && q.phase.returned.Some? ==> q.phase.returned.value in th.suggestions)
  }

  ghost predicate Inv(s: State) { forall r :: r in s.requests ==> RequestOk(s, r) }

  lemma PostKeeps(s: State, t: TicketId, key: int)
    requires Inv(s) && Enabled(s, Post(t, key))
    ensures Inv(Apply(s, Post(t, key)))
  {
    var s' := Apply(s, Post(t, key));
    forall r | r in s'.requests ensures RequestOk(s', r) {
      assert RequestOk(s, r);
      if s.requests[r].ticket == t && s.requests[r].phase.Generating? {
        forall m | IsLatest(ThreadOf(s', t), Some(m)) ensures !IsFresh(ThreadOf(s', t), m) {
          assert IsLatest(ThreadOf(s, t), Some(m));
        }
      }
    }
  }

  lemma InsertKeeps(s: State, r: RequestId, key: int)
    requires Inv(s) && Enabled(s, Insert(r, key))
    ensures Inv(Apply(s, Insert(r, key)))
  {
    var s' := Apply(s, Insert(r, key));
    var t := s.requests[r].ticket;
    assert RequestOk(s, r);
    forall q | q in s'.requests ensures RequestOk(s', q) {
      assert RequestOk(s, q);
      assert q != r && s.requests[q].ticket == t ==> !HoldsLockPhase(s.requests[q].phase);
      hide IsLatest, Stale;
    }
  }

  /** A step that moves one request and writes no message. */
  lemma MoveKeeps(s: State, step: Step)
    requires Inv(s) && Enabled(s, step) && !step.Insert? && !step.Post?
    ensures Inv(Apply(s, step))
  {
    var s' := Apply(s, step);
    assert s'.threads == s.threads;
    forall q | q in s'.requests ensures RequestOk(s', q) {
      assert ThreadOf(s', s'.requests[q].ticket) == ThreadOf(s, s'.requests[q].ticket);
      if q in s.requests { assert RequestOk(s, q); }
      if q == step.r {
        if q in s.requests && step.JudgeAgain? {
          assert s'.requests[q].phase.Generating? ==> Stale(ThreadOf(s, s.requests[q].ticket));
        }
        hide Stale, IsFresh, ThreadOf;
      } else {
        if step.r in s.requests { assert RequestOk(s, step.r); }
        hide IsLatest, IsFresh, Stale, ThreadOf;
      }
    }
  }

  lemma StepKeeps(s: State, step: Step)
    requires Inv(s) && Enabled(s, step)
    ensures Inv(Apply(s, step))
  {
    hide Inv;
    if step.Post? {
      PostKeeps(s, step.ticket, step.key);
    } else if step.Insert? {
      InsertKeeps(s, step.r, step.key);
    } else {
      MoveKeeps(s, step);
    }
  }

  lemma {:induction false} RunKeeps(states: seq<State>, steps: seq<Step>, i: nat)
    requires IsRun(states, steps) && i < |states|
    ensures Inv(states[i])
  {
    if i > 0 {
      RunKeeps(states, steps, i - 1);
      StepKeeps(states[i - 1], steps[i - 1]);
    }
  }

  predicate GeneratingFor(s: State, r: RequestId, t: TicketId) {
    InPhase(s, r, Generating) && s.requests[r].ticket == t
  }

  /**
    In every state of every interleaving at most one request per ticket is generating, it does so only while the newest
    suggestion is outdated, and every suggestion handed out is a stored one.
   */
  lemma OneGenerator(states: seq<State>, steps: seq<Step>, i: nat, t: TicketId, q: RequestId, r: RequestId)
    requires IsRun(states, steps) && i < |states|
    ensures GeneratingFor(states[i], q, t) && GeneratingFor(states[i], r, t) ==> q == r
    ensures GeneratingFor(states[i], r, t) ==> Stale(ThreadOf(states[i], t))
    ensures forall k :: r in states[i].requests && states[i].requests[r].phase == Finished(Some(k)) ==>
              k in ThreadOf(states[i], states[i].requests[r].ticket).suggestions
  {
    RunKeeps(states, steps, i);
    if q in states[i].requests { assert RequestOk(states[i], q); }
    if r in states[i].requests { assert RequestOk(states[i], r); }
  }

  // --- what a request is handed ---

  /** The step that request `r` takes itself. */
  predicate IsOwn(step: Step, r: RequestId) { !step.Post? && step.r == r }

  predicate Running(s: State, r: RequestId) { r in s.requests && !s.requests[r].phase.Finished? }

  /** Request `r` has just been judged to have looked up suggestion `k`, and nothing came after that. */
  ghost predicate FreshHit(s: State, step: Step, r: RequestId, k: int) {
    && (step == Judge(r) || step == JudgeAgain(r))
    && r in s.requests
    && var th := ThreadOf(s, s.requests[r].ticket);
    && k in th.suggestions && (forall h :: h in th.others ==> h <= k)
    && (step.JudgeAgain? ==> forall a :: a in th.suggestions ==> a <= k)
  }

  /**
    Whatever the interleaving, a request ends in exactly three ways: it gives up with nothing, it inserts a suggestion
    and is handed that one, or it is handed a stored suggestion that no other message follows, under the lock the
    newest.
   */
  lemma FinishedHow(states: seq<State>, steps: seq<Step>, i: nat, r: RequestId, v: Option<int>)
    requires IsRun(states, steps) && i < |steps|
    requires InPhase(states[i + 1], r, Finished(v)) && !InPhase(states[i], r, Finished(v))
    ensures Running(states[i], r)
    ensures || (steps[i] == GiveUp(r) && v == None)
            || (v.Some? && steps[i] == Insert(r, v.value))
            || (v.Some? && FreshHit(states[i], steps[i], r, v.value))
  {
    RunKeeps(states, steps, i);
    var s := states[i];
    if IsOwn(steps[i], r) {
      if r in s.requests { assert RequestOk(s, r); }
    } else if r in s.requests {
      OthersLeftAlone(s, steps[i], r);
    }
    hide IsRun, Inv, Stale;
  }

  lemma OthersLeftAlone(s: State, step: Step, r: RequestId)
    requires Enabled(s, step) && !IsOwn(step, r) && r in s.requests
    ensures r in Apply(s, step).requests && Apply(s, step).requests[r] == s.requests[r]
  {
    hide IsLatest, IsFresh, ThreadOf;
  }

  lemma {:induction false} LeftAlone(states: seq<State>, steps: seq<Step>, m: nat, n: nat, r: RequestId)
    requires IsRun(states, steps) && m <= n < |states| && r in states[m].requests
    requires forall i :: m <= i < n ==> !IsOwn(steps[i], r)
    ensures r in states[n].requests && states[n].requests[r] == states[m].requests[r]
  {
    if m < n {
      LeftAlone(states, steps, m, n - 1, r);
      OthersLeftAlone(states[n - 1], steps[n - 1], r);
      hide IsOwn, Apply, Enabled;
    }
  }

  /** What the lookup of request `r` has found. */
  predicate LooksUp(step: Step, r: RequestId, latest: Option<int>) {
    step == Look(r, latest) || step == LookAgain(r, latest)
  }

  /**
    A request that has looked up a suggestion is handed it at its next step but giving up, if and only if no other
    message follows it by then; else it goes on, to the lock or, with the lock, to the generator. So it does without a
    suggestion.
   */
  lemma HandedWhatItLookedUp(states: seq<State>, steps: seq<Step>, m: nat, n: nat, r: RequestId, latest: Option<int>)
    requires IsRun(states, steps) && m < n < |steps| && LooksUp(steps[m], r, latest)
    requires forall i :: m < i < n ==> !IsOwn(steps[i], r)
    requires IsOwn(steps[n], r) && !steps[n].GiveUp?
    ensures steps[n] == if steps[m].Look? then Judge(r) else JudgeAgain(r)
    ensures var others := ThreadOf(states[n], states[n].requests[r].ticket).others;
      states[n + 1].requests[r].phase
      == if latest.Some? && (forall h :: h in others ==> h <= latest.value) then Finished(latest)
         else if steps[m].Look? then Missed else Generating
  {
    assert states[m + 1] == Apply(states[m], steps[m]) && Enabled(states[m], steps[m]);
    LeftAlone(states, steps, m + 1, n, r);
    assert states[n + 1] == Apply(states[n], steps[n]) && Enabled(states[n], steps[n]);
    hide IsRun;
  }

  /** A lookup finds the suggestion with the greatest key, or nothing when there is none. */
  lemma LookupFindsNewest(states: seq<State>, steps: seq<Step>, m: nat, r: RequestId, latest: Option<int>)
    requires IsRun(states, steps) && m < |steps| && LooksUp(steps[m], r, latest)
    ensures r in states[m].requests
    ensures var suggestions := ThreadOf(states[m], states[m].requests[r].ticket).suggestions;
      if latest.Some? then latest.value in suggestions && forall a :: a in suggestions ==> a <= latest.value
      else suggestions == {}
  {
    assert Enabled(states[m], steps[m]);
  }

  // --- where rows, requests and locks come from ---

  /** Step `i` stores `key` in the thread of ticket `t`, as a suggestion or as another message. */
  predicate Stores(states: seq<State>, steps: seq<Step>, i: nat, t: TicketId, key: int, suggestion: bool)
    requires i < |steps| && i < |states|
  {
    if suggestion
    then steps[i].Insert? && steps[i].key == key
         && steps[i].r in states[i].requests && states[i].requests[steps[i].r].ticket == t
    else steps[i] == Post(t, key)
  }

  function Keys(th: Thread, suggestion: bool): set<int> { if suggestion then th.suggestions else th.others }

  /** The rows of a ticket are exactly those that insertions for it and posts on it have stored. */
  lemma {:induction false} RowsStored(states: seq<State>, steps: seq<Step>, n: nat, t: TicketId, key: int, b: bool)
    requires IsRun(states, steps) && n < |states|
    ensures key in Keys(ThreadOf(states[n], t), b) <==> exists i :: 0 <= i < n && Stores(states, steps, i, t, key, b)
  {
    if n > 0 {
      RowsStored(states, steps, n - 1, t, key, b);
      assert states[n] == Apply(states[n - 1], steps[n - 1]) && Enabled(states[n - 1], steps[n - 1]);
      RowStored(states[n - 1], steps[n - 1], t, key, b);
      hide Apply, IsRun, Keys, ThreadOf;
      if Stores(states, steps, n - 1, t, key, b) { assert 0 <= n - 1 < n; }
    }
  }

  lemma RowStored(s: State, step: Step, t: TicketId, key: int, b: bool)
    requires Enabled(s, step)
    ensures key in Keys(ThreadOf(Apply(s, step), t), b)
            <==> key in Keys(ThreadOf(s, t), b) || Stores([s], [step], 0, t, key, b)
  {
    hide IsLatest, IsFresh;
  }

  /** No row is both. */
  lemma {:induction false} RowsDistinct(states: seq<State>, steps: seq<Step>, n: nat, t: TicketId)
    requires IsRun(states, steps) && n < |states|
    ensures ThreadOf(states[n], t).suggestions !! ThreadOf(states[n], t).others
  {
    if n > 0 {
      RowsDistinct(states, steps, n - 1, t);
      assert states[n] == Apply(states[n - 1], steps[n - 1]) && Enabled(states[n - 1], steps[n - 1]);
      hide IsRun, IsLatest, IsFresh;
    }
  }

  lemma RequestKept(s: State, step: Step, r: RequestId)
    requires Enabled(s, step) && r in Apply(s, step).requests
    ensures var q := Apply(s, step).requests[r];
      if r in s.requests then q.ticket == s.requests[r].ticket && q.began == s.requests[r].began
      else step == Begin(r, q.ticket, q.began)
  {
    hide IsLatest, IsFresh, ThreadOf;
  }

  /** A request is for the ticket, and of the time, with which it began. */
  lemma {:induction false} RequestsBegan(states: seq<State>, steps: seq<Step>, n: nat, r: RequestId) returns (i: nat)
    requires IsRun(states, steps) && n < |states| && r in states[n].requests
    ensures i < n && steps[i] == Begin(r, states[n].requests[r].ticket, states[n].requests[r].began)
  {
    assert n > 0;
    assert states[n] == Apply(states[n - 1], steps[n - 1]) && Enabled(states[n - 1], steps[n - 1]);
    RequestKept(states[n - 1], steps[n - 1], r);
    hide Apply, Enabled;
    if r in states[n - 1].requests {
      i := RequestsBegan(states, steps, n - 1, r);
    } else {
      i := n - 1;
    }
  }

  /** A ticket is locked by exactly the request for it that is between taking the lock and its end. */
  ghost predicate LocksHeld(s: State) {
    forall t, r :: t in s.locks && s.locks[t] == r
                   <==> r in s.requests && s.requests[r].ticket == t && HoldsLockPhase(s.requests[r].phase)
  }

  lemma LocksKept(s: State, step: Step)
    requires LocksHeld(s) && Enabled(s, step)
    ensures LocksHeld(Apply(s, step))
  {
    hide IsLatest, IsFresh, ThreadOf;
    if !step.Begin? && !step.Post? {
      var t := s.requests[step.r].ticket;
      assert t in s.locks && s.locks[t] == step.r <==> HoldsLockPhase(s.requests[step.r].phase);
    }
  }

  lemma {:induction false} LockReleased(states: seq<State>, steps: seq<Step>, n: nat)
    requires IsRun(states, steps) && n < |states|
    ensures LocksHeld(states[n])
  {
    if n > 0 {
      LockReleased(states, steps, n - 1);
      LocksKept(states[n - 1], steps[n - 1]);
    }
  }

  // --- when suggestions stay separated ---

  /** `a` is the suggestion next to `key`, on its older or on its newer side. */
  ghost predicate Neighbour(th: Thread, key: int, a: int) {
    a in th.suggestions && a != key && forall b :: b in th.suggestions ==> !(a < b < key) && !(key < b < a)
  }

  /** Another message lies between `key` and the nearest suggestion on either side. */
  ghost predicate Fits(th: Thread, key: int) {
    forall a :: Neighbour(th, key, a) ==> exists h :: h in th.others && (a < h < key || key < h < a)
  }

  function WithSuggestion(th: Thread, key: int): Thread { th.(suggestions := th.suggestions + {key}) }

  lemma NeighbourBelow(th: Thread, key: int, a: int) returns (n: int)
    requires a in th.suggestions && a < key
    ensures Neighbour(th, key, n) && a <= n < key
  {
    var older := set b | b in th.suggestions && b < key;
    assert a in older && |older| > 0;
    n := Separation.Greatest(older);
    forall b | b in th.suggestions ensures !(n < b < key) { if b < key { assert b in older; } }
  }

  lemma NeighbourAbove(th: Thread, key: int, a: int) returns (n: int)
    requires a in th.suggestions && key < a
    ensures Neighbour(th, key, n) && key < n <= a
  {
    var newer := set b | b in th.suggestions && key < b;
    assert a in newer && |newer| > 0;
    n := Separation.Least(newer);
    forall b | b in th.suggestions ensures !(key < b < n) { if key < b { assert b in newer; } }
  }

  /** A new suggestion leaves a separated thread separated exactly when it fits. */
  lemma InsertSeparatedIff(th: Thread, key: int)
    requires Separated(th) && key !in th.suggestions
    ensures Separated(WithSuggestion(th, key)) <==> Fits(th, key)
  {
    var keys := th.suggestions + {key};
    if Fits(th, key) {
      forall a, b | a in keys && b in keys && a < b ensures exists h :: h in th.others && a < h < b {
        if b == key {
          var n := NeighbourBelow(th, key, a);
          var h :| h in th.others && (n < h < key || key < h < n);
          assert a < h < b;
        } else if a == key {
          var n := NeighbourAbove(th, key, b);
          var h :| h in th.others && (n < h < key || key < h < n);
          assert a < h < b;
        }
      }
    }
    if Separated(WithSuggestion(th, key)) {
      forall a | Neighbour(th, key, a) ensures exists h :: h in th.others && (a < h < key || key < h < a) {
        var lo, hi := if a < key then a else key, if a < key then key else a;
        assert lo in keys && hi in keys;
        var h :| h in th.others && lo < h < hi;
      }
    }
  }

  /** When the new suggestion is the newest, only the latest one before it counts. */
  lemma NewestSeparatedIff(th: Thread, key: int, m: int)
    requires Separated(th) && IsLatest(th, Some(m)) && m < key
    ensures Separated(WithSuggestion(th, key)) <==> exists h :: h in th.others && m < h < key
  {
    InsertSeparatedIff(th, key);
    assert Neighbour(th, key, m);
    assert forall a :: Neighbour(th, key, a) ==> a == m;
  }

  ghost predicate InsertFits(s: State, step: Step) {
    step.Insert? && step.r in s.requests ==> Fits(ThreadOf(s, s.requests[step.r].ticket), step.key)
  }

  ghost predicate AllSeparated(s: State) { forall t :: Separated(ThreadOf(s, t)) }

  lemma StepSeparatedIff(s: State, step: Step)
    requires Enabled(s, step) && AllSeparated(s)
    ensures AllSeparated(Apply(s, step)) <==> InsertFits(s, step)
  {
    var s' := Apply(s, step);
    if step.Insert? {
      var t := s.requests[step.r].ticket;
      assert Separated(ThreadOf(s, t));
      InsertSeparatedIff(ThreadOf(s, t), step.key);
      assert ThreadOf(s', t) == WithSuggestion(ThreadOf(s, t), step.key);
      assert forall u :: u != t ==> ThreadOf(s', u) == ThreadOf(s, u);
      hide Separated, Apply, Enabled;
    } else {
      forall t ensures Separated(ThreadOf(s', t)) {
        assert Separated(ThreadOf(s, t));
        assert ThreadOf(s', t).suggestions == ThreadOf(s, t).suggestions;
        assert ThreadOf(s, t).others <= ThreadOf(s', t).others;
      }
    }
  }

  lemma {:induction false} SeparatedUpTo(states: seq<State>, steps: seq<Step>, n: nat)
    requires IsRun(states, steps) && n < |states|
    ensures (forall i :: 0 <= i <= n ==> AllSeparated(states[i]))
            <==> (forall i :: 0 <= i < n ==> InsertFits(states[i], steps[i]))
  {
    hide InsertFits, AllSeparated;
    if n == 0 {
      assert AllSeparated(INIT) by { InitSeparated(); }
    } else {
      SeparatedUpTo(states, steps, n - 1);
      if AllSeparated(states[n - 1]) { StepSeparatedIff(states[n - 1], steps[n - 1]); }
      hide IsRun;
      assert (forall i :: 0 <= i <= n ==> AllSeparated(states[i]))
        <==> (forall i :: 0 <= i <= n - 1 ==> AllSeparated(states[i])) && AllSeparated(states[n]);
      assert (forall i :: 0 <= i < n ==> InsertFits(states[i], steps[i]))
        <==> (forall i :: 0 <= i < n - 1 ==> InsertFits(states[i], steps[i]))
             && InsertFits(states[n - 1], steps[n - 1]);
    }
  }

  lemma InitSeparated()
    ensures AllSeparated(INIT)
  {
  }

  /**
    Over every interleaving and whatever keys the rows get: any two suggestions of any ticket have another message
    between them in all states, if and only if every suggestion fits where it is inserted.
   */
  lemma SeparatedIffFits(states: seq<State>, steps: seq<Step>)
    requires IsRun(states, steps)
    ensures (forall i :: 0 <= i < |states| ==> AllSeparated(states[i]))
            <==> (forall i :: 0 <= i < |steps| ==> InsertFits(states[i], steps[i]))
  {
    SeparatedUpTo(states, steps, |steps|);
    hide InsertFits, AllSeparated, IsRun;
  }

  // --- keys in insertion order ---

  /** A suggestion's key is greater than those of the messages present when it is inserted. */
  ghost predicate InsertsInOrder(states: seq<State>, steps: seq<Step>)
    requires |states| == |steps| + 1
  {
    forall i :: 0 <= i < |steps| && steps[i].Insert? && steps[i].r in states[i].requests ==>
      Greatest(ThreadOf(states[i], states[i].requests[steps[i].r].ticket), steps[i].key)
  }

  ghost predicate Greatest(th: Thread, key: int) {
    (forall m :: m in th.suggestions ==> m < key) && (forall m :: m in th.others ==> m < key)
  }

  /** A suggestion added to a stale thread under the greatest key fits. */
  lemma GreatestFits(th: Thread, key: int)
    requires Stale(th) && Greatest(th, key)
    ensures Fits(th, key)
  {
    forall a | Neighbour(th, key, a) ensures exists h :: h in th.others && (a < h < key || key < h < a) {
      assert IsLatest(th, Some(a));
      var h :| h in th.others && h > a;
      assert a < h < key;
    }
  }

  /**
    With keys in insertion order the protocol makes every suggestion fit: in every state of every such interleaving the
    suggestions of a ticket are separated, and at most one more than its other messages.
   */
  lemma SuggestionsSeparated(states: seq<State>, steps: seq<Step>, i: nat, t: TicketId)
    requires IsRun(states, steps) && InsertsInOrder(states, steps) && i < |states|
    ensures Separated(ThreadOf(states[i], t))
    ensures |ThreadOf(states[i], t).suggestions| <= |ThreadOf(states[i], t).others| + 1
  {
    forall k | 0 <= k < |steps| ensures InsertFits(states[k], steps[k]) {
      if steps[k].Insert? && steps[k].r in states[k].requests {
        RunKeeps(states, steps, k);
        assert RequestOk(states[k], steps[k].r);
        GreatestFits(ThreadOf(states[k], states[k].requests[steps[k].r].ticket), steps[k].key);
      }
    }
    SeparatedIffFits(states, steps);
    hide IsRun, InsertsInOrder, InsertFits;
    assert AllSeparated(states[i]);
    Separation.SeparatedCount(ThreadOf(states[i], t).suggestions, ThreadOf(states[i], t).others);
  }

  // --- keys as the database stamps them ---

  /** `created_at` is the start of the inserting transaction. */
  predicate StampedAtStart(s: State, step: Step) {
    step.Insert? && step.r in s.requests ==> step.key == s.requests[step.r].began
  }

  ghost predicate InsertsAtStart(states: seq<State>, steps: seq<Step>)
    requires |states| == |steps| + 1
  {
    forall i :: 0 <= i < |steps| ==> StampedAtStart(states[i], steps[i])
  }

  /**
    With transaction-start stamps, a request that began after the latest suggestion keeps the thread separated exactly
    when the message that outdated that suggestion was there before the request began; there always is such a message,
    but it may have come later.
   */
  lemma StampedSeparatedIff(states: seq<State>, steps: seq<Step>, i: nat, t: TicketId, m: int)
    requires IsRun(states, steps) && InsertsAtStart(states, steps)
    requires i < |steps| && steps[i].Insert? && states[i].requests[steps[i].r].ticket == t
    requires Separated(ThreadOf(states[i], t)) && IsLatest(ThreadOf(states[i], t), Some(m))
    requires m < states[i].requests[steps[i].r].began
    ensures exists h :: h in ThreadOf(states[i], t).others && m < h
    ensures Separated(ThreadOf(states[i + 1], t))
            <==> exists h :: h in ThreadOf(states[i], t).others && m < h < states[i].requests[steps[i].r].began
  {
    RunKeeps(states, steps, i);
    assert RequestOk(states[i], steps[i].r);
    assert StampedAtStart(states[i], steps[i]);
    NewestSeparatedIff(ThreadOf(states[i], t), steps[i].key, m);
    assert ThreadOf(states[i + 1], t) == WithSuggestion(ThreadOf(states[i], t), steps[i].key);
  }

  /** A sequence of stamped steps from `s` to `s'`. */
  ghost predicate Path(s: State, steps: seq<Step>, s': State)
    decreases |steps|
  {
    if steps == [] then s == s'
    else Enabled(s, steps[0]) && StampedAtStart(s, steps[0]) && Path(Apply(s, steps[0]), steps[1..], s')
  }

  lemma {:induction false} PathJoin(a: State, p: seq<Step>, b: State, q: seq<Step>, c: State)
    requires Path(a, p, b) && Path(b, q, c)
    ensures Path(a, p + q, c)
    decreases |p|
  {
    if p == [] {
      assert p + q == q;
    } else {
      assert (p + q)[1..] == p[1..] + q;
      PathJoin(Apply(a, p[0]), p[1..], b, q, c);
    }
  }

  lemma {:induction false} StatesOf(s: State, steps: seq<Step>, s': State) returns (states: seq<State>)
    requires Path(s, steps, s')
    ensures |states| == |steps| + 1 && states[0] == s && states[|steps|] == s'
    ensures forall i :: 0 <= i < |steps| ==> Enabled(states[i], steps[i]) && states[i + 1] == Apply(states[i], steps[i])
    ensures forall i :: 0 <= i < |steps| ==> StampedAtStart(states[i], steps[i])
    decreases |steps|
  {
    if steps == [] {
      states := [s];
    } else {
      var rest := StatesOf(Apply(s, steps[0]), steps[1..], s');
      states := [s] + rest;
      forall i | 0 <= i < |steps|
        ensures Enabled(states[i], steps[i]) && states[i + 1] == Apply(states[i], steps[i])
        ensures StampedAtStart(states[i], steps[i])
      {
        if i > 0 { assert steps[i] == steps[1..][i - 1] && states[i] == rest[i - 1] && states[i + 1] == rest[i]; }
      }
    }
  }

  /** Some stamped steps lead from `s` to `s'`. */
  ghost predicate Leads(s: State, s': State) { exists steps :: Path(s, steps, s') }

  lemma LeadsOn(a: State, b: State, c: State)
    requires Leads(a, b) && Leads(b, c)
    ensures Leads(a, c)
  {
    var p :| Path(a, p, b);
    var q :| Path(b, q, c);
    PathJoin(a, p, b, q, c);
  }

  lemma LeadsByStep(s: State, step: Step)
    requires Enabled(s, step) && StampedAtStart(s, step)
    ensures Leads(s, Apply(s, step))
  {
    assert Path(Apply(s, step), [step][1..], Apply(s, step));
    assert Path(s, [step], Apply(s, step));
  }

  /** A request that finds no fresh suggestion goes on to wait for the lock. */
  lemma LookAndMiss(s: State, r: RequestId, latest: Option<int>)
    requires InPhase(s, r, Started) && IsLatest(ThreadOf(s, s.requests[r].ticket), latest)
    requires latest.Some? ==> !IsFresh(ThreadOf(s, s.requests[r].ticket), latest.value)
    ensures Leads(s, Goto(s, r, Missed))
  {
    var s1 := Apply(s, Look(r, latest));
    LeadsByStep(s, Look(r, latest));
    LeadsByStep(s1, Judge(r));
    assert Apply(s1, Judge(r)) == Goto(s, r, Missed);
    LeadsOn(s, s1, Goto(s, r, Missed));
  }

  function HoldingLock(s: State, r: RequestId, p: Phase): State
    requires r in s.requests
  {
    Goto(s, r, p).(locks := s.locks[s.requests[r].ticket := r])
  }

  /** With the lock free and no fresh suggestion, a waiting request locks the ticket and looks again in vain. */
  lemma LockAndMiss(s: State, r: RequestId, latest: Option<int>)
    requires InPhase(s, r, Missed) && s.requests[r].ticket !in s.locks
    requires IsLatest(ThreadOf(s, s.requests[r].ticket), latest)
    requires latest.Some? ==> !IsFresh(ThreadOf(s, s.requests[r].ticket), latest.value)
    ensures Leads(s, HoldingLock(s, r, Generating))
  {
    hide Leads, IsLatest, IsFresh;
    var s1, s2, s3 := HoldingLock(s, r, Locked), HoldingLock(s, r, LookedAgain(latest)), HoldingLock(s, r, Generating);
    LeadsByStep(s, Acquire(r));
    assert Apply(s1, LookAgain(r, latest)) == s2;
    LeadsByStep(s1, LookAgain(r, latest));
    assert Apply(s2, JudgeAgain(r)) == s3;
    LeadsByStep(s2, JudgeAgain(r));
    LeadsOn(s, s1, s2);
    LeadsOn(s, s2, s3);
  }

  /** It then inserts its own suggestion and is done. */
  lemma LockAndInsert(s: State, r: RequestId, t: TicketId, latest: Option<int>)
    requires InPhase(s, r, Missed) && s.requests[r].ticket == t && t !in s.locks
    requires IsLatest(ThreadOf(s, t), latest) && (latest.Some? ==> !IsFresh(ThreadOf(s, t), latest.value))
    requires NewKey(ThreadOf(s, t), s.requests[r].began)
    ensures var key := s.requests[r].began;
      Leads(s, Goto(s, r, Finished(Some(key))).(threads := s.threads[t := WithSuggestion(ThreadOf(s, t), key)]))
  {
    hide Leads, IsLatest, IsFresh;
    var key := s.requests[r].began;
    var s3 := HoldingLock(s, r, Generating);
    var s4 := Goto(s, r, Finished(Some(key))).(threads := s.threads[t := WithSuggestion(ThreadOf(s, t), key)]);
    LockAndMiss(s, r, latest);
    assert ThreadOf(s3, t) == ThreadOf(s, t);
    assert s3.locks - {t} == s.locks;
    assert Apply(s3, Insert(r, key)) == s4;
    LeadsByStep(s3, Insert(r, key));
    LeadsOn(s, s3, s4);
  }

  /** A state that stamped steps lead to is the end of a stamped run. */
  lemma RunTo(s: State) returns (states: seq<State>, steps: seq<Step>)
    requires Leads(INIT, s)
    ensures IsRun(states, steps) && InsertsAtStart(states, steps) && states[|steps|] == s
  {
    steps :| Path(INIT, steps, s);
    states := StatesOf(INIT, steps, s);
  }

  // --- one late request is enough to put two suggestions side by side ---

  /** Ticket 7 with a finished first request. */
  function AfterFirst(a: int): State {
    State(map[7 := Thread({a}, {})], map[], map[1 := Request(7, a, Finished(Some(a)))])
  }

  function SecondPosted(a: int, b: int, h: int, p: Phase): State {
    State(map[7 := Thread({a}, {h})], map[], AfterFirst(a).requests[2 := Request(7, b, p)])
  }

  lemma FirstSuggestion(a: int)
    ensures Leads(INIT, AfterFirst(a))
  {
    var s1 := Apply(INIT, Begin(1, 7, a));
    LeadsByStep(INIT, Begin(1, 7, a));
    LookAndMiss(s1, 1, None);
    var s2 := Goto(s1, 1, Missed);
    LeadsOn(INIT, s1, s2);
    LockAndInsert(s2, 1, 7, None);
    assert {} + {a} == {a};
    assert Goto(s2, 1, Finished(Some(a))).(threads := s2.threads[7 := WithSuggestion(ThreadOf(s2, 7), a)])
        == AfterFirst(a);
    LeadsOn(INIT, s2, AfterFirst(a));
  }

  lemma SecondBegins(a: int, b: int, h: int)
    requires a < b < h
    ensures Leads(AfterFirst(a), SecondPosted(a, b, h, Started))
  {
    var s := AfterFirst(a);
    var s1 := Apply(s, Begin(2, 7, b));
    LeadsByStep(s, Begin(2, 7, b));
    LeadsByStep(s1, Post(7, h));
    assert {} + {h} == {h};
    assert Apply(s1, Post(7, h)) == SecondPosted(a, b, h, Started);
    LeadsOn(s, s1, SecondPosted(a, b, h, Started));
  }

  /**
    For all stamps a < b < h: a suggestion at `a`, a second request that begins at `b`, and a message at `h` that comes
    while it runs. Its suggestion is stamped `b`, next to the first, with nothing in between.
   */
  lemma LateMessageNotSeparated(a: int, b: int, h: int) returns (states: seq<State>, steps: seq<Step>)
    requires a < b < h
    ensures IsRun(states, steps) && InsertsAtStart(states, steps)
    ensures ThreadOf(states[|steps|], 7) == Thread({a, b}, {h}) && !Separated(ThreadOf(states[|steps|], 7))
  {
    SecondSuggestion(a, b, h);
    states, steps := RunTo(SecondInserted(a, b, h));
    assert a in {a, b} && b in {a, b};
  }

  /**
    With transaction-start stamps no number of suggestions is too many for one message: `n` requests that overlap, the
    newest served first, and one message after the first of them, leave `n` suggestions in a row.
   */
  lemma NoBoundOnSuggestions(n: nat) returns (states: seq<State>, steps: seq<Step>)
    requires n > 0
    ensures IsRun(states, steps) && InsertsAtStart(states, steps)
    ensures |ThreadOf(states[|steps|], 7).suggestions| == n && |ThreadOf(states[|steps|], 7).others| == 1
    ensures n > 1 ==> !Separated(ThreadOf(states[|steps|], 7))
  {
    AllWait(n);
    OlderLater(n, 0);
    LeadsOn(INIT, Waiting(n), Served(n, 0));
    states, steps := RunTo(Served(n, 0));
    assert n > 1 ==> 1 in Served(n, 0).threads[7].suggestions && 2 in Served(n, 0).threads[7].suggestions;
  }

  function SecondInserted(a: int, b: int, h: int): State {
    SecondPosted(a, b, h, Finished(Some(b))).(threads := map[7 := Thread({a, b}, {h})])
  }

  lemma SecondSuggestion(a: int, b: int, h: int)
    requires a < b < h
    ensures Leads(INIT, SecondInserted(a, b, h))
  {
    hide Leads;
    var s0, s1, s2 := AfterFirst(a), SecondPosted(a, b, h, Started), SecondPosted(a, b, h, Missed);
    FirstSuggestion(a);
    SecondBegins(a, b, h);
    assert h in ThreadOf(s1, 7).others;
    LookAndMiss(s1, 2, Some(a));
    assert Goto(s1, 2, Missed) == s2;
    LockAndInsert(s2, 2, 7, Some(a));
    assert {a} + {b} == {a, b};
    assert Goto(s2, 2, Finished(Some(b))).(threads := s2.threads[7 := WithSuggestion(ThreadOf(s2, 7), b)])
        == SecondInserted(a, b, h);
    LeadsOn(INIT, s0, s1);
    LeadsOn(INIT, s1, s2);
    LeadsOn(INIT, s2, SecondInserted(a, b, h));
  }

  // --- any number of overlapping requests ---

  /** Requests 1 to `n`, begun in this order, all wait for the lock of ticket 7. */
  function Waiting(n: nat): State {
    State(map[], map[], map r | 1 <= r <= n :: Request(7, r, Missed))
  }

  /** The stamps above `k` and up to `n`. */
  function Stamps(k: nat, n: nat): (stamps: set<int>)
    ensures forall r :: r in stamps <==> k < r <= n
    ensures k <= n ==> |stamps| == n - k
    decreases n - k
  {
    if k >= n then {} else Stamps(k + 1, n) + {k + 1}
  }

  /** Of `n` requests those above `k` are done, and one message came after all of them had begun. */
  function Served(n: nat, k: nat): State {
    State(map[7 := Thread(Stamps(k, n), {n + 1})], map[],
          map r | 1 <= r <= n :: Request(7, r, if r <= k then Missed else Finished(Some(r))))
  }

  lemma {:induction false} AllWait(n: nat)
    ensures Leads(INIT, Waiting(n))
  {
    if n == 0 {
      assert Waiting(0) == INIT;
      assert Path(INIT, [], INIT);
    } else {
      var s := Waiting(n - 1);
      AllWait(n - 1);
      var s1 := Apply(s, Begin(n, 7, n));
      LeadsByStep(s, Begin(n, 7, n));
      LookAndMiss(s1, n, None);
      assert Goto(s1, n, Missed) == Waiting(n);
      LeadsOn(INIT, s, s1);
      LeadsOn(INIT, s1, Waiting(n));
    }
  }

  lemma NewestFirst(n: nat)
    requires n > 0
    ensures Leads(Waiting(n), Served(n, n - 1))
  {
    hide Leads;
    var s := Waiting(n);
    LockAndInsert(s, n, 7, None);
    var s1 := Goto(s, n, Finished(Some(n))).(threads := s.threads[7 := WithSuggestion(ThreadOf(s, 7), n)]);
    LeadsByStep(s1, Post(7, n + 1));
    assert {} + {n} == Stamps(n - 1, n) && {} + {n + 1} == {n + 1};
    assert Apply(s1, Post(7, n + 1)) == Served(n, n - 1);
    LeadsOn(s, s1, Served(n, n - 1));
  }

  lemma ServeNext(n: nat, k: nat)
    requires k + 1 < n
    ensures Leads(Served(n, k + 1), Served(n, k))
  {
    var s := Served(n, k + 1);
    var th := ThreadOf(s, 7);
    assert th == Thread(Stamps(k + 1, n), {n + 1}) && n + 1 in th.others;
    assert IsLatest(th, Some(n)) && !IsFresh(th, n) && NewKey(th, k + 1);
    hide Leads, IsLatest, IsFresh, NewKey;
    LockAndInsert(s, k + 1, 7, Some(n));
    assert Stamps(k + 1, n) + {k + 1} == Stamps(k, n);
    hide Stamps;
    var s' := Goto(s, k + 1, Finished(Some(k + 1))).(threads := s.threads[7 := WithSuggestion(th, k + 1)]);
    assert s'.threads == Served(n, k).threads;
    assert s'.requests == Served(n, k).requests;
  }

  lemma {:induction false} OlderLater(n: nat, k: nat)
    requires k < n
    ensures Leads(Waiting(n), Served(n, k))
    decreases n - k
  {
    if k == n - 1 {
      NewestFirst(n);
    } else {
      hide Leads, Served, Waiting;
      OlderLater(n, k + 1);
      ServeNext(n, k);
      LeadsOn(Waiting(n), Served(n, k + 1), Served(n, k));
    }
  }
}
