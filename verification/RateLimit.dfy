/**
  The hourly chat rate limit: a counter per session and epoch hour, with an expiry of 3700 seconds set when the
  counter is created. Times are in milliseconds.
 */
module RateLimit {
  type SessionId = int

  function Hour(t: int): int { t / 3_600_000 }

  datatype Counter = Counter(count: nat, expiresAt: int)

  type Store = map<(SessionId, int), Counter>

  datatype Call = Call(session: SessionId, time: int)

  /** The counter's value at time `t`; an expired counter is gone. */
  function Value(store: Store, key: (SessionId, int), t: int): nat {
    if key in store && t < store[key].expiresAt then store[key].count else 0
  }

  /** `INCR`, then `EXPIRE key 3700 NX`. */
  function Increment(store: Store, call: Call): Store {
    var key := (call.session, Hour(call.time));
    var alive := key in store && call.time < store[key].expiresAt;
    var expiresAt := if alive then store[key].expiresAt else call.time + 3_700_000;
    store[key := Counter(Value(store, key, call.time) + 1, expiresAt)]
  }

  class Redis {
    var store: Store

    constructor ()
      ensures store == map[]
    {
      store := map[];
    }

    method Incr(key: (SessionId, int), t: int) returns (count: nat, created: bool)
      modifies this
      ensures created <==> !(key in old(store) && t < old(store)[key].expiresAt)
      ensures count == Value(old(store), key, t) + 1
      ensures key in store && (!created ==> store[key].expiresAt == old(store)[key].expiresAt)
      ensures store == old(store)[key := Counter(count, store[key].expiresAt)]
    {
      created := !(key in store && t < store[key].expiresAt);
      count := (if created then 0 else store[key].count) + 1;
      store := store[key := Counter(count, if created then 0 else store[key].expiresAt)];
    }

    /** Accepts the call, or raises when the counter now exceeds the limit; the counter moves either way. */
    method CheckAndIncrement(call: Call, limit: int) returns (accepted: bool)
      modifies this
      ensures store == Increment(old(store), call)
      ensures accepted <==> Value(old(store), (call.session, Hour(call.time)), call.time) + 1 <= limit
    {
      var key := (call.session, Hour(call.time));
      var count, created := Incr(key, call.time);
      if created {
        store := store[key := store[key].(expiresAt := call.time + 3_700_000)];
      }
      return count <= limit;
    }
  }

  // --- runs ---

  function StoreAfter(calls: seq<Call>): Store {
    if calls == [] then map[] else Increment(StoreAfter(calls[..|calls| - 1]), calls[|calls| - 1])
  }

  /** Whether call `i` of the sequence is accepted. */
  predicate Accepted(calls: seq<Call>, i: nat, limit: int)
    requires i < |calls|
  {
    Value(StoreAfter(calls[..i]), (calls[i].session, Hour(calls[i].time)), calls[i].time) + 1 <= limit
  }

  /** Calls of a session in an epoch hour. */
  function CallsIn(calls: seq<Call>, s: SessionId, hour: int): nat {
    if calls == [] then 0
    else
      var c := calls[|calls| - 1];
      CallsIn(calls[..|calls| - 1], s, hour) + if c.session == s && Hour(c.time) == hour then 1 else 0
  }

  /** A counter that has been used holds all calls of its hour and outlives the hour. */
  ghost predicate Faithful(calls: seq<Call>, store: Store) {
    forall s, h :: CallsIn(calls, s, h) > 0 ==>
      (s, h) in store && store[(s, h)].count == CallsIn(calls, s, h) && 3_600_000 * (h + 1) < store[(s, h)].expiresAt
  }

  ghost predicate Clean(calls: seq<Call>, store: Store) {
    forall s, h :: (s, h) in store ==> CallsIn(calls, s, h) > 0
  }

  /** The expiry cannot fire inside the counter's own hour, so a counter always holds its hour's calls. */
  lemma {:induction false} CountersFaithful(calls: seq<Call>)
    ensures Faithful(calls, StoreAfter(calls)) && Clean(calls, StoreAfter(calls))
  {
    if calls != [] {
      var n := |calls| - 1;
      CountersFaithful(calls[..n]);
      var before, c := StoreAfter(calls[..n]), calls[n];
      var h := Hour(c.time);
      assert 3_600_000 * h <= c.time < 3_600_000 * (h + 1);
      assert CallsIn(calls[..n], c.session, h) > 0 <==> (c.session, h) in before;
    }
  }

  /** Call `i` is the first of its session in its hour. */
  predicate FirstCall(calls: seq<Call>, i: nat, s: SessionId, h: int) {
    && i < |calls| && calls[i].session == s && Hour(calls[i].time) == h
    && forall k :: 0 <= k < i ==> !(calls[k].session == s && Hour(calls[k].time) == h)
  }

  /** The expiry is set once: a counter expires 3700 seconds after its first call, whatever calls follow. */
  lemma {:induction false} ExpirySetOnce(calls: seq<Call>, i: nat, s: SessionId, h: int)
    requires FirstCall(calls, i, s, h)
    ensures (s, h) in StoreAfter(calls) && StoreAfter(calls)[(s, h)].expiresAt == calls[i].time + 3_700_000
  {
    var n := |calls| - 1;
    var before, c := StoreAfter(calls[..n]), calls[n];
    CountersFaithful(calls[..n]);
    assert 3_600_000 * h <= calls[i].time < 3_600_000 * (h + 1);
    assert 3_600_000 * Hour(c.time) <= c.time < 3_600_000 * (Hour(c.time) + 1);
    if i < n {
      assert FirstCall(calls[..n], i, s, h);
      ExpirySetOnce(calls[..n], i, s, h);
    } else {
      NoCalls(calls[..n], s, h);
    }
  }

  lemma {:induction false} NoCalls(calls: seq<Call>, s: SessionId, h: int)
    requires forall k :: 0 <= k < |calls| ==> !(calls[k].session == s && Hour(calls[k].time) == h)
    ensures CallsIn(calls, s, h) == 0
  {
    if calls != [] { NoCalls(calls[..|calls| - 1], s, h); }
  }

  /** Each session has exactly the first `limit` calls of each epoch hour accepted. */
  lemma AcceptedIff(calls: seq<Call>, i: nat, limit: int)
    requires i < |calls|
    ensures Accepted(calls, i, limit) <==> CallsIn(calls[..i], calls[i].session, Hour(calls[i].time)) < limit
  {
    CountersFaithful(calls[..i]);
    var s, h := calls[i].session, Hour(calls[i].time);
    assert calls[i].time < 3_600_000 * (h + 1);
    assert CallsIn(calls[..i], s, h) > 0 <==> (s, h) in StoreAfter(calls[..i]);
  }

  /** Accepted calls of a session among the first `n`, with time in `[from, till)`. */
  function AcceptedIn(calls: seq<Call>, n: nat, limit: int, s: SessionId, from: int, till: int): nat
    requires n <= |calls|
  {
    if n == 0 then 0
    else
      var c := calls[n - 1];
      AcceptedIn(calls, n - 1, limit, s, from, till)
      + if c.session == s && from <= c.time < till && Accepted(calls, n - 1, limit) then 1 else 0
  }

  lemma {:induction false} AcceptedInHour(calls: seq<Call>, n: nat, limit: nat, s: SessionId, h: int)
    requires n <= |calls|
    ensures AcceptedIn(calls, n, limit, s, 3_600_000 * h, 3_600_000 * (h + 1))
            == if CallsIn(calls[..n], s, h) <= limit then CallsIn(calls[..n], s, h) else limit
    decreases n
  {
    if n > 0 {
      AcceptedInHour(calls, n - 1, limit, s, h);
      AcceptedIff(calls, n - 1, limit);
      var c := calls[n - 1];
      assert 3_600_000 * h <= c.time < 3_600_000 * (h + 1) <==> Hour(c.time) == h;
      assert calls[..n][..n - 1] == calls[..n - 1];
      hide Accepted, StoreAfter;
    }
  }

  lemma {:induction false} AcceptedSplit(calls: seq<Call>, n: nat, limit: int, s: SessionId, a: int, b: int,
                                         from: int, mid: int, till: int)
    requires n <= |calls| && from <= a && b <= till && from <= mid <= till
    ensures AcceptedIn(calls, n, limit, s, a, b)
            <= AcceptedIn(calls, n, limit, s, from, mid) + AcceptedIn(calls, n, limit, s, mid, till)
    decreases n
  {
    hide Accepted;
    if n > 0 { AcceptedSplit(calls, n - 1, limit, s, a, b, from, mid, till); }
  }

  /** Any stretch of 3600 seconds accepts at most twice the limit. */
  lemma AnyHourBounded(calls: seq<Call>, limit: nat, s: SessionId, start: int)
    ensures AcceptedIn(calls, |calls|, limit, s, start, start + 3_600_000) <= 2 * limit
  {
    var h := Hour(start);
    AcceptedInHour(calls, |calls|, limit, s, h);
    AcceptedInHour(calls, |calls|, limit, s, h + 1);
    AcceptedSplit(calls, |calls|, limit, s, start, start + 3_600_000,
                  3_600_000 * h, 3_600_000 * (h + 1), 3_600_000 * (h + 2));
  }
}
