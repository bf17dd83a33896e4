/**
  Refresh-token families: issue, rotate on use, revoke, and revocation of a whole family on reuse or logout.
  A raw token stands for its SHA-256 digest; both are integers here.

  Every call runs in a request of its own, whose session is committed when the call returns and rolled back when it
  raises. Reuse detection raises after it has revoked the family, so what it revoked is never committed.
 */
module RefreshTokens {
  import opened Wrappers
  import opened HelpdeskTypes

  type UserId = int
  type FamilyId = int
  type Raw = int

  const TTL := 30 * 24 * 3600

  datatype Row = Row(user: UserId, raw: Raw, family: FamilyId, expiresAt: int, revokedAt: Option<int>)

  datatype State = State(rows: seq<Row>, users: map<UserId, UserStatus>)

  datatype Outcome = Issued(raw: Raw) | Denied

  predicate Live(r: Row) { r.revokedAt.None? }

  /** The row a raw token hashes to. */
  function Find(rows: seq<Row>, raw: Raw): (i: Option<nat>)
    ensures i.Some? ==> i.value < |rows| && rows[i.value].raw == raw
    ensures i.None? ==> forall k :: 0 <= k < |rows| ==> rows[k].raw != raw
  {
    if rows == [] then None
    else if rows[|rows| - 1].raw == raw then Some(|rows| - 1)
    else Find(rows[..|rows| - 1], raw)
  }

  /** A token just added is found at its new row, and every other token where it was. */
  lemma FindAfterIssue(rows: seq<Row>, row: Row, raw: Raw)
    ensures Find(rows + [row], raw) == if raw == row.raw then Some(|rows|) else Find(rows, raw)
  {
    assert (rows + [row])[..|rows|] == rows;
  }

  /** Changing anything of a row but its token leaves every lookup where it was. */
  lemma {:induction false} FindAfterRevoke(rows: seq<Row>, i: nat, row: Row, raw: Raw)
    requires i < |rows| && row.raw == rows[i].raw
    ensures Find(rows[i := row], raw) == Find(rows, raw)
  {
    var n := |rows| - 1;
    if i < n {
      assert rows[i := row][..n] == rows[..n][i := row];
      FindAfterRevoke(rows[..n], i, row, raw);
    } else {
      assert rows[i := row][..n] == rows[..n];
    }
  }

  predicate ActiveUser(users: map<UserId, UserStatus>, u: UserId) { u in users && users[u].Active? }

  function RevokeRow(r: Row, family: FamilyId, now: int): Row {
    if r.family == family && Live(r) then r.(revokedAt := Some(now)) else r
  }

  /** `revoke_family`: every still-active row of the family. */
  function RevokeFamily(rows: seq<Row>, family: FamilyId, now: int): (rows': seq<Row>)
    ensures |rows'| == |rows|
    ensures forall k :: 0 <= k < |rows| ==> rows'[k] == RevokeRow(rows[k], family, now)
  {
    seq(|rows|, k requires 0 <= k < |rows| => RevokeRow(rows[k], family, now))
  }

  // --- the three calls, on the session's rows ---

  function Login(s: State, user: UserId, raw: Raw, family: FamilyId, now: int): (State, Outcome) {
    if ActiveUser(s.users, user) then (s.(rows := s.rows + [Row(user, raw, family, now + TTL, None)]), Issued(raw))
    else (s, Denied)
  }

  /** What `refresh` does with the row the presented token belongs to. */
  function Refresh(s: State, presented: Raw, raw: Raw, now: int): (State, Outcome) {
    var i := Find(s.rows, presented);
    if i.None? then (s, Denied)
    else
      var row := s.rows[i.value];
      if !Live(row) then (s.(rows := RevokeFamily(s.rows, row.family, now)), Denied)
      else if row.expiresAt < now || !ActiveUser(s.users, row.user) then (s, Denied)
      else
        var successor := Row(row.user, raw, row.family, now + TTL, None);
        (s.(rows := s.rows[i.value := row.(revokedAt := Some(now))] + [successor]), Issued(raw))
  }

  function Logout(s: State, presented: Raw, now: int): State {
    var i := Find(s.rows, presented);
    if i.None? then s else s.(rows := RevokeFamily(s.rows, s.rows[i.value].family, now))
  }

  // --- the code's own steps ---

  class AuthSession {
    var rows: seq<Row>
    const users: map<UserId, UserStatus>

    constructor (s: State)
      ensures Contents() == s
    {
      rows, users := s.rows, s.users;
    }

    function Contents(): State
      reads this
    {
      State(rows, users)
    }

    /** Fresh tokens and, without a family to continue, a fresh family id come from the caller. */
    method Issue(user: UserId, raw: Raw, family: FamilyId, now: int)
      modifies this
      ensures rows == old(rows) + [Row(user, raw, family, now + TTL, None)]
      ensures Find(rows, raw) == Some(|old(rows)|) && forall r :: r != raw ==> Find(rows, r) == Find(old(rows), r)
    {
      forall r { FindAfterIssue(rows, Row(user, raw, family, now + TTL, None), r); }
      rows := rows + [Row(user, raw, family, now + TTL, None)];
    }

    method Revoke(i: nat, now: int)
      requires i < |rows|
      modifies this
      ensures rows == old(rows)[i := old(rows)[i].(revokedAt := Some(now))]
      ensures forall r :: Find(rows, r) == Find(old(rows), r)
    {
      forall r { FindAfterRevoke(rows, i, rows[i].(revokedAt := Some(now)), r); }
      rows := rows[i := rows[i].(revokedAt := Some(now))];
    }

    method RevokeAll(family: FamilyId, now: int)
      modifies this
      ensures rows == RevokeFamily(old(rows), family, now)
    {
      for i := 0 to |rows|
        invariant |rows| == |old(rows)|
        invariant forall k :: 0 <= k < i ==> rows[k] == RevokeRow(old(rows)[k], family, now)
        invariant forall k :: i <= k < |rows| ==> rows[k] == old(rows)[k]
      {
        if rows[i].family == family && rows[i].revokedAt.None? {
          rows := rows[i := rows[i].(revokedAt := Some(now))];
        }
      }
    }

    /** `verified` is the outcome of the password check. */
    method LoginCall(user: UserId, verified: bool, raw: Raw, family: FamilyId, now: int) returns (r: Outcome)
      modifies this
      ensures verified ==> (Contents(), r) == Login(old(Contents()), user, raw, family, now)
      ensures !verified ==> Contents() == old(Contents()) && r == Denied
    {
      if !ActiveUser(users, user) {
        return Denied;
      }
      if !verified {
        return Denied;
      }
      Issue(user, raw, family, now);
      return Issued(raw);
    }

    method RefreshCall(presented: Raw, raw: Raw, now: int) returns (r: Outcome)
      modifies this
      ensures (Contents(), r) == Refresh(old(Contents()), presented, raw, now)
    {
      var i := Find(rows, presented);
      if i.None? {
        return Denied;
      }
      var row := rows[i.value];
      if row.revokedAt.Some? {
        RevokeAll(row.family, now);
        return Denied;
      }
      if row.expiresAt < now {
        return Denied;
      }
      if !ActiveUser(users, row.user) {
        return Denied;
      }
      Revoke(i.value, now);
      Issue(row.user, raw, row.family, now);
      return Issued(raw);
    }

    /** The request around `refresh`: when the call raises, the session is rolled back. */
    method RefreshRequest(presented: Raw, raw: Raw, now: int) returns (r: Outcome)
      modifies this
      ensures Contents() == Committed(old(Contents()), RefreshStep(presented, raw, now))
      ensures r == Refresh(old(Contents()), presented, raw, now).1
      ensures r == Denied ==> Contents() == old(Contents())
    {
      var saved := rows;
      r := RefreshCall(presented, raw, now);
      if r == Denied {
        rows := saved;
      }
    }

    method LogoutCall(presented: Raw, now: int)
      modifies this
      ensures Contents() == Logout(old(Contents()), presented, now)
    {
      var i := Find(rows, presented);
      if i.Some? {
        RevokeAll(rows[i.value].family, now);
      }
    }
  }

  // --- runs ---

  datatype Step =
    | LoginStep(user: UserId, raw: Raw, family: FamilyId, now: int)
    | RefreshStep(presented: Raw, raw: Raw, now: int)
    | LogoutStep(presented: Raw, now: int)
    | SetUser(user: UserId, status: UserStatus)

  predicate FreshRaw(rows: seq<Row>, raw: Raw) { forall k :: 0 <= k < |rows| ==> rows[k].raw != raw }

  predicate FreshFamily(rows: seq<Row>, f: FamilyId) { forall k :: 0 <= k < |rows| ==> rows[k].family != f }

  /** Random tokens and family ids are new. */
  predicate Enabled(s: State, step: Step) {
    match step
    case LoginStep(_, raw, family, _) => FreshRaw(s.rows, raw) && FreshFamily(s.rows, family)
    case RefreshStep(_, raw, _) => FreshRaw(s.rows, raw)
    case LogoutStep(_, _) => true
    case SetUser(_, _) => true
  }

  /** What the call leaves in its session. */
  function Apply(s: State, step: Step): State {
    match step
    case LoginStep(user, raw, family, now) => Login(s, user, raw, family, now).0
    case RefreshStep(presented, raw, now) => Refresh(s, presented, raw, now).0
    case LogoutStep(presented, now) => Logout(s, presented, now)
    case SetUser(user, status) => s.(users := s.users[user := status])
  }

  /** The step is a refresh that raises. */
  predicate IsDenied(s: State, step: Step) {
    step.RefreshStep? && Refresh(s, step.presented, step.raw, step.now).1 == Denied
  }

  /** What the request around the call commits. */
  function Committed(s: State, step: Step): State {
    if IsDenied(s, step) then s else Apply(s, step)
  }

  ghost predicate IsRun(states: seq<State>, steps: seq<Step>) {
    && |states| == |steps| + 1
    && states[0].rows == []
    && forall i :: 0 <= i < |steps| ==> Enabled(states[i], steps[i]) && states[i + 1] == Committed(states[i], steps[i])
  }

  /** Tokens are distinct, a family has one user, and only its newest token can be live. */
  ghost predicate Inv(rows: seq<Row>) {
    forall i, j :: 0 <= i < j < |rows| ==>
      rows[i].raw != rows[j].raw
      && (rows[i].family == rows[j].family ==> rows[i].user == rows[j].user && !Live(rows[i]))
  }

  /** Rows are never removed or changed, except that a live row can be revoked, once. */
  ghost predicate Grows(rows: seq<Row>, rows': seq<Row>) {
    && |rows| <= |rows'|
    && forall k :: 0 <= k < |rows| ==>
         rows'[k] == rows[k] || (Live(rows[k]) && !Live(rows'[k]) && rows'[k].(revokedAt := None) == rows[k])
  }

  /** Any row a step adds to a family that existed comes from rotating that family's live row. */
  ghost predicate Rotated(s: State, step: Step, rows': seq<Row>, k: nat)
    requires k < |rows'|
  {
    FreshFamily(s.rows, rows'[k].family) ||
    (&& step.RefreshStep? && rows'[k].raw == step.raw
     && exists i :: 0 <= i < |s.rows| && i < |rows'| && RotatedFrom(s, step, rows', k, i))
  }

  /** Row `k` replaces row `i`, the live, unexpired row of the presented token, which the step revokes. */
  ghost predicate RotatedFrom(s: State, step: Step, rows': seq<Row>, k: nat, i: nat)
    requires step.RefreshStep? && k < |rows'| && i < |s.rows| && i < |rows'|
  {
    && s.rows[i].raw == step.presented && Live(s.rows[i]) && step.now <= s.rows[i].expiresAt
    && ActiveUser(s.users, s.rows[i].user)
    && !Live(rows'[i])
    && rows'[k].family == s.rows[i].family && rows'[k].user == s.rows[i].user
  }

  lemma StepKeeps(s: State, step: Step)
    requires Inv(s.rows) && Enabled(s, step)
    ensures Inv(Committed(s, step).rows) && Grows(s.rows, Committed(s, step).rows)
    ensures forall k :: |s.rows| <= k < |Committed(s, step).rows| ==> Rotated(s, step, Committed(s, step).rows, k)
  {
    if step.RefreshStep? {
      var i := Find(s.rows, step.presented);
      var rows' := Committed(s, step).rows;
      if |rows'| > |s.rows| {
        assert RotatedFrom(s, step, rows', |s.rows|, i.value);
      }
    }
  }

  lemma {:induction false} RunKeeps(states: seq<State>, steps: seq<Step>, n: nat)
    requires IsRun(states, steps) && n < |states|
    ensures Inv(states[n].rows)
  {
    if n > 0 {
      RunKeeps(states, steps, n - 1);
      StepKeeps(states[n - 1], steps[n - 1]);
    }
  }

  /** In every reachable state each family belongs to one user and has at most one live token. */
  lemma FamilyInvariant(states: seq<State>, steps: seq<Step>, n: nat, i: nat, j: nat)
    requires IsRun(states, steps) && n < |states| && i < |states[n].rows| && j < |states[n].rows|
    requires states[n].rows[i].family == states[n].rows[j].family
    ensures states[n].rows[i].user == states[n].rows[j].user
    ensures Live(states[n].rows[i]) && Live(states[n].rows[j]) ==> i == j
  {
    RunKeeps(states, steps, n);
  }

  /** Along every run `revoked_at` is written at most once per token, and nothing else of a token ever changes. */
  lemma {:induction false} RevokedOnce(states: seq<State>, steps: seq<Step>, m: nat, n: nat)
    requires IsRun(states, steps) && m <= n < |states|
    ensures Grows(states[m].rows, states[n].rows)
  {
    if m < n {
      RevokedOnce(states, steps, m, n - 1);
      RunKeeps(states, steps, n - 1);
      StepKeeps(states[n - 1], steps[n - 1]);
    }
  }

  ghost predicate Dead(rows: seq<Row>, f: FamilyId) {
    && (exists k :: 0 <= k < |rows| && rows[k].family == f)
    && (forall k :: 0 <= k < |rows| && rows[k].family == f ==> !Live(rows[k]))
  }

  lemma DeadStep(s: State, step: Step, f: FamilyId)
    requires Inv(s.rows) && Enabled(s, step) && Dead(s.rows, f)
    ensures Dead(Committed(s, step).rows, f) && |s.rows| <= |Committed(s, step).rows|
    ensures forall k :: |s.rows| <= k < |Committed(s, step).rows| ==> Committed(s, step).rows[k].family != f
  {
    StepKeeps(s, step);
    var rows' := Committed(s, step).rows;
    hide Apply, Inv;
    var k0 :| 0 <= k0 < |s.rows| && s.rows[k0].family == f;
    assert rows'[k0].family == f;
    forall k | |s.rows| <= k < |rows'| ensures rows'[k].family != f {
      assert Rotated(s, step, rows', k);
    }
  }

  lemma FamilyKept(rows: seq<Row>, rows': seq<Row>)
    requires Grows(rows, rows')
    ensures forall k :: 0 <= k < |rows| ==> rows'[k].family == rows[k].family
  {
  }

  /** No row of the family from `n` on. */
  ghost predicate NoneSince(rows: seq<Row>, n: nat, f: FamilyId) {
    n <= |rows| && forall k :: n <= k < |rows| ==> rows[k].family != f
  }

  lemma NoneSinceNext(rows: seq<Row>, rows': seq<Row>, n: nat, f: FamilyId)
    requires NoneSince(rows, n, f) && NoneSince(rows', |rows|, f) && Grows(rows, rows')
    ensures NoneSince(rows', n, f)
  {
    FamilyKept(rows, rows');
    hide Grows;
  }

  /** A family with no live token never gets another token. */
  lemma {:induction false} DeadForever(states: seq<State>, steps: seq<Step>, m: nat, n: nat, f: FamilyId)
    requires IsRun(states, steps) && m <= n < |states| && Dead(states[m].rows, f)
    ensures Dead(states[n].rows, f) && NoneSince(states[n].rows, |states[m].rows|, f)
  {
    if m < n {
      DeadForever(states, steps, m, n - 1, f);
      RunKeeps(states, steps, n - 1);
      DeadStep(states[n - 1], steps[n - 1], f);
      RevokedOnce(states, steps, n - 1, n);
      hide Dead, Inv, Grows, Enabled;
      NoneSinceNext(states[n - 1].rows, states[n].rows, |states[m].rows|, f);
    }
  }

  /** A token added to an existing family was issued by rotating that family's one live token. */
  lemma IssuedByRotation(states: seq<State>, steps: seq<Step>, n: nat, k: nat)
    requires IsRun(states, steps) && n < |steps|
    requires |states[n].rows| <= k < |states[n + 1].rows|
    ensures Rotated(states[n], steps[n], states[n + 1].rows, k)
  {
    RunKeeps(states, steps, n);
    StepKeeps(states[n], steps[n]);
  }

  // --- who is issued a token, for how long, and who loses it ---

  /** Index of the one row of a token. */
  lemma FoundAt(rows: seq<Row>, i: nat)
    requires Inv(rows) && i < |rows|
    ensures Find(rows, rows[i].raw) == Some(i)
  {
  }

  /** No login, refresh or logout touches a user's status. */
  lemma UsersSet(states: seq<State>, steps: seq<Step>, n: nat)
    requires IsRun(states, steps) && n < |steps|
    ensures states[n + 1].users
            == if steps[n].SetUser? then states[n].users[steps[n].user := steps[n].status] else states[n].users
  {
  }

  /** Row `i` is the live, unexpired row of the presented token, and its user is active. */
  predicate MayRotate(s: State, presented: Raw, now: int, i: nat)
    requires i < |s.rows|
  {
    && s.rows[i].raw == presented && s.rows[i].revokedAt == None && now <= s.rows[i].expiresAt
    && s.rows[i].user in s.users && s.users[s.rows[i].user] == UserStatus.Active
  }

  /** The user who gets a token from the step, if anybody does. */
  ghost predicate Entitled(s: State, step: Step, user: UserId) {
    match step
    case LoginStep(u, _, _, _) => u == user && u in s.users && s.users[u] == UserStatus.Active
    case RefreshStep(presented, _, now) =>
      exists i :: 0 <= i < |s.rows| && MayRotate(s, presented, now, i) && s.rows[i].user == user
    case LogoutStep(_, _) => false
    case SetUser(_, _) => false
  }

  /**
    Along every run a step adds a token exactly when it is the login of an active user or the refresh with a live,
    unexpired token of one, and then one token: new, live, that user's, and good for thirty days from the step.
   */
  lemma IssuedIff(states: seq<State>, steps: seq<Step>, n: nat, user: UserId)
    requires IsRun(states, steps) && n < |steps|
    ensures |states[n].rows| <= |states[n + 1].rows| <= |states[n].rows| + 1
    ensures Entitled(states[n], steps[n], user) <==>
              |states[n + 1].rows| > |states[n].rows| && states[n + 1].rows[|states[n].rows|].user == user
    ensures |states[n + 1].rows| > |states[n].rows| ==>
              var row := states[n + 1].rows[|states[n].rows|];
              && (steps[n].LoginStep? || steps[n].RefreshStep?)
              && row.raw == steps[n].raw && row.revokedAt == None
              && row.expiresAt == steps[n].now + 30 * 24 * 3600
              && (steps[n].LoginStep? ==> row.family == steps[n].family)
  {
    var s, step := states[n], steps[n];
    RunKeeps(states, steps, n);
    assert states[n + 1] == Committed(s, step);
    if step.RefreshStep? {
      forall i | 0 <= i < |s.rows| && s.rows[i].raw == step.presented ensures Find(s.rows, step.presented) == Some(i) {
        FoundAt(s.rows, i);
      }
      var found := Find(s.rows, step.presented);
      if found.Some? && |states[n + 1].rows| > |s.rows| { assert MayRotate(s, step.presented, step.now, found.value); }
      hide Find, Inv;
    }
  }

  ghost function Deserved(s: State, step: Step): Outcome
    requires step.LoginStep? || step.RefreshStep?
  {
    if exists u :: Entitled(s, step, u) then Issued(step.raw) else Denied
  }

  /** A login or refresh returns the new token, and denies the caller when there is none. */
  lemma OutcomeIff(states: seq<State>, steps: seq<Step>, n: nat)
    requires IsRun(states, steps) && n < |steps|
    ensures var s, step := states[n], steps[n];
      step.LoginStep? ==> Login(s, step.user, step.raw, step.family, step.now).1 == Deserved(s, step)
    ensures var s, step := states[n], steps[n];
      step.RefreshStep? ==> Refresh(s, step.presented, step.raw, step.now).1 == Deserved(s, step)
  {
    var s, step := states[n], steps[n];
    RunKeeps(states, steps, n);
    if step.LoginStep? {
      assert ActiveUser(s.users, step.user) ==> Entitled(s, step, step.user);
    } else if step.RefreshStep? {
      var found := Find(s.rows, step.presented);
      if found.Some? && MayRotate(s, step.presented, step.now, found.value) {
        assert Entitled(s, step, s.rows[found.value].user);
      }
      if u :| Entitled(s, step, u) {
        var i :| 0 <= i < |s.rows| && MayRotate(s, step.presented, step.now, i) && s.rows[i].user == u;
        FoundAt(s.rows, i);
      }
    }
  }

  /**
    A token issued by step `m`, by login or by rotation, can be rotated at any later point if and only if it has not
    been revoked, thirty days have not passed since it was issued, and its user is active.
   */
  lemma RotatedForThirtyDays(states: seq<State>, steps: seq<Step>, m: nat, n: nat, raw: Raw, now: int)
    requires IsRun(states, steps) && m < n < |states| && |states[m + 1].rows| > |states[m].rows|
    ensures var k, user := |states[m].rows|, states[m + 1].rows[|states[m].rows|].user;
      && k < |states[n].rows|
      && (Refresh(states[n], steps[m].raw, raw, now).1 == Issued(raw)
          <==> && states[n].rows[k].revokedAt == None && now <= steps[m].now + 30 * 24 * 3600
               && user in states[n].users && states[n].users[user] == UserStatus.Active)
  {
    var k := |states[m].rows|;
    IssuedIff(states, steps, m, 0);
    RevokedOnce(states, steps, m + 1, n);
    RunKeeps(states, steps, n);
    assert states[n].rows[k].(revokedAt := None) == states[m + 1].rows[k].(revokedAt := None);
    FoundAt(states[n].rows, k);
    hide Find, Inv, Grows, IsRun;
  }

  /** The step is a granted refresh with the row's token, or a logout with a token of the row's family. */
  ghost predicate Revokes(s: State, step: Step, row: Row) {
    match step
    case LoginStep(_, _, _, _) => false
    case RefreshStep(presented, _, _) => row.raw == presented && exists u :: Entitled(s, step, u)
    case LogoutStep(presented, _) =>
      exists i :: 0 <= i < |s.rows| && s.rows[i].raw == presented && s.rows[i].family == row.family
    case SetUser(_, _) => false
  }

  /** Along every run a live token is revoked by exactly those steps, and stamped with their time. */
  lemma RevokedIff(states: seq<State>, steps: seq<Step>, n: nat, k: nat)
    requires IsRun(states, steps) && n < |steps| && k < |states[n].rows| && Live(states[n].rows[k])
    ensures k < |states[n + 1].rows|
    ensures states[n + 1].rows[k].revokedAt
            == if Revokes(states[n], steps[n], states[n].rows[k]) then Some(TimeOf(steps[n])) else None
  {
    var s, step := states[n], steps[n];
    RunKeeps(states, steps, n);
    OutcomeIff(states, steps, n);
    assert states[n + 1] == Committed(s, step);
    if step.RefreshStep? {
      var found := Find(s.rows, step.presented);
      FoundAt(s.rows, k);
      hide Find;
      if found.Some? && found.value != k { assert s.rows[k].raw != s.rows[found.value].raw; }
      hide Inv;
    } else if step.LogoutStep? {
      var found := Find(s.rows, step.presented);
      forall i | 0 <= i < |s.rows| && s.rows[i].raw == step.presented ensures found == Some(i) { FoundAt(s.rows, i); }
      hide Find, Inv;
    }
  }

  function TimeOf(step: Step): int { if step.SetUser? then 0 else step.now }

  /** The step presents a revoked token of family `f`. */
  predicate IsReuse(s: State, step: Step, f: FamilyId) {
    step.RefreshStep? && exists i :: 0 <= i < |s.rows| && IsReuseOf(s, step, f, i)
  }

  predicate IsReuseOf(s: State, step: Step, f: FamilyId, i: nat)
    requires step.RefreshStep? && i < |s.rows|
  {
    s.rows[i].raw == step.presented && s.rows[i].family == f && !Live(s.rows[i])
  }

  /** The call alone: presenting a revoked token raises, and its session then holds no live token of the family. */
  lemma ReuseRevokesSession(states: seq<State>, steps: seq<Step>, m: nat, f: FamilyId)
    requires IsRun(states, steps) && m < |steps| && IsReuse(states[m], steps[m], f)
    ensures IsDenied(states[m], steps[m]) && Dead(Apply(states[m], steps[m]).rows, f)
    ensures Apply(states[m], steps[m]).rows == RevokeFamily(states[m].rows, f, steps[m].now)
  {
    RunKeeps(states, steps, m);
    var rows := states[m].rows;
    var i :| 0 <= i < |rows| && IsReuseOf(states[m], steps[m], f, i);
    assert Find(rows, steps[m].presented) == Some(i);
    assert RevokeFamily(rows, f, steps[m].now)[i].family == f;
  }

  /**
    The request: a reuse changes no committed row, so the family is revoked for the rest of the run if and only if it
    had no live token already.
   */
  lemma ReuseKillsIffDead(states: seq<State>, steps: seq<Step>, m: nat, f: FamilyId)
    requires IsRun(states, steps) && m < |steps| && IsReuse(states[m], steps[m], f)
    ensures states[m + 1] == states[m]
    ensures (forall n :: m < n < |states| ==> Dead(states[n].rows, f)) <==> Dead(states[m].rows, f)
  {
    ReuseRevokesSession(states, steps, m, f);
    if Dead(states[m].rows, f) {
      forall n | m < n < |states| ensures Dead(states[n].rows, f) { DeadForever(states, steps, m, n, f); }
    }
  }

  /** After a reuse, the family's live token is rotated as if nothing had happened. */
  lemma LiveTokenSurvivesReuse(states: seq<State>, steps: seq<Step>, m: nat, f: FamilyId, j: nat, raw: Raw, now: int)
    requires IsRun(states, steps) && m < |steps| && IsReuse(states[m], steps[m], f)
    requires j < |states[m].rows| && states[m].rows[j].family == f && Live(states[m].rows[j])
    requires now <= states[m].rows[j].expiresAt && ActiveUser(states[m].users, states[m].rows[j].user)
    ensures Refresh(states[m + 1], states[m].rows[j].raw, raw, now).1 == Issued(raw)
  {
    ReuseKillsIffDead(states, steps, m, f);
    RunKeeps(states, steps, m);
    assert Find(states[m].rows, states[m].rows[j].raw) == Some(j);
  }

  function Exec(s: State, steps: seq<Step>): State
    decreases |steps|
  {
    if steps == [] then s else Exec(Committed(s, steps[0]), steps[1..])
  }

  /** The steps without the refreshes that raise. */
  function Granted(s: State, steps: seq<Step>): seq<Step>
    decreases |steps|
  {
    if steps == [] then []
    else (if IsDenied(s, steps[0]) then [] else [steps[0]]) + Granted(Committed(s, steps[0]), steps[1..])
  }

  /** Requests that raise, reuse included, can be struck from any history: it ends in the same rows all the same. */
  lemma {:induction false} DeniedRequestsInvisible(s: State, steps: seq<Step>)
    ensures Exec(s, Granted(s, steps)) == Exec(s, steps)
    decreases |steps|
  {
    if steps != [] {
      DeniedRequestsInvisible(Committed(s, steps[0]), steps[1..]);
      var rest := Granted(Committed(s, steps[0]), steps[1..]);
      if IsDenied(s, steps[0]) {
        assert [] + rest == rest;
      } else {
        assert ([steps[0]] + rest)[1..] == rest;
      }
    }
  }

  /** A reuse that revokes nothing: log in, rotate, present the rotated token again, and the new one still rotates. */
  lemma ReuseNotCommitted(s: State, user: UserId, now: int)
    requires s.rows == [] && ActiveUser(s.users, user)
    ensures var s1 := Committed(s, LoginStep(user, 100, 1, now));
      var s2 := Committed(s1, RefreshStep(100, 101, now));
      var s3 := Committed(s2, RefreshStep(100, 102, now));
      && IsReuse(s2, RefreshStep(100, 102, now), 1)
      && s3 == s2 && !Dead(s3.rows, 1)
      && Refresh(s3, 101, 103, now).1 == Issued(103)
  {
    var first, second := Row(user, 100, 1, now + TTL, None), Row(user, 101, 1, now + TTL, None);
    var spent := first.(revokedAt := Some(now));
    var s1 := Committed(s, LoginStep(user, 100, 1, now));
    assert s1.rows == [first];
    FindAfterIssue([], first, 100);
    var s2 := Committed(s1, RefreshStep(100, 101, now));
    assert s2.rows == [spent, second];
    FindAfterIssue([], spent, 100);
    FindAfterIssue([spent], second, 100);
    FindAfterIssue([spent], second, 101);
    assert [] + [first] == [first] && [] + [spent] == [spent] && [spent] + [second] == [spent, second];
    hide Find;
    assert IsReuseOf(s2, RefreshStep(100, 102, now), 1, 0);
    assert s2.rows[1] == second && Live(second);
  }

  /** Logging out with any token of a family, live or not, leaves it revoked for the rest of the run. */
  lemma LogoutKillsFamily(states: seq<State>, steps: seq<Step>, m: nat, n: nat, i: nat)
    requires IsRun(states, steps) && m < n < |states| && i < |states[m].rows|
    requires steps[m].LogoutStep? && steps[m].presented == states[m].rows[i].raw
    ensures Dead(states[n].rows, states[m].rows[i].family)
  {
    RunKeeps(states, steps, m);
    var f := states[m].rows[i].family;
    assert states[m + 1].rows == RevokeFamily(states[m].rows, f, steps[m].now);
    assert states[m + 1].rows[i].family == f;
    DeadForever(states, steps, m + 1, n, f);
  }
}
