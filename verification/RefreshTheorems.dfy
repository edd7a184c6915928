/** What rotation guarantees in every state reached by logins, refreshes, logouts and resets. */
module RefreshTheorems {
  import opened Wrappers
  import opened RefreshSessions

  datatype Operation =
    | SignIn(user: UserId, organization: OrganizationId, expiresAt: Time)
    | Refresh(token: SessionId, now: Time, active: bool, expiresAt: Time)
    | SignOut(token: SessionId, now: Time)
    | ResetPassword(user: UserId, now: Time)

  ghost function Apply(t: Table, op: Operation): Table
  {
    match op
    case SignIn(user, organization, expiresAt) => Issue(t, user, organization, expiresAt)
    case Refresh(token, now, active, expiresAt) =>
      (match RefreshAnswer(t, token, now, active)
       case Refused => t
       case ReuseDetected => RevokeLineage(t, token, now)
       case Rotated(_) => Rotate(t, token, now, expiresAt))
    case SignOut(token, now) => Logout(t, token, now)
    case ResetPassword(user, now) => RevokeUser(t, user, now)
  }

  ghost function ApplyAll(t: Table, ops: seq<Operation>): Table
  {
    if ops == [] then t else Apply(ApplyAll(t, ops[..|ops| - 1]), ops[|ops| - 1])
  }

  // -------------------------------------------------------- the invariant

  /** Only revocation dates differ, and only by being added. */
  ghost predicate OnlyRevokes(t: Table, r: Table)
  {
    && |r| == |t|
    && forall id :: 0 <= id < |t| ==>
         || r[id] == t[id]
         || (t[id].revokedAt == None && r[id].revokedAt.Some? && r[id] == t[id].(revokedAt := r[id].revokedAt))
  }

  lemma RevokingKeepsChained(t: Table, r: Table)
    requires Chained(t) && OnlyRevokes(t, r)
    ensures Chained(r)
  {
  }

  lemma RotateKeepsChained(t: Table, token: SessionId, now: Time, expiresAt: Time)
    requires Chained(t) && token < |t| && t[token].replacedBy == None
    ensures Chained(Rotate(t, token, now, expiresAt))
  {
    var r := Rotate(t, token, now, expiresAt);
    assert forall id :: 0 <= id < |t| && id != token ==> r[id] == t[id];
  }

  lemma ApplyKeepsChained(t: Table, op: Operation)
    requires Chained(t)
    ensures Chained(Apply(t, op))
  {
    match op
    case SignIn(user, organization, expiresAt) => assert forall id :: 0 <= id < |t| ==> Apply(t, op)[id] == t[id];
    case Refresh(token, now, active, expiresAt) =>
      match RefreshAnswer(t, token, now, active) {
        case Refused =>
        case ReuseDetected => RevokingKeepsChained(t, RevokeLineage(t, token, now));
        case Rotated(_) => RotateKeepsChained(t, token, now, expiresAt);
      }
    case SignOut(token, now) => RevokingKeepsChained(t, Logout(t, token, now));
    case ResetPassword(user, now) => RevokingKeepsChained(t, RevokeUser(t, user, now));
  }

  /** Every reachable table is chained, whatever the order of operations. */
  lemma {:induction false} EveryRunIsChained(ops: seq<Operation>)
    ensures Chained(ApplyAll([], ops))
    decreases |ops|
  {
    if ops != [] {
      EveryRunIsChained(ops[..|ops| - 1]);
      ApplyKeepsChained(ApplyAll([], ops[..|ops| - 1]), ops[|ops| - 1]);
    }
  }

  // ----------------------------------------------------- chains are paths

  /** Links lead forward: no chain comes back to where it was. */
  lemma {:induction false} ChainsAreAcyclic(t: Table, id: SessionId, n: nat)
    requires Chained(t) && Nth(t, id, n).Some?
    ensures n == 0 ==> Nth(t, id, n).value == id
    ensures n > 0 ==> id < Nth(t, id, n).value
    decreases n
  {
    if n > 0 {
      ChainsAreAcyclic(t, t[id].replacedBy.value, n - 1);
    }
  }

  /** Two chains that share a session are one chain: one start descends from the other. */
  lemma {:induction false} ChainsAreDisjoint(t: Table, a: SessionId, m: nat, b: SessionId, n: nat)
    requires Chained(t) && Nth(t, a, m).Some? && Nth(t, a, m) == Nth(t, b, n)
    ensures if m <= n then Nth(t, b, n - m) == Some(a) else Nth(t, a, m - n) == Some(b)
    decreases m
  {
    if m > 0 && n > 0 {
      NthNext(t, a, m - 1);
      NthNext(t, b, n - 1);
      NthIsKnown(t, a, m - 1);
      NthIsKnown(t, b, n - 1);
      ChainsAreDisjoint(t, a, m - 1, b, n - 1);
    }
  }

  /** A session without a successor ends every chain it is on. */
  lemma LastIsUnique(t: Table, start: SessionId, a: SessionId, b: SessionId)
    requires DescendsFrom(t, a, start) && DescendsFrom(t, b, start) && a < |t| && b < |t|
    requires t[a].replacedBy == None && t[b].replacedBy == None
    ensures a == b
  {
    var m: nat :| Nth(t, start, m) == Some(a);
    var n: nat :| Nth(t, start, n) == Some(b);
    if m < n {
      NthNext(t, start, m);
      NoneStays(t, start, m + 1, n - m - 1);
    } else if n < m {
      NthNext(t, start, n);
      NoneStays(t, start, n + 1, m - n - 1);
    }
  }

  /** At most one live session on a chain, and it is the chain's last. */
  lemma OneLivePerChain(t: Table, start: SessionId, a: SessionId, b: SessionId)
    requires Chained(t) && a < |t| && b < |t|
    requires DescendsFrom(t, a, start) && DescendsFrom(t, b, start)
    requires t[a].revokedAt == None && t[b].revokedAt == None
    ensures a == b && t[a].replacedBy == None
  {
    LastIsUnique(t, start, a, b);
  }

  // ----------------------------------------------------------- reuse

  /**
   * Revoking a lineage newly revokes at most one session, leaves nothing live that
   * descends from the token, and touches no session that does not.
   */
  lemma LineageRevocation(t: Table, token: SessionId, now: Time)
    requires Chained(t)
    ensures var r := RevokeLineage(t, token, now);
            && |NewlyRevoked(t, r)| <= 1
            && (forall id: SessionId :: id < |r| && DescendsFrom(r, id, token) ==> r[id].revokedAt.Some?)
            && (forall id: SessionId :: id < |t| && !DescendsFrom(t, id, token) ==> r[id] == t[id])
  {
    var r := RevokeLineage(t, token, now);
    var newly := NewlyRevoked(t, r);
    forall a, b | a in newly && b in newly ensures a == b {
      OneLivePerChain(t, token, a, b);
    }
    AtMostOne(newly);
    forall id: SessionId | id < |r| && DescendsFrom(r, id, token) ensures DescendsFrom(t, id, token) {
      var n: nat :| Nth(r, token, n) == Some(id);
      SameLinks(t, r, token, n);
    }
  }

  lemma AtMostOne(s: set<SessionId>)
    requires forall a, b :: a in s && b in s ==> a == b
    ensures |s| <= 1
  {
    if s != {} {
      var a :| a in s;
      assert s == {a};
    }
  }

  lemma {:induction false} SameLinks(t: Table, r: Table, id: SessionId, n: nat)
    requires |r| == |t| && forall k :: 0 <= k < |t| ==> r[k].replacedBy == t[k].replacedBy
    ensures Nth(r, id, n) == Nth(t, id, n)
    decreases n
  {
    if id < |t| && n > 0 && t[id].replacedBy.Some? {
      SameLinks(t, r, t[id].replacedBy.value, n - 1);
    }
  }

  /** Nothing on the chain from `token` can be exchanged any more. */
  ghost predicate DeadLineage(t: Table, token: SessionId)
  {
    token < |t| && forall n: nat :: Nth(t, token, n).Some? ==> t[Known(t, token, n)].revokedAt.Some?
  }

  ghost function Known(t: Table, id: SessionId, n: nat): (m: SessionId)
    requires Nth(t, id, n).Some?
    ensures m < |t| && m == Nth(t, id, n).value
  {
    NthIsKnown(t, id, n);
    Nth(t, id, n).value
  }

  /** Operations change no link of a session already revoked. */
  lemma RevokedSessionsKeepLinks(t: Table, op: Operation, id: SessionId)
    requires Chained(t) && id < |t| && t[id].revokedAt.Some?
    ensures id < |Apply(t, op)| && Apply(t, op)[id].revokedAt.Some?
         && Apply(t, op)[id].replacedBy == t[id].replacedBy
  {
  }

  lemma {:induction false} DeadLinksStay(t: Table, op: Operation, id: SessionId, n: nat)
    requires Chained(t) && DeadLineage(t, id)
    ensures Nth(Apply(t, op), id, n) == Nth(t, id, n)
    decreases n
  {
    assert Nth(t, id, 0) == Some(id);
    RevokedSessionsKeepLinks(t, op, id);
    if n > 0 && t[id].replacedBy.Some? {
      var next := t[id].replacedBy.value;
      forall k: nat | Nth(t, next, k).Some? ensures t[Known(t, next, k)].revokedAt.Some? {
        assert Nth(t, id, k + 1) == Nth(t, next, k);
        assert t[Known(t, id, k + 1)].revokedAt.Some?;
      }
      DeadLinksStay(t, op, next, n - 1);
    }
  }

  lemma DeadLineageStaysDead(t: Table, op: Operation, token: SessionId)
    requires Chained(t) && DeadLineage(t, token)
    ensures DeadLineage(Apply(t, op), token)
  {
    var r := Apply(t, op);
    assert Nth(t, token, 0) == Some(token);
    RevokedSessionsKeepLinks(t, op, token);
    forall n: nat | Nth(r, token, n).Some? ensures r[Known(r, token, n)].revokedAt.Some? {
      DeadLinksStay(t, op, token, n);
      RevokedSessionsKeepLinks(t, op, Known(t, token, n));
    }
  }

  /**
   * A replayed token ends its lineage for good: whatever is done afterwards, no token
   * that the replayed one leads to is ever exchanged again.
   */
  lemma {:induction false} ReplayEndsLineage(t: Table, token: SessionId, now: Time, ops: seq<Operation>)
    requires Chained(t) && RefreshAnswer(t, token, now, true) == ReuseDetected
    ensures var r := ApplyAll(RevokeLineage(t, token, now), ops);
            && Chained(r) && DeadLineage(r, token)
            && forall id: SessionId, later, active :: id < |r| && DescendsFrom(r, id, token) ==>
                 !RefreshAnswer(r, id, later, active).Rotated?
    decreases |ops|
  {
    var s := RevokeLineage(t, token, now);
    if ops == [] {
      RevokingKeepsChained(t, s);
      LineageRevocation(t, token, now);
      forall n: nat | Nth(s, token, n).Some? ensures s[Known(s, token, n)].revokedAt.Some? {
        assert DescendsFrom(s, Known(s, token, n), token);
      }
    } else {
      var init := ops[..|ops| - 1];
      ReplayEndsLineage(t, token, now, init);
      ApplyKeepsChained(ApplyAll(s, init), ops[|ops| - 1]);
      DeadLineageStaysDead(ApplyAll(s, init), ops[|ops| - 1], token);
    }
    var r := ApplyAll(s, ops);
    forall id: SessionId, later, active | id < |r| && DescendsFrom(r, id, token)
      ensures !RefreshAnswer(r, id, later, active).Rotated?
    {
      var n: nat :| Nth(r, token, n) == Some(id);
      assert r[Known(r, token, n)].revokedAt.Some?;
    }
  }

  /** Rotation hands the chain on: the old token is spent, the new one is live and last. */
  lemma RotationHandsOn(t: Table, token: SessionId, now: Time, active: bool, expiresAt: Time)
    requires Chained(t) && RefreshAnswer(t, token, now, active).Rotated?
    ensures var r, id := Rotate(t, token, now, expiresAt), RefreshAnswer(t, token, now, active).id;
            && id == |t| && Nth(r, token, 1) == Some(id)
            && r[id] == Session(t[token].user, t[token].organization, expiresAt, None, None)
            && RefreshAnswer(r, token, now, active) == ReuseDetected
            && forall other :: 0 <= other < |t| && other != token ==> r[other] == t[other]
  {
    var r := Rotate(t, token, now, expiresAt);
    assert r[token].replacedBy == Some(|t|) && |t| < |r|;
    assert Nth(r, |t|, 0) == Some(|t|);
  }

  // ------------------------------------------------------------------ who is served

  /** A token is exchanged if and only if it is known, live, not expired, and its user active. */
  lemma ExchangedExactlyWhen(t: Table, token: SessionId, now: Time, active: bool, expiresAt: Time)
    ensures |Apply(t, Refresh(token, now, active, expiresAt))| > |t|
            <==> token < |t| && t[token].revokedAt == None && now < t[token].expiresAt && active
    ensures |Apply(t, Refresh(token, now, active, expiresAt))| <= |t| + 1
  {
  }

  /** No operation moves a session's expiry, or the user it belongs to. */
  lemma {:induction false} ExpiryIsFixed(t: Table, ops: seq<Operation>, id: SessionId)
    requires id < |t|
    ensures var r := ApplyAll(t, ops);
            id < |r| && r[id].expiresAt == t[id].expiresAt && r[id].user == t[id].user
    decreases |ops|
  {
    if ops != [] {
      ExpiryIsFixed(t, ops[..|ops| - 1], id);
    }
  }

  /** Once a token's expiry has come, no refresh of it ever adds a session again. */
  lemma ExpiredIsNeverExchanged(
    t: Table, ops: seq<Operation>, token: SessionId, later: Time, active: bool, expiresAt: Time)
    requires token < |t| && t[token].expiresAt <= later
    ensures var r := ApplyAll(t, ops); |Apply(r, Refresh(token, later, active, expiresAt))| == |r|
  {
    ExpiryIsFixed(t, ops, token);
    var r := ApplyAll(t, ops);
    ExchangedExactlyWhen(r, token, later, active, expiresAt);
    RefreshOnlyAdds(r, token, later, active, expiresAt);
  }

  lemma RefreshOnlyAdds(t: Table, token: SessionId, now: Time, active: bool, expiresAt: Time)
    ensures |Apply(t, Refresh(token, now, active, expiresAt))| >= |t|
  {
  }

  /** A password reset leaves its user no live session, keeps dates set before, and touches no other. */
  lemma ResetEndsAllSessions(t: Table, user: UserId, now: Time, id: SessionId)
    requires id < |t|
    ensures var r := Apply(t, ResetPassword(user, now));
            && |r| == |t|
            && (t[id].user == user ==> r[id].revokedAt.Some?)
            && (t[id].user != user || t[id].revokedAt.Some? ==> r[id] == t[id])
  {
  }

  /** Logging out ends the session named, once, and no other. */
  lemma SignOutEndsSession(t: Table, token: SessionId, now: Time, id: SessionId)
    requires id < |t|
    ensures var r := Apply(t, SignOut(token, now));
            && |r| == |t|
            && (id == token ==> r[id].revokedAt.Some?)
            && (id != token || t[id].revokedAt.Some? ==> r[id] == t[id])
  {
  }

  /** Signing in adds one live session, last, that expires when it should. */
  lemma SignInAddsSession(t: Table, user: UserId, organization: OrganizationId, expiresAt: Time)
    ensures Apply(t, SignIn(user, organization, expiresAt))
         == t + [Session(user, organization, expiresAt, None, None)]
  {
  }

  /** Revoking a lineage keeps the dates of sessions revoked before. */
  lemma LineageKeepsDates(t: Table, token: SessionId, now: Time, id: SessionId)
    requires id < |t| && t[id].revokedAt.Some?
    ensures RevokeLineage(t, token, now)[id] == t[id]
  {
  }
}
