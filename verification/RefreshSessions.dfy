/**
 * Refresh-session rotation: `_issue_session`, `refresh`, `_revoke_session_lineage`,
 * `logout` and the revocation loop of `reset_password` in backend/app/auth/service.py.
 *
 * Session ids are the numbers 0, 1, 2, ... in order of issue, which stand for fresh
 * random ids; a session's token is named by its id, which stands for an injective hash.
 */
module RefreshSessions {
  import opened Wrappers

  type SessionId = nat
  type UserId = nat
  type OrganizationId = nat

  datatype Session = Session(
    user: UserId, organization: OrganizationId, expiresAt: Time,
    revokedAt: Option<Time>, replacedBy: Option<SessionId>)

  type Table = seq<Session>

  // ----------------------------------------------------------- chains

  /** The session `n` links on from `id`, if the chain is that long. */
  function Nth(t: Table, id: SessionId, n: nat): Option<SessionId>
    decreases n
  {
    if id >= |t| then None
    else if n == 0 then Some(id)
    else if t[id].replacedBy == None then None
    else Nth(t, t[id].replacedBy.value, n - 1)
  }

  ghost predicate DescendsFrom(t: Table, id: SessionId, ancestor: SessionId)
  {
    exists n: nat :: Nth(t, ancestor, n) == Some(id)
  }

  // ------------------------------------------------------- what a table is

  /**
   * Rotation's invariant: links lead from older to newer sessions of the same user,
   * no two to the same one, and only a session without a successor can be live.
   */
  ghost predicate Chained(t: Table)
  {
    && (forall id :: 0 <= id < |t| && t[id].replacedBy.Some? ==>
          var next := t[id].replacedBy.value;
          && id < next < |t|
          && t[next].user == t[id].user && t[next].organization == t[id].organization
          && t[id].revokedAt.Some?)
    && (forall a, b :: 0 <= a < b < |t| && t[a].replacedBy.Some? ==> t[a].replacedBy != t[b].replacedBy)
  }

  // ------------------------------------------------------------- operations

  function Issue(t: Table, user: UserId, organization: OrganizationId, expiresAt: Time): Table
  {
    t + [Session(user, organization, expiresAt, None, None)]
  }

  datatype Answer = Refused | ReuseDetected | Rotated(id: SessionId)

  /** `active`: the user is active and still a member when the token is presented. */
  function RefreshAnswer(t: Table, token: SessionId, now: Time, active: bool): Answer
  {
    if token >= |t| then Refused
    else if t[token].revokedAt.Some? && t[token].replacedBy.Some? then ReuseDetected
    else if t[token].revokedAt.Some? || t[token].expiresAt <= now || !active then Refused
    else Rotated(|t|)
  }

  function Rotate(t: Table, token: SessionId, now: Time, expiresAt: Time): Table
    requires token < |t|
  {
    Issue(t[token := t[token].(revokedAt := Some(now), replacedBy := Some(|t|))],
          t[token].user, t[token].organization, expiresAt)
  }

  function Logout(t: Table, token: SessionId, now: Time): Table
  {
    if token < |t| && t[token].revokedAt == None then t[token := t[token].(revokedAt := Some(now))] else t
  }

  function RevokeUser(t: Table, user: UserId, now: Time): Table
  {
    seq(|t|, id requires 0 <= id < |t| =>
      if t[id].user == user && t[id].revokedAt == None then t[id].(revokedAt := Some(now)) else t[id])
  }

  /** Everything reachable from `start` is revoked, old dates kept; nothing else moves. */
  ghost function RevokeLineage(t: Table, start: SessionId, now: Time): Table
  {
    seq(|t|, id requires 0 <= id < |t| =>
      if DescendsFrom(t, id, start) && t[id].revokedAt == None then t[id].(revokedAt := Some(now)) else t[id])
  }

  // -------------------------------------------------------------- the class

  class AuthService {
    var sessions: Table

    constructor ()
      ensures sessions == []
    {
      sessions := [];
    }

    method IssueSession(user: UserId, organization: OrganizationId, expiresAt: Time) returns (id: SessionId)
      modifies this
      ensures id == |old(sessions)| && sessions == Issue(old(sessions), user, organization, expiresAt)
    {
      id := |sessions|;
      sessions := sessions + [Session(user, organization, expiresAt, None, None)];
    }

    /**
     * The chain walk. On any table at all, cycles included, it stops, and has revoked
     * exactly the unrevoked sessions reachable from the one it was given.
     */
    method RevokeSessionLineage(start: SessionId, now: Time) returns (revoked: nat)
      requires start < |sessions|
      modifies this
      ensures sessions == RevokeLineage(old(sessions), start, now)
      ensures revoked == |NewlyRevoked(old(sessions), sessions)|
    {
      revoked := 0;
      var seen: set<SessionId> := {};
      var current: Option<SessionId> := Some(start);
      ghost var t, n := sessions, 0;
      while current.Some? && current.value !in seen
        invariant Marching(t, sessions, start, n, seen, current, revoked, now)
        decreases Below(|t|) - seen
      {
        var id := current.value;
        MarchOn(t, sessions, start, n, seen, id, revoked, now);
        seen := seen + {id};
        if sessions[id].revokedAt == None {
          sessions := sessions[id := sessions[id].(revokedAt := Some(now))];
          revoked := revoked + 1;
        }
        var nextId := sessions[id].replacedBy;
        current := if nextId.Some? && nextId.value < |sessions| then nextId else None;
        n := n + 1;
      }
      WalkRevokesLineage(t, start, n, seen, current, now);
    }

    method Refresh(token: SessionId, now: Time, active: bool, expiresAt: Time) returns (answer: Answer)
      modifies this
      ensures answer == RefreshAnswer(old(sessions), token, now, active)
      ensures match answer
        case Refused => sessions == old(sessions)
        case ReuseDetected => sessions == RevokeLineage(old(sessions), token, now)
        case Rotated(id) => token < |old(sessions)| && sessions == Rotate(old(sessions), token, now, expiresAt)
    {
      if token >= |sessions| {
        return Refused;
      }
      if sessions[token].revokedAt.Some? && sessions[token].replacedBy.Some? {
        var _ := RevokeSessionLineage(token, now);
        return ReuseDetected;
      }
      if sessions[token].revokedAt.Some? || sessions[token].expiresAt <= now {
        return Refused;
      }
      if !active {
        return Refused;
      }
      var record := sessions[token];
      sessions := sessions[token := record.(revokedAt := Some(now))];
      var id := IssueSession(record.user, record.organization, expiresAt);
      sessions := sessions[token := sessions[token].(replacedBy := Some(id))];
      assert sessions == Rotate(old(sessions), token, now, expiresAt);
      return Rotated(id);
    }

    method EndSession(token: Option<SessionId>, now: Time)
      modifies this
      ensures sessions == if token.Some? then Logout(old(sessions), token.value, now) else old(sessions)
    {
      if token == None {
        return;
      }
      if token.value < |sessions| && sessions[token.value].revokedAt == None {
        sessions := sessions[token.value := sessions[token.value].(revokedAt := Some(now))];
      }
    }

    /** The loop of `reset_password` over one user's live sessions. */
    method RevokeAll(user: UserId, now: Time)
      modifies this
      ensures sessions == RevokeUser(old(sessions), user, now)
    {
      ghost var t := sessions;
      for id := 0 to |sessions|
        invariant |sessions| == |t|
        invariant forall k :: id <= k < |t| ==> sessions[k] == t[k]
        invariant forall k :: 0 <= k < id ==> sessions[k] == RevokeUser(t, user, now)[k]
      {
        if sessions[id].user == user && sessions[id].revokedAt == None {
          sessions := sessions[id := sessions[id].(revokedAt := Some(now))];
        }
      }
    }
  }

  function Below(n: nat): (ids: set<SessionId>)
    ensures forall id: SessionId :: id in ids <==> id < n
  {
    if n == 0 then {} else Below(n - 1) + {n - 1}
  }

  /** The sessions on the first `n` places of the chain from `start`. */
  function Visited(t: Table, start: SessionId, n: nat): set<SessionId>
  {
    if n == 0 then {} else Visited(t, start, n - 1) + match Nth(t, start, n - 1) case None => {} case Some(id) => {id}
  }

  lemma {:induction false} VisitedAreNth(t: Table, start: SessionId, n: nat, id: SessionId)
    ensures id in Visited(t, start, n) <==> exists k: nat :: k < n && Nth(t, start, k) == Some(id)
  {
    if n > 0 {
      VisitedAreNth(t, start, n - 1, id);
      var last: nat := n - 1;
      if Nth(t, start, last) == Some(id) {
        assert exists k: nat :: k < n && Nth(t, start, k) == Some(id);
        assert id in Visited(t, start, n);
      } else if id in Visited(t, start, last) {
        var k: nat :| k < last && Nth(t, start, k) == Some(id);
        assert exists k: nat :: k < n && Nth(t, start, k) == Some(id);
        assert id in Visited(t, start, n);
      } else {
        forall k: nat | k < n ensures Nth(t, start, k) != Some(id) {
          assert k == last || k < last;
        }
        assert id !in Visited(t, start, n);
      }
    }
  }

  function RevokeIn(t: Table, ids: set<SessionId>, now: Time): Table
  {
    seq(|t|, id requires 0 <= id < |t| =>
      if id in ids && t[id].revokedAt == None then t[id].(revokedAt := Some(now)) else t[id])
  }

  function Live(t: Table, ids: set<SessionId>): set<SessionId>
  {
    set id | id in ids && id < |t| && t[id].revokedAt == None
  }

  function NewlyRevoked(t: Table, r: Table): set<SessionId>
  {
    set id | id in Below(|t|) && id < |r| && t[id].revokedAt == None && r[id].revokedAt.Some?
  }

  lemma RevokeOneMore(t: Table, ids: set<SessionId>, id: SessionId, now: Time)
    requires id < |t| && id !in ids
    ensures var r, r' := RevokeIn(t, ids, now), RevokeIn(t, ids + {id}, now);
            && r[id] == t[id]
            && if t[id].revokedAt == None
               then r' == r[id := r[id].(revokedAt := Some(now))] && |Live(t, ids + {id})| == |Live(t, ids)| + 1
               else r' == r && |Live(t, ids + {id})| == |Live(t, ids)|
  {
    assert Live(t, ids + {id}) == if t[id].revokedAt == None then Live(t, ids) + {id} else Live(t, ids);
  }

  /** After `n` steps the walk has seen the chain's first `n` places and stands on the next. */
  ghost predicate Walked(t: Table, start: SessionId, n: nat, seen: set<SessionId>, current: Option<SessionId>)
  {
    && seen == Visited(t, start, n) && current == Nth(t, start, n)
    && forall k: nat :: k < n ==> Nth(t, start, k).Some?
  }

  lemma WalkOn(t: Table, start: SessionId, n: nat, seen: set<SessionId>, id: SessionId)
    requires Walked(t, start, n, seen, Some(id))
    ensures id < |t|
    ensures var next := t[id].replacedBy;
            Walked(t, start, n + 1, seen + {id}, if next.Some? && next.value < |t| then next else None)
  {
    NthIsKnown(t, start, n);
    NthNext(t, start, n);
  }

  /** What the loop of the chain walk keeps: the sessions seen are the ones revoked. */
  ghost predicate Marching(
    t: Table, r: Table, start: SessionId, n: nat, seen: set<SessionId>, current: Option<SessionId>,
    revoked: nat, now: Time)
  {
    && Walked(t, start, n, seen, current) && seen <= Below(|t|)
    && r == RevokeIn(t, seen, now) && revoked == |Live(t, seen)|
  }

  /** One turn of the loop. */
  lemma MarchOn(
    t: Table, r: Table, start: SessionId, n: nat, seen: set<SessionId>, id: SessionId, revoked: nat, now: Time)
    requires Marching(t, r, start, n, seen, Some(id), revoked, now) && id !in seen
    ensures id < |t| && |r| == |t| && r[id] == t[id] && Below(|t|) - (seen + {id}) < Below(|t|) - seen
    ensures var next := t[id].replacedBy;
            var live := t[id].revokedAt == None;
            Marching(t, if live then r[id := r[id].(revokedAt := Some(now))] else r, start, n + 1, seen + {id},
                     if next.Some? && next.value < |t| then next else None,
                     if live then revoked + 1 else revoked, now)
  {
    WalkOn(t, start, n, seen, id);
    RevokeOneMore(t, seen, id, now);
    assert id in Below(|t|);
  }

  lemma WalkRevokesLineage(
    t: Table, start: SessionId, n: nat, seen: set<SessionId>, current: Option<SessionId>, now: Time)
    requires Walked(t, start, n, seen, current) && (current == None || current.value in seen)
    ensures RevokeIn(t, seen, now) == RevokeLineage(t, start, now)
    ensures Live(t, seen) == NewlyRevoked(t, RevokeIn(t, seen, now))
  {
    if current.Some? {
      VisitedAreNth(t, start, n, current.value);
      var k: nat :| k < n && Nth(t, start, k) == current;
    }
    forall id: SessionId | id < |t| ensures DescendsFrom(t, id, start) <==> id in seen {
      VisitedAreNth(t, start, n, id);
      WalkIsComplete(t, start, n, id);
    }
  }

  // ------------------------------------------------------ facts about chains

  lemma {:induction false} NthIsKnown(t: Table, id: SessionId, n: nat)
    ensures Nth(t, id, n).Some? ==> Nth(t, id, n).value < |t|
    decreases n
  {
    if id < |t| && n > 0 && t[id].replacedBy.Some? {
      NthIsKnown(t, t[id].replacedBy.value, n - 1);
    }
  }

  /** One more link. */
  lemma {:induction false} NthNext(t: Table, id: SessionId, n: nat)
    ensures Nth(t, id, n + 1)
         == match Nth(t, id, n)
            case None => None
            case Some(m) =>
              if m < |t| && t[m].replacedBy.Some? && t[m].replacedBy.value < |t| then t[m].replacedBy else None
    decreases n
  {
    if id < |t| && t[id].replacedBy.Some? {
      if n > 0 {
        NthNext(t, t[id].replacedBy.value, n - 1);
      }
    }
  }

  lemma {:induction false} NthAdd(t: Table, id: SessionId, m: nat, n: nat)
    requires Nth(t, id, m).Some?
    ensures Nth(t, id, m + n) == Nth(t, Nth(t, id, m).value, n)
    decreases m
  {
    if m > 0 {
      NthAdd(t, t[id].replacedBy.value, m - 1, n);
    }
  }

  /** A walk that met the end or a session seen before has met every descendant. */
  lemma WalkIsComplete(t: Table, start: SessionId, n: nat, id: SessionId)
    requires forall k: nat :: k < n ==> Nth(t, start, k).Some?
    requires Nth(t, start, n).None? || exists k: nat :: k < n && Nth(t, start, k) == Nth(t, start, n)
    ensures DescendsFrom(t, id, start) <==> exists k: nat :: k < n && Nth(t, start, k) == Some(id)
  {
    if DescendsFrom(t, id, start) {
      var m: nat :| Nth(t, start, m) == Some(id);
      WalkFindsNth(t, start, n, m);
    }
  }

  lemma {:induction false} WalkFindsNth(t: Table, start: SessionId, n: nat, m: nat)
    requires Nth(t, start, m).Some?
    requires Nth(t, start, n).None? || exists k: nat :: k < n && Nth(t, start, k) == Nth(t, start, n)
    ensures exists k: nat :: k < n && Nth(t, start, k) == Nth(t, start, m)
    decreases m
  {
    if m >= n {
      if Nth(t, start, n).None? {
        NoneStays(t, start, n, m - n);
        assert false;
      }
      var k: nat :| k < n && Nth(t, start, k) == Nth(t, start, n);
      NthAdd(t, start, n, m - n);
      NthAdd(t, start, k, m - n);
      WalkFindsNth(t, start, n, k + m - n);
    }
  }

  lemma {:induction false} NoneStays(t: Table, start: SessionId, n: nat, d: nat)
    requires Nth(t, start, n).None?
    ensures Nth(t, start, n + d).None?
    decreases d
  {
    if d > 0 {
      NoneStays(t, start, n, d - 1);
      NthNext(t, start, n + d - 1);
    }
  }
}
