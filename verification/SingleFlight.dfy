/**
 * One page of the browser against the server: `withRefreshRetry`, `refreshSession`
 * and `performRefresh` of frontend/src/lib/http.ts, with the rotation of module
 * RefreshSessions at the other end. A step is what happens between two awaits.
 */
module SingleFlight {
  import opened Wrappers
  import opened RefreshSessions
  import opened RefreshTheorems

  // ---------------------------------------------------------------- the state

  datatype Result = Success | OtherError | SessionExpired

  /** Where one `withRefreshRetry` call stands. */
  datatype Phase = Trying | Waiting | Retrying | Finished(result: Result)

  /** `attempts` thunk calls made, `refreshes` requested or joined. */
  datatype Call = Call(phase: Phase, attempts: nat, refreshes: nat)

  /** A refresh request on the network, or its answer: the new cookie, if it was rotated. */
  datatype Request =
    | Sent(token: Option<SessionId>)
    | Answered(token: Option<SessionId>, rotated: Option<SessionId>)

  /**
   * `refreshInFlight` is the module variable, `network` every refresh request not yet
   * settled, `cookie` the browser's refresh cookie, `mine` the tokens this browser
   * was ever given, `lost` those whose rotation it never heard of, `reuses` how often
   * the server detected a reuse from it.
   */
  datatype State = State(
    table: Table, cookie: Option<SessionId>, mine: set<SessionId>, lost: set<SessionId>,
    refreshInFlight: bool, network: seq<Request>, calls: seq<Call>, signedIn: bool, reuses: nat)

  datatype Event =
    | Begin
    | PageRefreshes
    | AttemptEnds(call: nat, unauthorized: bool, ok: bool)
    | ServerRefreshes(request: nat, now: Time, active: bool, expiresAt: Time)
    | RequestFails(request: nat)
    | ResponseArrives(request: nat, readable: bool, cleared: bool)
    | ResponseIsLost(request: nat)
    | PageSignsIn(user: UserId, organization: OrganizationId, expiresAt: Time)
    | PageSignsOut(now: Time)
    | Elsewhere(op: Operation)

  // ------------------------------------------------------------------- steps

  /** Other devices present other tokens; the page may sign in or out even as it refreshes. */
  predicate Enabled(s: State, e: Event)
  {
    match e
    case Begin => true
    case PageRefreshes => true
    case AttemptEnds(c, _, _) => c < |s.calls| && (s.calls[c].phase == Trying || s.calls[c].phase == Retrying)
    case ServerRefreshes(k, _, _, _) => k < |s.network| && s.network[k].Sent?
    case RequestFails(k) => k < |s.network| && s.network[k].Sent?
    case ResponseArrives(k, _, _) => k < |s.network| && s.network[k].Answered?
    case ResponseIsLost(k) => k < |s.network| && s.network[k].Answered?
    case PageSignsIn(_, _, _) => true
    case PageSignsOut(_) => true
    case Elsewhere(op) => op.Refresh? ==> op.token !in s.mine
  }

  /** `refreshInFlight ??= performRefresh()`: only the first caller sends a request. */
  function JoinRefresh(s: State): State
  {
    if s.refreshInFlight then s
    else s.(refreshInFlight := true, network := s.network + [Sent(s.cookie)])
  }

  /** The shared promise settles: every waiting call retries, or gives up. */
  function Settle(call: Call, refreshed: bool): Call
  {
    if call.phase != Waiting then call
    else if refreshed then call.(phase := Retrying, attempts := call.attempts + 1)
    else call.(phase := Finished(SessionExpired))
  }

  function SettleAll(calls: seq<Call>, refreshed: bool): (settled: seq<Call>)
    ensures |settled| == |calls|
  {
    seq(|calls|, i requires 0 <= i < |calls| => Settle(calls[i], refreshed))
  }

  function RefreshEnds(s: State, request: nat, refreshed: bool): State
    requires request < |s.network|
  {
    s.(refreshInFlight := false,
       network := s.network[..request] + s.network[request + 1..],
       calls := SettleAll(s.calls, refreshed),
       signedIn := refreshed)
  }

  ghost function Step(s: State, e: Event): State
    requires Enabled(s, e)
  {
    match e
    case PageRefreshes => JoinRefresh(s)
    case Begin => s.(calls := s.calls + [Call(Trying, 1, 0)])
    case AttemptEnds(c, unauthorized, ok) =>
      var call := s.calls[c];
      if !unauthorized then s.(calls := s.calls[c := call.(phase := Finished(if ok then Success else OtherError))])
      else if call.phase == Trying then
        JoinRefresh(s.(calls := s.calls[c := call.(phase := Waiting, refreshes := call.refreshes + 1)]))
      else s.(calls := s.calls[c := call.(phase := Finished(SessionExpired))], signedIn := false)
    case ServerRefreshes(k, now, active, expiresAt) =>
      (match s.network[k].token
       case None => s.(network := s.network[k := Answered(None, None)])
       case Some(token) =>
         var answer := RefreshAnswer(s.table, token, now, active);
         s.(table := Apply(s.table, Refresh(token, now, active, expiresAt)),
            network := s.network[k := Answered(Some(token), if answer.Rotated? then Some(answer.id) else None)],
            mine := if answer.Rotated? then s.mine + {answer.id} else s.mine,
            reuses := s.reuses + if answer == ReuseDetected then 1 else 0))
    case RequestFails(k) => RefreshEnds(s, k, false)
    case ResponseArrives(k, readable, cleared) =>
      // A rotation replaces the cookie; a refusal may clear it or leave it.
      var rotated := s.network[k].rotated;
      RefreshEnds(s, k, rotated.Some? && readable).(
        cookie := if rotated.Some? then rotated else if cleared then None else s.cookie)
    case ResponseIsLost(k) =>
      // The cookie stays as it was; if the token was rotated, it is spent.
      var request := s.network[k];
      RefreshEnds(s, k, false).(
        lost := if request.rotated.Some? && request.token.Some? then s.lost + {request.token.value} else s.lost)
    case PageSignsIn(user, organization, expiresAt) =>
      s.(table := Issue(s.table, user, organization, expiresAt), cookie := Some(|s.table|),
         mine := s.mine + {|s.table|}, signedIn := true)
    case PageSignsOut(now) =>
      s.(table := if s.cookie.Some? then Logout(s.table, s.cookie.value, now) else s.table,
         cookie := None, signedIn := false)
    case Elsewhere(op) => s.(table := Apply(s.table, op))
  }

  // --------------------------------------------------------------- invariant

  predicate CallOk(s: State, call: Call)
  {
    match call.phase
    case Trying => call.attempts == 1 && call.refreshes == 0
    case Waiting => call.attempts == 1 && call.refreshes == 1 && s.refreshInFlight
    case Retrying => call.attempts == 2 && call.refreshes == 1
    case Finished(_) => call.attempts <= 2 && call.refreshes <= 1
  }

  /** The last session of its chain, and one this browser was given. */
  predicate Last(s: State, token: SessionId)
  {
    token in s.mine && token < |s.table| && s.table[token].replacedBy == None
  }

  /** A token rotated away by the server without the browser hearing of it. */
  predicate Spent(s: State, token: SessionId)
  {
    token in s.lost && token < |s.table| && s.table[token].replacedBy.Some?
  }

  predicate Held(s: State, token: SessionId)
  {
    Last(s, token) || Spent(s, token)
  }

  /** What the browser presents ends its chain, or was lost. */
  predicate CookieOk(s: State)
  {
    if s.network == [] then s.cookie.Some? ==> Held(s, s.cookie.value)
    else
      match s.network[0]
      case Sent(token) => (token.Some? ==> Held(s, token.value)) && (s.cookie.Some? ==> Held(s, s.cookie.value))
      case Answered(_, None) => s.cookie.Some? ==> Held(s, s.cookie.value)
      case Answered(token, Some(next)) =>
        && Last(s, next) && token.Some? && token.value < |s.table| && s.table[token.value].replacedBy.Some?
        && (s.cookie.Some? ==> s.cookie == token || Held(s, s.cookie.value))
  }

  ghost predicate TokensOk(s: State)
  {
    && Chained(s.table)
    && CookieOk(s)
    && (forall id :: id in s.mine ==> id < |s.table|)
    && (forall id :: id in s.lost ==> Spent(s, id))
    && (s.lost == {} ==> s.reuses == 0)
  }

  ghost predicate CallsOk(s: State)
  {
    && |s.network| == (if s.refreshInFlight then 1 else 0)
    && (forall i :: 0 <= i < |s.calls| ==> CallOk(s, s.calls[i]))
  }

  ghost predicate Inv(s: State)
  {
    TokensOk(s) && CallsOk(s)
  }

  ghost predicate Initial(s: State)
  {
    && Chained(s.table) && (s.cookie.Some? ==> Last(s, s.cookie.value))
    && (forall id :: id in s.mine ==> id < |s.table|)
    && !s.refreshInFlight && s.network == [] && s.calls == [] && s.reuses == 0 && s.lost == {}
  }

  /** An operation that does not present a token leaves it without a successor. */
  lemma OthersLeaveLast(t: Table, op: Operation, token: SessionId)
    requires Chained(t) && token < |t| && t[token].replacedBy == None
    requires op.Refresh? ==> op.token != token
    ensures |Apply(t, op)| >= |t| && Apply(t, op)[token].replacedBy == None
  {
  }

  lemma TableOnlyGrows(t: Table, op: Operation)
    ensures |Apply(t, op)| >= |t|
  {
  }

  /** Whatever is done to the table, what the browser lost stays spent, and the rest last. */
  lemma TokensKeep(s: State, r: State, op: Operation)
    requires Chained(s.table) && r.table == Apply(s.table, op) && s.mine <= r.mine && r.lost == s.lost
    ensures forall token :: Spent(s, token) ==> Spent(r, token)
    ensures forall token :: Last(s, token) && (op.Refresh? ==> op.token != token) ==> Last(r, token)
  {
    TableOnlyGrows(s.table, op);
    forall token | Spent(s, token) ensures Spent(r, token) {
      RevokedSessionsKeepLinks(s.table, op, token);
    }
    forall token | Last(s, token) && (op.Refresh? ==> op.token != token) ensures Last(r, token) {
      OthersLeaveLast(s.table, op, token);
    }
  }

  /**
   * The reuse branch fires for a token of this browser if and only if the browser never
   * heard of that token's rotation.
   */
  lemma ReuseExactlyAfterLoss(s: State, token: SessionId, now: Time, active: bool)
    requires Inv(s) && s.network != [] && s.network[0] == Sent(Some(token))
    ensures RefreshAnswer(s.table, token, now, active) == ReuseDetected <==> token in s.lost
  {
  }

  lemma SameCalls(s: State, r: State)
    requires CallsOk(s)
    requires r.calls == s.calls && r.refreshInFlight == s.refreshInFlight && |r.network| == |s.network|
    ensures CallsOk(r)
  {
    forall i | 0 <= i < |r.calls| ensures CallOk(r, r.calls[i]) {
      assert CallOk(s, s.calls[i]);
    }
  }

  lemma SameTokens(s: State, r: State)
    requires TokensOk(s) && r == s.(calls := r.calls, signedIn := r.signedIn)
    ensures TokensOk(r)
  {
  }

  /** A rotation: the new token is on its way, whatever else the browser holds is kept. */
  lemma RotationKeepsTokens(s: State, e: Event, token: SessionId)
    requires e.ServerRefreshes? && Enabled(s, e) && Inv(s) && s.network[0] == Sent(Some(token))
    requires RefreshAnswer(s.table, token, e.now, e.active).Rotated?
    ensures TokensOk(Step(s, e))
  {
    var op := Refresh(token, e.now, e.active, e.expiresAt);
    ApplyKeepsChained(s.table, op);
    TokensKeep(s, Step(s, e), op);
  }

  lemma RefusalKeepsTokens(s: State, e: Event, token: SessionId)
    requires e.ServerRefreshes? && Enabled(s, e) && Inv(s) && s.network[0] == Sent(Some(token))
    requires !RefreshAnswer(s.table, token, e.now, e.active).Rotated?
    ensures TokensOk(Step(s, e))
  {
    var op, r := Refresh(token, e.now, e.active, e.expiresAt), Step(s, e);
    ReuseExactlyAfterLoss(s, token, e.now, e.active);
    ApplyKeepsChained(s.table, op);
    TokensKeep(s, r, op);
    assert Last(s, token) ==> Last(r, token);
  }

  lemma NothingPresentedKeepsTokens(s: State, e: Event)
    requires e.ServerRefreshes? && Enabled(s, e) && Inv(s) && s.network[0] == Sent(None)
    ensures TokensOk(Step(s, e))
  {
  }

  lemma ServerStepKeepsInv(s: State, e: Event)
    requires e.ServerRefreshes? && Enabled(s, e) && Inv(s)
    ensures Inv(Step(s, e))
  {
    match s.network[0].token {
      case None => NothingPresentedKeepsTokens(s, e);
      case Some(token) =>
        if RefreshAnswer(s.table, token, e.now, e.active).Rotated? {
          RotationKeepsTokens(s, e, token);
        } else {
          RefusalKeepsTokens(s, e, token);
        }
    }
    SameCalls(s, Step(s, e));
  }

  lemma ElsewhereKeepsTokens(s: State, e: Event)
    requires e.Elsewhere? && Enabled(s, e) && TokensOk(s)
    ensures TokensOk(Step(s, e))
  {
    ApplyKeepsChained(s.table, e.op);
    TokensKeep(s, Step(s, e), e.op);
  }

  lemma SignInKeepsInv(s: State, e: Event)
    requires e.PageSignsIn? && Enabled(s, e) && Inv(s)
    ensures Inv(Step(s, e))
  {
    var op := SignIn(e.user, e.organization, e.expiresAt);
    ApplyKeepsChained(s.table, op);
    TokensKeep(s, Step(s, e), op);
    assert Last(Step(s, e), |s.table|);
  }

  lemma SignOutKeepsInv(s: State, e: Event)
    requires e.PageSignsOut? && Enabled(s, e) && Inv(s)
    ensures Inv(Step(s, e))
  {
    if s.cookie.Some? {
      var op := SignOut(s.cookie.value, e.now);
      ApplyKeepsChained(s.table, op);
      TokensKeep(s, Step(s, e), op);
    }
  }

  /** Joining presents the cookie as it is, and only if no request is out. */
  lemma JoinKeepsTokens(s: State, r: State)
    requires TokensOk(s) && |s.network| == (if s.refreshInFlight then 1 else 0)
    requires r == JoinRefresh(s)
    ensures TokensOk(r) && |r.network| == 1 && r.refreshInFlight
  {
  }

  lemma BeginKeepsInv(s: State, e: Event)
    requires (e.Begin? || e.PageRefreshes?) && Enabled(s, e) && Inv(s)
    ensures Inv(Step(s, e))
  {
    var r := Step(s, e);
    if e.PageRefreshes? {
      JoinKeepsTokens(s, r);
    }
    forall i | 0 <= i < |r.calls| ensures CallOk(r, r.calls[i]) {
      assert i < |s.calls| ==> CallOk(s, s.calls[i]);
    }
  }

  lemma AttemptKeepsTokens(s: State, e: Event)
    requires e.AttemptEnds? && Enabled(s, e) && Inv(s)
    ensures TokensOk(Step(s, e))
  {
    var call := s.calls[e.call];
    if e.unauthorized && call.phase == Trying {
      var waiting := s.(calls := s.calls[e.call := call.(phase := Waiting, refreshes := call.refreshes + 1)]);
      SameTokens(s, waiting);
      JoinKeepsTokens(waiting, Step(s, e));
    } else {
      SameTokens(s, Step(s, e));
    }
  }

  lemma AttemptKeepsCalls(s: State, e: Event)
    requires e.AttemptEnds? && Enabled(s, e) && CallsOk(s)
    ensures CallsOk(Step(s, e))
  {
    var r := Step(s, e);
    forall i | 0 <= i < |r.calls| ensures CallOk(r, r.calls[i]) {
      assert CallOk(s, s.calls[i]);
    }
  }

  lemma EndStepKeepsInv(s: State, e: Event)
    requires (e.RequestFails? || e.ResponseArrives? || e.ResponseIsLost?) && Enabled(s, e) && Inv(s)
    ensures Inv(Step(s, e))
  {
    var r := Step(s, e);
    assert r.network == [];
    forall i | 0 <= i < |r.calls| ensures CallOk(r, r.calls[i]) {
      assert CallOk(s, s.calls[i]);
    }
  }

  lemma StepKeepsInv(s: State, e: Event)
    requires Enabled(s, e) && Inv(s)
    ensures Inv(Step(s, e))
  {
    match e
    case ServerRefreshes(_, _, _, _) => ServerStepKeepsInv(s, e);
    case Elsewhere(_) =>
      ElsewhereKeepsTokens(s, e);
      SameCalls(s, Step(s, e));
    case PageSignsIn(_, _, _) => SignInKeepsInv(s, e);
    case PageSignsOut(_) => SignOutKeepsInv(s, e);
    case RequestFails(_) => EndStepKeepsInv(s, e);
    case ResponseArrives(_, _, _) => EndStepKeepsInv(s, e);
    case ResponseIsLost(_) => EndStepKeepsInv(s, e);
    case AttemptEnds(_, _, _) =>
      AttemptKeepsTokens(s, e);
      AttemptKeepsCalls(s, e);
    case _ => BeginKeepsInv(s, e);
  }

  // -------------------------------------------------------------------- runs

  /** `None` when some event was not enabled. */
  ghost function Run(s: State, events: seq<Event>): Option<State>
  {
    if events == [] then Some(s)
    else
      match Run(s, events[..|events| - 1])
      case None => None
      case Some(t) => if Enabled(t, events[|events| - 1]) then Some(Step(t, events[|events| - 1])) else None
  }

  ghost predicate NoneLost(events: seq<Event>)
  {
    forall i :: 0 <= i < |events| ==> !events[i].ResponseIsLost?
  }

  lemma OnlyLossLoses(s: State, e: Event)
    requires Enabled(s, e) && !e.ResponseIsLost?
    ensures Step(s, e).lost == s.lost
  {
  }

  lemma {:induction false} EveryRunKeepsInv(s: State, events: seq<Event>)
    requires Initial(s) && Run(s, events).Some?
    ensures Inv(Run(s, events).value) && (NoneLost(events) ==> Run(s, events).value.lost == {})
    decreases |events|
  {
    if events != [] {
      var n := |events| - 1;
      EveryRunKeepsInv(s, events[..n]);
      var before := Run(s, events[..n]).value;
      StepKeepsInv(before, events[n]);
      if !events[n].ResponseIsLost? {
        OnlyLossLoses(before, events[n]);
      }
    }
  }

  /**
   * Client and server together, under any interleaving: at most one refresh is
   * outstanding, the token it presents is the last of its chain unless its rotation was
   * lost, and each call makes at most two attempts and one refresh or join. If no answer
   * is lost, the server never sees a reuse.
   */
  lemma SingleFlightIsSafe(s: State, events: seq<Event>)
    requires Initial(s) && Run(s, events).Some?
    ensures var r := Run(s, events).value;
            && Inv(r)
            && |r.network| <= 1
            && (forall k :: 0 <= k < |r.network| && r.network[k].Sent? && r.network[k].token.Some? ==>
                  Held(r, r.network[k].token.value))
            && (forall i :: 0 <= i < |r.calls| ==> r.calls[i].attempts <= 2 && r.calls[i].refreshes <= 1)
            && (NoneLost(events) ==> r.reuses == 0 && r.lost == {})
  {
    EveryRunKeepsInv(s, events);
    InvIsSafe(Run(s, events).value);
  }

  lemma InvIsSafe(r: State)
    requires Inv(r)
    ensures |r.network| <= 1
    ensures forall k :: 0 <= k < |r.network| && r.network[k].Sent? && r.network[k].token.Some? ==>
              Held(r, r.network[k].token.value)
    ensures forall i :: 0 <= i < |r.calls| ==> r.calls[i].attempts <= 2 && r.calls[i].refreshes <= 1
  {
    forall i | 0 <= i < |r.calls| ensures r.calls[i].attempts <= 2 && r.calls[i].refreshes <= 1 {
      assert CallOk(r, r.calls[i]);
    }
  }

  /**
   * A rotation that the page can read renews the session: every call that waited for it
   * makes its second attempt, no other call is touched, and the new cookie is held.
   */
  lemma RefreshedCallsRetry(s: State, e: Event, i: nat)
    requires e.ResponseArrives? && Enabled(s, e) && s.network[e.request].rotated.Some? && e.readable
    requires i < |s.calls|
    ensures var r := Step(s, e);
            && r.signedIn && r.cookie == s.network[e.request].rotated && |r.calls| == |s.calls|
            && (s.calls[i].phase == Waiting ==>
                  r.calls[i].phase == Retrying && r.calls[i].attempts == s.calls[i].attempts + 1)
            && (s.calls[i].phase != Waiting ==> r.calls[i] == s.calls[i])
  {
  }

  /** A refresh that fails, is refused, unreadable or lost ends the session and every call that waited. */
  lemma UnrefreshedCallsExpire(s: State, e: Event, i: nat)
    requires Enabled(s, e) && i < |s.calls|
    requires e.RequestFails? || e.ResponseIsLost?
             || (e.ResponseArrives? && (s.network[e.request].rotated == None || !e.readable))
    ensures var r := Step(s, e);
            && !r.signedIn && |r.calls| == |s.calls|
            && (s.calls[i].phase == Waiting ==> r.calls[i] == s.calls[i].(phase := Finished(SessionExpired)))
            && (s.calls[i].phase != Waiting ==> r.calls[i] == s.calls[i])
  {
  }

  /** The first 401 of a call makes it wait for a refresh, its own or one under way. */
  lemma FirstUnauthorizedWaits(s: State, e: Event)
    requires e.AttemptEnds? && Enabled(s, e) && Inv(s) && e.unauthorized && s.calls[e.call].phase == Trying
    ensures var r := Step(s, e);
            && r.calls[e.call].phase == Waiting && r.refreshInFlight
            && (s.refreshInFlight ==> r.network == s.network)
            && (!s.refreshInFlight ==> r.network == s.network + [Sent(s.cookie)])
  {
  }

  /** A second 401 is not refreshed again: the call and the page's session are over. */
  lemma SecondUnauthorizedExpires(s: State, e: Event)
    requires e.AttemptEnds? && Enabled(s, e) && e.unauthorized && s.calls[e.call].phase == Retrying
    ensures var r := Step(s, e);
            r.calls[e.call].phase == Finished(SessionExpired) && !r.signedIn && r.network == s.network
  {
  }

  /** A call succeeds, or fails otherwise, only as its own attempt did, and then stays so. */
  lemma CallsEndAsTheirAttempts(s: State, e: Event, i: nat, result: Result)
    requires Enabled(s, e) && i < |s.calls| && (result == Success || result == OtherError)
    ensures var r := Step(s, e);
            && i < |r.calls|
            && (r.calls[i].phase == Finished(result) <==>
                  s.calls[i].phase == Finished(result)
                  || (e.AttemptEnds? && e.call == i && !e.unauthorized && e.ok == (result == Success)))
  {
  }

  /** Signing in gives the page a fresh session; signing out ends the one it had. */
  lemma PageSessions(s: State, e: Event)
    requires Enabled(s, e)
    ensures e.PageSignsIn? ==>
              var r := Step(s, e);
              && r.signedIn && r.cookie == Some(|s.table|) && |r.table| == |s.table| + 1
              && r.table[|s.table|] == Session(e.user, e.organization, e.expiresAt, None, None)
    ensures e.PageSignsOut? ==>
              var r := Step(s, e);
              && !r.signedIn && r.cookie == None && |r.table| == |s.table|
              && (s.cookie.Some? && s.cookie.value < |s.table| ==> r.table[s.cookie.value].revokedAt.Some?)
  {
  }

  /** A finished call never changes. */
  lemma FinishedStays(s: State, e: Event, i: nat)
    requires Enabled(s, e) && i < |s.calls| && s.calls[i].phase.Finished?
    ensures i < |Step(s, e).calls| && Step(s, e).calls[i] == s.calls[i]
  {
  }

  /** A call ends as expired only in a step that also ends the page's session. */
  lemma ExpiryEndsSession(s: State, e: Event, i: nat)
    requires Enabled(s, e) && Inv(s) && i < |s.calls|
    requires s.calls[i].phase != Finished(SessionExpired)
    requires var r := Step(s, e); i < |r.calls| && r.calls[i].phase == Finished(SessionExpired)
    ensures !Step(s, e).signedIn
    ensures s.calls[i].phase == Waiting || s.calls[i].phase == Retrying
  {
  }

  /**
   * Why the sharing matters: two requests sent with one cookie end with a detected
   * reuse and no live session left on the chain.
   */
  lemma TwoRequestsEndTheSession(t: Table, token: SessionId, now: Time, expiresAt: Time)
    requires Chained(t) && RefreshAnswer(t, token, now, true).Rotated?
    ensures var once := Rotate(t, token, now, expiresAt);
            && RefreshAnswer(once, token, now, true) == ReuseDetected
            && DeadLineage(RevokeLineage(once, token, now), token)
  {
    RotationHandsOn(t, token, now, true, expiresAt);
    RotateKeepsChained(t, token, now, expiresAt);
    ReplayEndsLineage(Rotate(t, token, now, expiresAt), token, now, []);
  }
}
