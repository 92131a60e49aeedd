/**
  When a session is over: exactly when its current access token stays inactive
  in every later interleaving, and what revokeSession, logoutAll and reuse
  detection therefore achieve over whole runs.
*/
module SessionEnds {
  import opened Runs
  import opened SessionModel
  import opened Common
  import opened TokenFamilies
  import opened SessionCalls
  import opened AccessTokens

  /** The token is inactive for good: expired, or denied for longer than it lives. */
  predicate Finished(st: Store, j: Jti) {
    j in st.issued && (st.now / 1000 >= st.issued[j] || Outlasted(st, j))
  }

  /** Every refresh of the family past its read is about to record an access token already finished. */
  ghost predicate NothingComing(s: State, f: FamilyId) {
    forall c :: c in s.calls && InFlight(s.calls[c], f) ==> s.calls[c].Touching? && Finished(s.st, s.calls[c].jti)
  }

  ghost predicate NoneInFlight(s: State, f: FamilyId) {
    forall c :: c in s.calls ==> !InFlight(s.calls[c], f)
  }

  ghost predicate NoUsable(s: State, f: FamilyId) {
    forall t :: t in s.st.tokens && s.st.tokens[t].family == f ==> !Usable(s.st, t)
  }

  ghost predicate Over(s: State, f: FamilyId, sid: SessionId) {
    && f in s.registry && s.registry[f].0 == sid && sid in s.st.sessions
    && Finished(s.st, s.st.sessions[sid].jti) && NoUsable(s, f) && NothingComing(s, f)
  }

  /** What every theorem here asks of a state; it holds in every run from an empty store. */
  ghost predicate Sound(s: State) {
    Linked(s) && IssuedOk(s.st) && Signed(s)
  }

  predicate CurrentActive(st: Store, sid: SessionId)
    requires sid in st.sessions
  {
    Introspect(st, st.sessions[sid].jti)
  }

  // ----- a session that is over stays over -----

  lemma FinishedIsInactive(st: Store, j: Jti)
    requires Finished(st, j)
    ensures !Introspect(st, j)
  {
  }

  lemma StepKeepsFinished(s: State, a: Action, j: Jti)
    requires IssuedOk(s.st) && Finished(s.st, j)
    ensures Finished(Step(s, a).st, j)
  {
    if Outlasted(s.st, j) {
      StepKeepsOutlasted(s, a, j);
    } else {
      StepKeepsExpired(s, a, j);
    }
  }

  lemma StepKeepsExpired(s: State, a: Action, j: Jti)
    requires j in s.st.issued && s.st.now / 1000 >= s.st.issued[j]
    ensures j in Step(s, a).st.issued && Step(s, a).st.now / 1000 >= Step(s, a).st.issued[j]
  {
    if a.Next? && a.call in s.calls {
      AdvanceKeepsIssue(s, a.call, a.token, a.jti, a.family, j);
    } else if a.Wait? {
      assert s.st.now <= s.st.now + a.ms;
    }
  }

  lemma AdvanceKeepsIssue(s: State, c: nat, t: TokenId, k: Jti, g: FamilyId, j: Jti)
    requires c in s.calls && j in s.st.issued
    ensures var st := Advance(s, c, t, k, g).st; j in st.issued && st.issued[j] == s.st.issued[j] && st.now == s.st.now
  {
    if !s.calls[c].Minting? { AdvanceSignsNone(s, c, t, k, g); }
  }

  lemma AdvanceSignsNone(s: State, c: nat, t: TokenId, k: Jti, g: FamilyId)
    requires c in s.calls && !s.calls[c].Minting?
    ensures Advance(s, c, t, k, g).st.issued == s.st.issued && Advance(s, c, t, k, g).st.now == s.st.now
  {
    match s.calls[c]
    case Finding(_) =>
    case Rotating(_, _, _, _) =>
    case FindingUser(_, _, _) =>
    case Touching(_, _, _) =>
    case KillingFamily(_, _) =>
    case FindingSession(_) =>
    case Denying(_, _) =>
    case KillingSession(_) =>
    case NewFamily(_, _) =>
    case Returned(_) =>
  }

  lemma AdvanceKeepsUnusable(s: State, c: nat, t: TokenId, k: Jti, g: FamilyId, f: FamilyId)
    requires NoUsable(s, f) && f in s.registry && c in s.calls && !(s.calls[c].Minting? && s.calls[c].family == f)
    ensures NoUsable(Advance(s, c, t, k, g), f)
  {}

  lemma AdvanceKeepsRegistered(s: State, c: nat, t: TokenId, k: Jti, g: FamilyId, f: FamilyId)
    requires f in s.registry && c in s.calls
    ensures var r := Advance(s, c, t, k, g).registry; f in r && r[f] == s.registry[f]
  {}

  /** A call that makes its next await is past its read only if it was, or found a usable token. */
  lemma AdvanceEnters(s: State, c: nat, t: TokenId, k: Jti, g: FamilyId, f: FamilyId)
    requires NoUsable(s, f) && NothingComing(s, f) && c in s.calls
    ensures var s' := Advance(s, c, t, k, g);
      && c in s'.calls && !InFlight(s'.calls[c], f)
      && forall d :: d in s'.calls && d != c ==> d in s.calls && s'.calls[d] == s.calls[d]
  {
    if s.calls[c].Finding? && s.calls[c].token in s.st.tokens {
      assert Usable(s.st, s.calls[c].token) || !Usable(s.st, s.calls[c].token);
    }
    if InFlight(s.calls[c], f) { assert s.calls[c].Touching?; }
  }

  /** The session's current token is the one it had or one a refresh of its family records. */
  lemma {:induction false} AdvanceSetsCurrent(s: State, c: nat, t: TokenId, k: Jti, g: FamilyId, f: FamilyId,
      sid: SessionId)
    requires Linked(s) && f in s.registry && s.registry[f].0 == sid && c in s.calls && sid in s.st.sessions
    ensures var s' := Advance(s, c, t, k, g);
      sid in s'.st.sessions && s'.st.sessions[sid].jti ==
        if s.calls[c].Touching? && s.calls[c].family == f then s.calls[c].jti else s.st.sessions[sid].jti
  {
    assert CallLinked(s, s.calls[c]);
  }

  lemma {:induction false} AwaitKeepsOver(s: State, a: Action, f: FamilyId, sid: SessionId)
    requires Sound(s) && Over(s, f, sid) && a.Next? && a.call in s.calls
    ensures Over(Step(s, a), f, sid)
  {
    var c, s' := a.call, Step(s, a);
    AwaitKeepsRest(s, a, f, sid);
    AdvanceSetsCurrent(s, c, a.token, a.jti, a.family, f, sid);
    StepKeepsFinished(s, a, s.st.sessions[sid].jti);
    if s.calls[c].Touching? && s.calls[c].family == f { StepKeepsFinished(s, a, s.calls[c].jti); }
    AwaitKeepsComing(s, a, f);
  }

  lemma {:induction false} AwaitKeepsRest(s: State, a: Action, f: FamilyId, sid: SessionId)
    requires Over(s, f, sid) && a.Next? && a.call in s.calls
    ensures var s' := Step(s, a); NoUsable(s', f) && f in s'.registry && s'.registry[f].0 == sid
  {
    AdvanceKeepsUnusable(s, a.call, a.token, a.jti, a.family, f);
    AdvanceKeepsRegistered(s, a.call, a.token, a.jti, a.family, f);
  }

  lemma {:induction false} AwaitKeepsComing(s: State, a: Action, f: FamilyId)
    requires Sound(s) && NoUsable(s, f) && NothingComing(s, f) && a.Next? && a.call in s.calls
    ensures NothingComing(Step(s, a), f)
  {
    var s' := Step(s, a);
    AdvanceEnters(s, a.call, a.token, a.jti, a.family, f);
    forall d | d in s'.calls && InFlight(s'.calls[d], f)
      ensures s'.calls[d].Touching? && Finished(s'.st, s'.calls[d].jti)
    {
      StepKeepsFinished(s, a, s.calls[d].jti);
    }
  }

  /** Logins, new calls, revocations and time. */
  lemma OtherKeepsOver(s: State, a: Action, f: FamilyId, sid: SessionId)
    requires Sound(s) && Over(s, f, sid) && !a.Next?
    ensures Over(Step(s, a), f, sid)
  {
    var s' := Step(s, a);
    OtherKeepsSession(s, a, f, sid);
    StepKeepsFinished(s, a, s.st.sessions[sid].jti);
    forall d | d in s'.calls && InFlight(s'.calls[d], f)
      ensures s'.calls[d].Touching? && Finished(s'.st, s'.calls[d].jti)
    {
      assert d in s.calls && s'.calls[d] == s.calls[d];
      StepKeepsFinished(s, a, s.calls[d].jti);
    }
  }

  lemma OtherKeepsSession(s: State, a: Action, f: FamilyId, sid: SessionId)
    requires f in s.registry && sid in s.st.sessions && !a.Next?
    ensures var s' := Step(s, a);
      && s'.registry == s.registry && sid in s'.st.sessions && s'.st.sessions[sid].jti == s.st.sessions[sid].jti
      && (forall d :: d in s'.calls && InFlight(s'.calls[d], f) ==> d in s.calls && s'.calls[d] == s.calls[d])
      && (NoUsable(s, f) ==> NoUsable(s', f))
  {}

  lemma {:induction false} StepKeepsSound(s: State, a: Action)
    requires Sound(s)
    ensures Sound(Step(s, a))
  {
    StepKeepsLinked(s, a);
    StepKeepsIssued(s, a);
    StepKeepsSigned(s, a);
  }

  lemma {:induction false} RunKeepsSound(s: State, acts: seq<Action>)
    requires Sound(s)
    ensures Sound(Run(s, acts))
  {
    if acts == [] {
    } else {
      RunKeepsSound(s, acts[..|acts| - 1]);
      StepKeepsSound(Run(s, acts[..|acts| - 1]), acts[|acts| - 1]);
    }
  }

  lemma {:induction false} OverStaysOver(s: State, acts: seq<Action>, f: FamilyId, sid: SessionId)
    requires Sound(s) && Over(s, f, sid)
    ensures Over(Run(s, acts), f, sid) && !CurrentActive(Run(s, acts).st, sid)
  {
    var s' := Run(s, acts);
    if acts == [] {
    } else {
      var m, a := Run(s, acts[..|acts| - 1]), acts[|acts| - 1];
      OverStaysOver(s, acts[..|acts| - 1], f, sid);
      RunKeepsSound(s, acts[..|acts| - 1]);
      if a.Next? && a.call in m.calls { AwaitKeepsOver(m, a, f, sid); }
          else if !a.Next? { OtherKeepsOver(m, a, f, sid); }
    }
    FinishedIsInactive(s'.st, s'.st.sessions[sid].jti);
  }

  // ----- and only such a session is -----

  ghost predicate Revives(s: State, acts: seq<Action>, sid: SessionId) {
    var st := Run(s, acts).st;
    sid in st.sessions && CurrentActive(st, sid)
  }

  lemma RevivesLater(s: State, a: Action, rest: seq<Action>, sid: SessionId)
    requires Revives(Step(s, a), rest, sid)
    ensures Revives(s, [a] + rest, sid)
  {
    FoldOne(Step, s, a);
    FoldAppend(Step, s, [a], rest);
  }

  /** A signed token that is not finished is active once any denylist key on it has lapsed. */
  lemma UnfinishedRevives(s: State, sid: SessionId) returns (acts: seq<Action>)
    requires HasToken(s.st, sid) && !Finished(s.st, s.st.sessions[sid].jti)
    ensures Revives(s, acts, sid)
  {
    var j := s.st.sessions[sid].jti;
    var ms := if j in s.st.denied && s.st.now < s.st.denied[j] then s.st.denied[j] - s.st.now else 0;
    acts := [Wait(ms)];
    FoldOne(Step, s, Wait(ms));
    assert s.st.now + ms < s.st.issued[j] * 1000;
    assert (s.st.now + ms) / 1000 < s.st.issued[j];
  }

  /** The last await: the session's current token is the one the refresh signed. */
  lemma TouchRevives(s: State, c: nat, f: FamilyId, sid: SessionId) returns (acts: seq<Action>)
    requires Sound(s) && f in s.registry && s.registry[f].0 == sid
    requires c in s.calls && s.calls[c].Touching? && s.calls[c].family == f && !Finished(s.st, s.calls[c].jti)
    ensures Revives(s, acts, sid)
  {
    var a := Next(c, 0, 0, 0);
    var s' := Step(s, a);
    assert CallLinked(s, s.calls[c]);
    AdvanceSetsCurrent(s, c, 0, 0, 0, f, sid);
    assert s'.st.issued == s.st.issued && s'.st.denied == s.st.denied && s'.st.now == s.st.now;
    var rest := UnfinishedRevives(s', sid);
    RevivesLater(s, a, rest, sid);
    acts := [a] + rest;
  }

  /** A refresh past its read goes on to give the session a new, active token. */
  lemma {:induction false} ComingRevives(s: State, c: nat, f: FamilyId, sid: SessionId) returns (acts: seq<Action>)
    requires Sound(s) && f in s.registry && s.registry[f].0 == sid && s.st.ttl.accessSeconds > 0
    requires c in s.calls && InFlight(s.calls[c], f)
    requires s.calls[c].Touching? ==> !Finished(s.st, s.calls[c].jti)
    ensures Revives(s, acts, sid)
    decreases StepsLeft(s.calls[c])
  {
    if s.calls[c].Touching? {
      acts := TouchRevives(s, c, f, sid);
    } else {
      var t := Fresh(s.st.tokens.Keys);
      var j := Fresh(s.st.issued.Keys + s.st.denied.Keys);
      var a := Next(c, t, j, 0);
      NextAwait(s, c, f, t, j);
      StepKeepsSound(s, a);
      AdvanceKeepsRegistered(s, c, t, j, 0, f);
      var rest := ComingRevives(Step(s, a), c, f, sid);
      RevivesLater(s, a, rest, sid);
      acts := [a] + rest;
    }
  }

  lemma NextAwait(s: State, c: nat, f: FamilyId, t: TokenId, j: Jti)
    requires Linked(s) && c in s.calls && InFlight(s.calls[c], f) && !s.calls[c].Touching? && s.st.ttl.accessSeconds > 0
    requires t !in s.st.tokens && j !in s.st.issued && j !in s.st.denied
    ensures var s' := Step(s, Next(c, t, j, 0));
      && c in s'.calls && InFlight(s'.calls[c], f) && StepsLeft(s'.calls[c]) < StepsLeft(s.calls[c])
      && s'.st.ttl == s.st.ttl && (s'.calls[c].Touching? ==> !Finished(s'.st, s'.calls[c].jti))
  {
    assert CallLinked(s, s.calls[c]);
  }

  lemma UsableRevives(s: State, t: TokenId, f: FamilyId, sid: SessionId) returns (acts: seq<Action>)
    requires Sound(s) && f in s.registry && s.registry[f].0 == sid && s.st.ttl.accessSeconds > 0
    requires Usable(s.st, t) && s.st.tokens[t].family == f
    ensures Revives(s, acts, sid)
  {
    var c := Fresh(s.calls.Keys);
    var p, n := Present(c, t), Next(c, 0, 0, 0);
    var s1 := Step(s, p);
    var s2 := Step(s1, n);
    assert s2.calls[c].Rotating? && InFlight(s2.calls[c], f) && s2.st == s.st && s2.registry == s.registry;
    StepKeepsSound(s, p);
    StepKeepsSound(s1, n);
    var rest := ComingRevives(s2, c, f, sid);
    RevivesLater(s1, n, rest, sid);
    RevivesLater(s, p, [n] + rest, sid);
    acts := [p] + ([n] + rest);
  }

  lemma NotOverRevives(s: State, f: FamilyId, sid: SessionId) returns (acts: seq<Action>)
    requires Sound(s) && f in s.registry && s.registry[f].0 == sid && s.st.ttl.accessSeconds > 0
    requires !Over(s, f, sid)
    ensures Revives(s, acts, sid)
  {
    assert HasToken(s.st, sid);
    if !Finished(s.st, s.st.sessions[sid].jti) {
      acts := UnfinishedRevives(s, sid);
    } else if t :| t in s.st.tokens && s.st.tokens[t].family == f && Usable(s.st, t) {
      acts := UsableRevives(s, t, f, sid);
    } else {
      var c :| c in s.calls && InFlight(s.calls[c], f)
        && !(s.calls[c].Touching? && Finished(s.st, s.calls[c].jti));
      acts := ComingRevives(s, c, f, sid);
    }
  }

  /** The session's current access token is inactive now and in every continuation. */
  ghost predicate OutForGood(s: State, sid: SessionId) {
    forall acts :: !Revives(s, acts, sid)
  }

  /**
    From any reachable state: a session's current access token stays inactive in
    every continuation if and only if that token is finished, its family has no
    usable refresh token, and no refresh of it is past its read, save one about
    to record a token already finished.
  */
  lemma OverExactly(s: State, f: FamilyId, sid: SessionId)
    requires Sound(s) && f in s.registry && s.registry[f].0 == sid && s.st.ttl.accessSeconds > 0
    ensures OutForGood(s, sid) <==> Over(s, f, sid)
  {
    if Over(s, f, sid) {
      forall acts ensures !Revives(s, acts, sid) { OverStaysOver(s, acts, f, sid); }
    } else {
      var acts := NotOverRevives(s, f, sid);
      assert Revives(s, acts, sid);
    }
  }

  // ----- what the revoking calls achieve -----

  /** The store part of a call changed; calls and registry are as they were. */
  ghost predicate Revoking(s: State, s': State) {
    && s' == s.(st := s'.st)
    && s'.st.users == s.st.users && s'.st.ttl == s.st.ttl && s'.st.now == s.st.now && s'.st.issued == s.st.issued
    && s'.st.tokens.Keys == s.st.tokens.Keys && s'.st.sessions.Keys == s.st.sessions.Keys
    && (forall t :: t in s.st.tokens ==> s'.st.tokens[t].(revoked := s.st.tokens[t].revoked) == s.st.tokens[t])
    && (forall x :: x in s.st.sessions ==> s'.st.sessions[x].(revoked := s.st.sessions[x].revoked) == s.st.sessions[x])
  }

  /** A revocation that takes the family's tokens and denies the session's current one. */
  lemma RevokedIsOverExactly(s: State, s': State, f: FamilyId, sid: SessionId)
    requires Sound(s) && Revoking(s, s') && s.st.ttl.accessSeconds > 0
    requires f in s.registry && s.registry[f].0 == sid
    requires forall t :: t in s.st.tokens && s.st.tokens[t].family == f ==> s'.st.tokens[t].revoked
    requires var j := s.st.sessions[sid].jti; j in s'.st.denied && s'.st.denied[j] == Deny(s.st, j).denied[j]
    ensures Sound(s') && (OutForGood(s', sid) <==> NothingComing(s', f))
  {
    assert HasToken(s.st, sid);
    DenyOutlasts(s.st, s.st.sessions[sid].jti);
    OverExactly(s', f, sid);
  }

  /** The state after revokeSession of the family's session by its owner. */
  function AfterRevoke(s: State, sid: SessionId): State
    requires sid in s.st.sessions
  {
    s.(st := RevokeSessionCall(s.st, s.st.sessions[sid].user, sid).0)
  }

  function AfterLogoutAll(s: State, u: UserId): State {
    s.(st := LogoutAllCall(s.st, u))
  }

  function AfterKill(s: State, f: FamilyId, sid: SessionId): State {
    s.(st := KillCall(s.st, f, sid))
  }

  lemma RevokeIsOverExactly(s: State, f: FamilyId, sid: SessionId)
    requires Sound(s) && s.st.ttl.accessSeconds > 0 && f in s.registry && s.registry[f].0 == sid
    ensures var s' := AfterRevoke(s, sid);
      Sound(s') && s'.st.sessions[sid].revoked && (OutForGood(s', sid) <==> NothingComing(s', f))
  {
    var s' := AfterRevoke(s, sid);
    RevokedIsOverExactly(s, s', f, sid);
  }

  lemma KillIsOverExactly(s: State, f: FamilyId, sid: SessionId)
    requires Sound(s) && s.st.ttl.accessSeconds > 0 && f in s.registry && s.registry[f].0 == sid
    ensures var s' := AfterKill(s, f, sid);
      Sound(s') && s'.st.sessions[sid].revoked && (OutForGood(s', sid) <==> NothingComing(s', f))
  {
    RevokedIsOverExactly(s, AfterKill(s, f, sid), f, sid);
  }

  lemma LogoutAllIsOverExactly(s: State, f: FamilyId, sid: SessionId, u: UserId)
    requires Sound(s) && s.st.ttl.accessSeconds > 0 && f in s.registry && s.registry[f] == (sid, u)
    requires sid in LiveSessions(s.st, u)
    ensures var s' := AfterLogoutAll(s, u);
      Sound(s') && s'.st.sessions[sid].revoked && (OutForGood(s', sid) <==> NothingComing(s', f))
  {
    LogoutAllRevokes(s, u);
    LogoutAllDeniesLive(s.st, u, sid);
    RevokedIsOverExactly(s, AfterLogoutAll(s, u), f, sid);
  }

  lemma LogoutAllRevokes(s: State, u: UserId)
    ensures var s' := AfterLogoutAll(s, u);
      && Revoking(s, s')
      && (forall t :: t in s.st.tokens && s.st.tokens[t].user == u ==> s'.st.tokens[t].revoked)
      && (forall x :: x in s.st.sessions && s.st.sessions[x].user == u ==> s'.st.sessions[x].revoked)
  {}

  lemma LogoutAllDeniesLive(st: Store, u: UserId, sid: SessionId)
    requires sid in LiveSessions(st, u)
    ensures var j, denied := st.sessions[sid].jti, LogoutAllCall(st, u).denied;
      j in denied && denied[j] == Deny(st, j).denied[j]
  {
    var st1 := RevokeUserTokens(RevokeUserSessions(st, u), u);
    assert sid in st1.sessions && st1.sessions[sid].jti == st.sessions[sid].jti;
  }

  lemma {:induction false} ReachedSound(ttl: Ttl, now: nat, users: set<UserId>, acts: seq<Action>)
    ensures var s := Run(Init(ttl, now, users), acts); Sound(s) && s.st.ttl == ttl
  {
    Reached(ttl, now, users, acts);
    TtlStays(Init(ttl, now, users), acts);
  }

  lemma {:induction false} TtlStays(s: State, acts: seq<Action>)
    ensures Run(s, acts).st.ttl == s.st.ttl
  {
    if acts == [] {
    } else {
      TtlStays(s, acts[..|acts| - 1]);
      StepKeepsTtl(Run(s, acts[..|acts| - 1]), acts[|acts| - 1]);
    }
  }

  lemma StepKeepsTtl(s: State, a: Action)
    ensures Step(s, a).st.ttl == s.st.ttl
  {
    if a.Next? && a.call in s.calls { AdvanceKeepsTtl(s, a.call, a.token, a.jti, a.family); }
  }

  lemma AdvanceKeepsTtl(s: State, c: nat, t: TokenId, j: Jti, g: FamilyId)
    requires c in s.calls
    ensures Advance(s, c, t, j, g).st.ttl == s.st.ttl
  {
    match s.calls[c] {
      case Rotating(x, _, _, _) => assert RevokeToken(s.st, x).ttl == s.st.ttl;
      case KillingFamily(f, _) => assert RevokeFamily(s.st, f).ttl == s.st.ttl;
      case _ =>
    }
  }

  /**
    revokeSession over whole runs: in any reachable state, the session revoked
    has no active access token in any continuation if and only if no refresh of
    it is past its read, save one about to record a token already finished.
  */
  lemma RevokedSessionIsOver(ttl: Ttl, now: nat, users: set<UserId>, acts: seq<Action>, f: FamilyId)
    requires ttl.accessSeconds > 0 && f in Run(Init(ttl, now, users), acts).registry
    ensures var s := Run(Init(ttl, now, users), acts);
      var sid := s.registry[f].0;
      sid in s.st.sessions && AfterRevoke(s, sid).st.sessions[sid].revoked
      && (OutForGood(AfterRevoke(s, sid), sid) <==> NothingComing(AfterRevoke(s, sid), f))
  {
    ReachedSound(ttl, now, users, acts);
    var s := Run(Init(ttl, now, users), acts);
    RevokeIsOverExactly(s, f, s.registry[f].0);
  }

  /** logoutAll over whole runs: the same for every live session of the user. */
  lemma {:induction false} LoggedOutSessionIsOver(ttl: Ttl, now: nat, users: set<UserId>, acts: seq<Action>,
      f: FamilyId)
    requires ttl.accessSeconds > 0 && f in Run(Init(ttl, now, users), acts).registry
    requires var s := Run(Init(ttl, now, users), acts); s.registry[f].0 in LiveSessions(s.st, s.registry[f].1)
    ensures var s := Run(Init(ttl, now, users), acts);
      var (sid, u) := s.registry[f];
      AfterLogoutAll(s, u).st.sessions[sid].revoked
      && (OutForGood(AfterLogoutAll(s, u), sid) <==> NothingComing(AfterLogoutAll(s, u), f))
  {
    ReachedSound(ttl, now, users, acts);
    var s := Run(Init(ttl, now, users), acts);
    LogoutAllIsOverExactly(s, f, s.registry[f].0, s.registry[f].1);
  }

  /**
    Reuse detection over whole runs: reach any state in which a token was
    rotated, let anything happen, then present it.  The refresh fails, every
    token of its family and its session end revoked, and the session is out for
    good if and only if no refresh of it is past its read at that moment.
  */
  lemma {:induction false} ReusedSessionIsOver(ttl: Ttl, now: nat, users: set<UserId>, acts: seq<Action>, t: TokenId,
      more: seq<Action>,
                            c: nat, minted: TokenId, jti: Jti)
    requires ttl.accessSeconds > 0
    requires var tokens := Run(Init(ttl, now, users), acts).st.tokens; t in tokens && tokens[t].revoked
    requires c !in Run(Init(ttl, now, users), acts + more).calls
    ensures var s := Run(Init(ttl, now, users), acts + more);
      var s' := RunCall(Step(s, Present(c, t)), c, minted, jti, 5);
      t in s.st.tokens &&
      var f, sid := s.st.tokens[t].family, s.st.tokens[t].session;
      && s'.calls == s.calls[c := Returned(false)] && s'.granted == s.granted
      && (forall v :: v in s'.st.tokens && s'.st.tokens[v].family == f ==> s'.st.tokens[v].revoked)
      && sid in s'.st.sessions && s'.st.sessions[sid].revoked
      && (OutForGood(s', sid) <==> NothingComing(s', f))
  {
    var s0 := Init(ttl, now, users);
    var s := Run(s0, acts + more);
    FoldAppend(Step, s0, acts, more);
    RevokedForEver(Run(s0, acts), more, t);
    ReachedSound(ttl, now, users, acts + more);
    ReuseEnds(s, t, c, minted, jti);
  }

  lemma {:induction false} ReuseEnds(s: State, t: TokenId, c: nat, minted: TokenId, jti: Jti)
    requires Sound(s) && s.st.ttl.accessSeconds > 0 && t in s.st.tokens && s.st.tokens[t].revoked && c !in s.calls
    ensures var s' := RunCall(Step(s, Present(c, t)), c, minted, jti, 5);
      var f, sid := s.st.tokens[t].family, s.st.tokens[t].session;
      && s'.calls == s.calls[c := Returned(false)] && s'.granted == s.granted
      && (forall v :: v in s'.st.tokens && s'.st.tokens[v].family == f ==> s'.st.tokens[v].revoked)
      && sid in s'.st.sessions && s'.st.sessions[sid].revoked
      && (OutForGood(s', sid) <==> NothingComing(s', f))
  {
    var f, sid := s.st.tokens[t].family, s.st.tokens[t].session;
    var s' := RunCall(Step(s, Present(c, t)), c, minted, jti, 5);
    ReuseAlone(s, c, t, minted, jti);
    var r := s.(calls := s.calls[c := Returned(false)]);
    ReturnedKeepsSound(s, c);
    KillIsOverExactly(r, f, sid);
    assert s' == AfterKill(r, f, sid);
  }

  lemma ReturnedKeepsSound(s: State, c: nat)
    requires Sound(s) && c !in s.calls
    ensures Sound(s.(calls := s.calls[c := Returned(false)]))
  {
    var r := s.(calls := s.calls[c := Returned(false)]);
    forall d | d in r.calls ensures CallLinked(r, r.calls[d]) {
      if d != c { assert CallLinked(s, s.calls[d]); }
    }
  }

  /**
    The failing case at work: revokeSession runs while a refresh of the session
    is about to mint.  Two awaits later the revoked session has a current access
    token that is active and a refresh token that is not revoked.
  */
  lemma RevokedSessionRevives(s: State, c: nat, t: TokenId, j: Jti)
    requires Sound(s) && s.st.ttl.accessSeconds > 0 && c in s.calls && s.calls[c].Minting?
    requires t !in s.st.tokens && j !in s.st.issued && j !in s.st.denied
    ensures var sid := s.calls[c].session;
      sid in s.st.sessions &&
      var s' := Step(Step(AfterRevoke(s, sid), Next(c, t, j, 0)), Next(c, 0, 0, 0));
      && sid in s'.st.sessions && s'.st.sessions[sid].revoked && CurrentActive(s'.st, sid)
      && t in s'.st.tokens && s'.st.tokens[t].session == sid && !s'.st.tokens[t].revoked
  {
    var sid, f := s.calls[c].session, s.calls[c].family;
    assert CallLinked(s, s.calls[c]);
    assert HasToken(s.st, sid);
    var s1 := AfterRevoke(s, sid);
    assert s1.st.sessions[sid].revoked && s1.st.sessions[sid].jti in s.st.issued;
    var s2 := Step(s1, Next(c, t, j, 0));
    assert s2.calls[c] == Touching(f, sid, j) && j !in s2.st.denied && s2.st.sessions == s1.st.sessions;
  }

  // ----- revokeSession await by await -----

  /**
    revokeSession read the session's token j in state s; before each of its three
    writes anything happens: more before the tokens go, next before the row, last before the denial.
  */
  function RevokeAwaits(s: State, sid: SessionId, j: Jti, more: seq<Action>, next: seq<Action>,
      last: seq<Action>): State {
    Step(Run(Step(Run(TokensRevoked(s, sid, more), next), DoRevokeSession(sid)), last), DoDeny(j))
  }

  function TokensRevoked(s: State, sid: SessionId, more: seq<Action>): State {
    Step(Run(s, more), DoRevokeBySession(sid))
  }

  lemma {:induction false} StepKeepsAtRest(s: State, a: Action, f: FamilyId, sid: SessionId)
    requires Sound(s) && Quiet(s, f) && f in s.registry && s.registry[f].0 == sid
    ensures var s' := Step(s, a);
      && Sound(s') && Quiet(s', f) && f in s'.registry && s'.registry[f].0 == sid
      && s'.st.sessions[sid].jti == s.st.sessions[sid].jti
  {
    StepKeepsSound(s, a);
    StepKeepsQuiet(s, a, f);
    if a.Next? && a.call in s.calls {
      assert !InFlight(s.calls[a.call], f);
      AdvanceSetsCurrent(s, a.call, a.token, a.jti, a.family, f, sid);
      AdvanceKeepsRegistered(s, a.call, a.token, a.jti, a.family, f);
    } else if !a.Next? {
      OtherKeepsSession(s, a, f, sid);
    }
  }

  lemma {:induction false} RunKeepsAtRest(s: State, acts: seq<Action>, f: FamilyId, sid: SessionId)
    requires Sound(s) && Quiet(s, f) && f in s.registry && s.registry[f].0 == sid
    ensures var s' := Run(s, acts);
      && Sound(s') && Quiet(s', f) && f in s'.registry && s'.registry[f].0 == sid
      && s'.st.sessions[sid].jti == s.st.sessions[sid].jti
  {
    if acts == [] {
    } else {
      RunKeepsAtRest(s, acts[..|acts| - 1], f, sid);
      StepKeepsAtRest(Run(s, acts[..|acts| - 1]), acts[|acts| - 1], f, sid);
    }
  }

  lemma {:induction false} RunKeepsRegistered(s: State, acts: seq<Action>, f: FamilyId)
    requires f in s.registry
    ensures f in Run(s, acts).registry && Run(s, acts).registry[f] == s.registry[f]
  {
    if acts == [] {
    } else {
      var m, a := Run(s, acts[..|acts| - 1]), acts[|acts| - 1];
      RunKeepsRegistered(s, acts[..|acts| - 1], f);
      if a.Next? && a.call in m.calls { AdvanceKeepsRegistered(m, a.call, a.token, a.jti, a.family, f); }
    }
  }

  /**
    revokeSession interleaved at every await: if no refresh of the session is
    past its read when its refresh tokens go, then the session is out for good
    if and only if the token denied is the current one at that moment, or that
    one is finished anyway.
  */
  lemma InterleavedRevoke(s: State, f: FamilyId, sid: SessionId, j: Jti,
                          more: seq<Action>, next: seq<Action>, last: seq<Action>)
    requires Sound(s) && s.st.ttl.accessSeconds > 0 && f in s.registry && s.registry[f].0 == sid
    requires j == s.st.sessions[sid].jti && NoneInFlight(TokensRevoked(s, sid, more), f)
    ensures var s' := RevokeAwaits(s, sid, j, more, next, last);
      var s2 := TokensRevoked(s, sid, more);
      sid in s2.st.sessions
      && (OutForGood(s', sid) <==> s2.st.sessions[sid].jti == j || Finished(s'.st, s2.st.sessions[sid].jti))
  {
    var s1, s2 := Run(s, more), TokensRevoked(s, sid, more);
    RunKeepsSound(s, more);
    RunKeepsRegistered(s, more, f);
    StepKeepsSound(s1, DoRevokeBySession(sid));
    TtlStays(s, more);
    StepKeepsTtl(s1, DoRevokeBySession(sid));
    assert HasToken(s.st, sid);
    IssuedStays(s, more, j);
    RevokeFinishes(s2, f, sid, j, next, last);
  }

  /** The last two writes of revokeSession, from a state in which the family is at rest. */
  lemma RevokeFinishes(s: State, f: FamilyId, sid: SessionId, j: Jti, next: seq<Action>, last: seq<Action>)
    requires Sound(s) && s.st.ttl.accessSeconds > 0 && f in s.registry && s.registry[f].0 == sid
    requires Quiet(s, f) && j in s.st.issued
    ensures var s' := Step(Run(Step(Run(s, next), DoRevokeSession(sid)), last), DoDeny(j));
      OutForGood(s', sid) <==> s.st.sessions[sid].jti == j || Finished(s'.st, s.st.sessions[sid].jti)
  {
    var s1 := Run(s, next);
    RunKeepsAtRest(s, next, f, sid);
    TtlStays(s, next);
    StepKeepsAtRest(s1, DoRevokeSession(sid), f, sid);
    var s2 := Step(s1, DoRevokeSession(sid));
    StepKeepsTtl(s1, DoRevokeSession(sid));
    RunKeepsAtRest(s2, last, f, sid);
    TtlStays(s2, last);
    IssuedStays(s, next, j);
    IssuedStays(s2, last, j);
    DenialDecides(Run(s2, last), f, sid, j);
  }

  /** The denial itself. */
  lemma DenialDecides(s: State, f: FamilyId, sid: SessionId, j: Jti)
    requires Sound(s) && s.st.ttl.accessSeconds > 0 && f in s.registry && s.registry[f].0 == sid
    requires Quiet(s, f) && j in s.st.issued
    ensures var s' := Step(s, DoDeny(j));
      OutForGood(s', sid) <==> s.st.sessions[sid].jti == j || Finished(s'.st, s.st.sessions[sid].jti)
  {
    var s' := Step(s, DoDeny(j));
    StepKeepsAtRest(s, DoDeny(j), f, sid);
    StepKeepsTtl(s, DoDeny(j));
    DenyOutlasts(s.st, j);
    OverExactly(s', f, sid);
  }

  lemma {:induction false} IssuedStays(s: State, acts: seq<Action>, j: Jti)
    requires j in s.st.issued
    ensures j in Run(s, acts).st.issued
  {
    if acts == [] {
    } else {
      var m, a := Run(s, acts[..|acts| - 1]), acts[|acts| - 1];
      IssuedStays(s, acts[..|acts| - 1], j);
      StepKeepsIssue(m, a, j);
    }
  }

  lemma StepKeepsIssue(s: State, a: Action, j: Jti)
    requires j in s.st.issued
    ensures j in Step(s, a).st.issued
  {
    if a.Next? && a.call in s.calls { AdvanceKeepsIssue(s, a.call, a.token, a.jti, a.family, j); }
  }

  /** A refresh that records its token between the read and the writes leaves it undenied. */
  lemma RefreshBetweenEscapes(s: State, f: FamilyId, sid: SessionId, c: nat, k: Jti)
    requires Sound(s) && s.st.ttl.accessSeconds > 0 && f in s.registry && s.registry[f].0 == sid
    requires c in s.calls && s.calls[c] == Touching(f, sid, k) && k != s.st.sessions[sid].jti && !Finished(s.st, k)
    requires forall d :: d in s.calls && d != c ==> !InFlight(s.calls[d], f)
    ensures var s' := RevokeAwaits(s, sid, s.st.sessions[sid].jti, [Next(c, 0, 0, 0)], [], []);
      sid in s'.st.sessions && s'.st.sessions[sid].revoked && !OutForGood(s', sid)
  {
    var j, a := s.st.sessions[sid].jti, Next(c, 0, 0, 0);
    assert HasToken(s.st, sid);
    FoldOne(Step, s, a);
    AdvanceSetsCurrent(s, c, 0, 0, 0, f, sid);
    var s2 := TokensRevoked(s, sid, [a]);
    assert s2.calls == s.calls[c := Returned(true)] && s2.st.issued == s.st.issued && s2.st.denied == s.st.denied;
    InterleavedRevoke(s, f, sid, j, [a], [], []);
  }

  // ----- logoutAll await by await -----

  /**
    logoutAll for user u from state s, with anything happening between its
    awaits: the sessions go at once and are read, more comes before the tokens
    go, and next, other denials included, before the denial of token j.
  */
  function LogoutAwaits(s: State, u: UserId, j: Jti, more: seq<Action>, next: seq<Action>): State {
    Step(Run(UserTokensRevoked(s, u, more), next), DoDeny(j))
  }

  function UserTokensRevoked(s: State, u: UserId, more: seq<Action>): State {
    Step(Run(Step(s, DoRevokeUserSessions(u)), more), DoRevokeUserTokens(u))
  }

  /** The family's tokens are revoked, and it is registered and sound as before. */
  lemma {:induction false} TokensGone(s: State, f: FamilyId, sid: SessionId, u: UserId, more: seq<Action>)
    requires Sound(s) && f in s.registry && s.registry[f] == (sid, u)
    ensures var s2 := UserTokensRevoked(s, u, more);
      && Sound(s2) && f in s2.registry && s2.registry[f] == (sid, u) && NoUsable(s2, f)
      && s2.st.ttl == s.st.ttl && sid in s2.st.sessions
  {
    var s0 := Step(s, DoRevokeUserSessions(u));
    var s1 := Run(s0, more);
    StepKeepsSound(s, DoRevokeUserSessions(u));
    RunKeepsSound(s0, more);
    RunKeepsRegistered(s0, more, f);
    StepKeepsSound(s1, DoRevokeUserTokens(u));
    StepKeepsTtl(s, DoRevokeUserSessions(u));
    TtlStays(s0, more);
    StepKeepsTtl(s1, DoRevokeUserTokens(u));
    forall t | t in s1.st.tokens && s1.st.tokens[t].family == f ensures s1.st.tokens[t].user == u {}
  }

  /**
    logoutAll interleaved at every await: if no refresh of the session is past
    its read when the user's refresh tokens go, then the session is out for good
    once its turn of the loop is done if and only if the token denied, read with
    the sessions, is still the current one or the current one is finished anyway.
  */
  lemma {:induction false} InterleavedLogoutAll(s: State, f: FamilyId, sid: SessionId, u: UserId, more: seq<Action>,
      next: seq<Action>)
    requires Sound(s) && s.st.ttl.accessSeconds > 0 && f in s.registry && s.registry[f] == (sid, u)
    requires sid in LiveSessions(s.st, u) && NoneInFlight(UserTokensRevoked(s, u, more), f)
    ensures var j, s2 := s.st.sessions[sid].jti, UserTokensRevoked(s, u, more);
      var s' := LogoutAwaits(s, u, j, more, next);
      sid in s2.st.sessions
      && (OutForGood(s', sid) <==> s2.st.sessions[sid].jti == j || Finished(s'.st, s2.st.sessions[sid].jti))
  {
    var j, s0, s2 := s.st.sessions[sid].jti, Step(s, DoRevokeUserSessions(u)), UserTokensRevoked(s, u, more);
    TokensGone(s, f, sid, u, more);
    assert HasToken(s.st, sid);
    IssuedStays(s0, more, j);
    assert s2.st.issued == Run(s0, more).st.issued;
    IssuedStays(s2, next, j);
    RunKeepsAtRest(s2, next, f, sid);
    TtlStays(s2, next);
    DenialDecides(Run(s2, next), f, sid, j);
  }

  /** A refresh of a live session that records its token after the sessions were read leaves it undenied. */
  lemma {:induction false} RefreshEscapesLogoutAll(s: State, f: FamilyId, sid: SessionId, u: UserId, c: nat, k: Jti)
    requires Sound(s) && s.st.ttl.accessSeconds > 0 && f in s.registry && s.registry[f] == (sid, u)
    requires sid in LiveSessions(s.st, u)
    requires c in s.calls && s.calls[c] == Touching(f, sid, k) && k != s.st.sessions[sid].jti && !Finished(s.st, k)
    requires forall d :: d in s.calls && d != c ==> !InFlight(s.calls[d], f)
    ensures !OutForGood(LogoutAwaits(s, u, s.st.sessions[sid].jti, [Next(c, 0, 0, 0)], []), sid)
  {
    var j, a := s.st.sessions[sid].jti, Next(c, 0, 0, 0);
    var s0 := Step(s, DoRevokeUserSessions(u));
    StepKeepsSound(s, DoRevokeUserSessions(u));
    assert HasToken(s.st, sid);
    FoldOne(Step, s0, a);
    AdvanceSetsCurrent(s0, c, 0, 0, 0, f, sid);
    var s2 := UserTokensRevoked(s, u, [a]);
    assert s2.calls == s.calls[c := Returned(true)] && s2.st.issued == s.st.issued && s2.st.denied == s.st.denied;
    assert s2.st.now == s.st.now && s2.st.sessions[sid].jti == k && s2.st.ttl == s.st.ttl;
    assert Run(s2, []) == s2;
    InterleavedLogoutAll(s, f, sid, u, [a], []);
  }
}
