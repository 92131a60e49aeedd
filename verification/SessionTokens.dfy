/** All access tokens a session was ever given: which of them revokeSession and logoutAll leave active, and how long. */
module SessionTokens {
  import opened Common
  import opened SessionModel
  import opened TokenFamilies
  import opened SessionCalls
  import opened AccessTokens
  import opened SessionEnds

  /** The token a step signs, and for which session. */
  function Signs(s: State, a: Action): Option<(Jti, SessionId)> {
    match a
    case Login(c, sid, j, u) =>
      if c in s.calls || sid in s.st.sessions || j in s.st.issued || u !in s.st.users then None else Some((j, sid))
    case Next(c, t, j, _) =>
      if c in s.calls && s.calls[c].Minting? && t !in s.st.tokens && j !in s.st.issued then
        Some((j, s.calls[c].session))
      else None
    case _ => None
  }

  /** Every access token signed for the session in the run. */
  function TokensOf(s: State, acts: seq<Action>, sid: SessionId): set<Jti> {
    if acts == [] then {}
    else
      var init := acts[..|acts| - 1];
      var signed := Signs(Run(s, init), acts[|acts| - 1]);
      TokensOf(s, init, sid) + (if signed.Some? && signed.value.1 == sid then {signed.value.0} else {})
  }

  /** The session's current token, and one about to become it, are among its tokens. */
  ghost predicate Ours(s: State, mine: set<Jti>, sid: SessionId) {
    && (sid in s.st.sessions ==> s.st.sessions[sid].jti in mine)
    && (forall c :: c in s.calls && s.calls[c].Touching? && s.calls[c].session == sid ==> s.calls[c].jti in mine)
  }

  lemma {:induction false} AwaitKeepsOurs(s: State, a: Action, mine: set<Jti>, mine': set<Jti>, sid: SessionId)
    requires Ours(s, mine, sid) && a.Next? && a.call in s.calls && mine <= mine'
    requires Signs(s, a).Some? && Signs(s, a).value.1 == sid ==> Signs(s, a).value.0 in mine'
    ensures Ours(Step(s, a), mine', sid)
  {
    match s.calls[a.call]
    case Finding(_) =>
    case Rotating(_, _, _, _) =>
    case FindingUser(_, _, _) =>
    case Minting(_, _, _) =>
    case Touching(_, _, _) =>
    case KillingFamily(_, _) =>
    case FindingSession(_) =>
    case Denying(_, _) =>
    case KillingSession(_) =>
    case NewFamily(_, _) =>
    case Returned(_) =>
  }

  lemma {:induction false} OtherKeepsOurs(s: State, a: Action, mine: set<Jti>, mine': set<Jti>, sid: SessionId)
    requires Ours(s, mine, sid) && !a.Next? && mine <= mine'
    requires Signs(s, a).Some? && Signs(s, a).value.1 == sid ==> Signs(s, a).value.0 in mine'
    ensures Ours(Step(s, a), mine', sid)
  {}

  lemma {:induction false} CurrentIsOurs(s: State, acts: seq<Action>, sid: SessionId)
    requires s.st.sessions == map[] && s.calls == map[]
    ensures Ours(Run(s, acts), TokensOf(s, acts, sid), sid)
  {
    if acts == [] {
    } else {
      var init, a := acts[..|acts| - 1], acts[|acts| - 1];
      CurrentIsOurs(s, init, sid);
      if a.Next? && a.call in Run(s, init).calls {
        AwaitKeepsOurs(Run(s, init), a, TokensOf(s, init, sid), TokensOf(s, acts, sid), sid);
      } else if !a.Next? {
        OtherKeepsOurs(Run(s, init), a, TokensOf(s, init, sid), TokensOf(s, acts, sid), sid);
      }
    }
  }

  lemma StepSigns(s: State, a: Action)
    ensures var signed := Signs(s, a);
      Step(s, a).st.issued.Keys == s.st.issued.Keys + (if signed.Some? then {signed.value.0} else {})
    ensures Signs(s, a).Some? ==> Signs(s, a).value.0 !in s.st.issued
  {
    if a.Next? && a.call in s.calls && !s.calls[a.call].Minting? {
      AdvanceSignsNone(s, a.call, a.token, a.jti, a.family);
    }
  }

  /** A token is signed for one session only. */
  lemma {:induction false} TokensApart(s: State, acts: seq<Action>, sid: SessionId, other: SessionId)
    requires sid != other
    ensures TokensOf(s, acts, sid) !! TokensOf(s, acts, other)
    ensures TokensOf(s, acts, sid) + TokensOf(s, acts, other) <= Run(s, acts).st.issued.Keys
  {
    if acts == [] {
    } else {
      TokensApart(s, acts[..|acts| - 1], sid, other);
      StepSigns(Run(s, acts[..|acts| - 1]), acts[|acts| - 1]);
    }
  }

  function Active(st: Store, js: set<Jti>): set<Jti> {
    set j | j in js && Introspect(st, j)
  }

  /**
    After revokeSession in any reachable state, of all the tokens the session was
    ever given exactly the current one is no longer active: one replaced by a
    refresh stays active exactly until its exp, if nothing else denies it.
  */
  lemma {:induction false} RevokeLeavesActive(ttl: Ttl, now: nat, users: set<UserId>, acts: seq<Action>, sid: SessionId)
    requires ttl.accessSeconds > 0 && sid in Run(Init(ttl, now, users), acts).st.sessions
    ensures var s0 := Init(ttl, now, users);
      var s, mine := Run(s0, acts), TokensOf(s0, acts, sid);
      var s', j := AfterRevoke(s, sid), s.st.sessions[sid].jti;
      j in mine && Active(s'.st, mine) == Active(s.st, mine) - {j}
      && forall k | k in Active(s'.st, mine) :: ActiveUntilExp(s'.st, k)
  {
    var s := Run(Init(ttl, now, users), acts);
    CurrentIsOurs(Init(ttl, now, users), acts, sid);
    TtlStays(Init(ttl, now, users), acts);
    forall k ensures Introspect(AfterRevoke(s, sid).st, k) <==> Introspect(s.st, k) && k != s.st.sessions[sid].jti {
      RevokeDenies(s.st, sid, k);
    }
    forall k | Introspect(AfterRevoke(s, sid).st, k) ensures ActiveUntilExp(AfterRevoke(s, sid).st, k) {
      StaysUntilExp(AfterRevoke(s, sid).st, k);
    }
  }

  /** With time passing and nothing else, the token is active exactly before its exp. */
  ghost predicate ActiveUntilExp(st: Store, k: Jti) {
    k in st.issued && forall ms: nat :: Introspect(Later(st, ms), k) <==> (st.now + ms) / 1000 < st.issued[k]
  }

  function Later(st: Store, ms: nat): Store {
    st.(now := st.now + ms)
  }

  lemma StaysUntilExp(st: Store, k: Jti)
    requires Introspect(st, k)
    ensures ActiveUntilExp(st, k)
  {
    forall ms: nat ensures Introspect(Later(st, ms), k) <==> (st.now + ms) / 1000 < st.issued[k] {}
  }

  lemma RevokeDenies(st: Store, sid: SessionId, k: Jti)
    requires st.ttl.accessSeconds > 0 && sid in st.sessions
    ensures var st' := RevokeSessionCall(st, st.sessions[sid].user, sid).0;
      st'.now == st.now && st'.issued == st.issued
      && (Introspect(st', k) <==> Introspect(st, k) && k != st.sessions[sid].jti)
  {}

  /** logoutAll: of the tokens of any session, exactly those current in a live session of the user go. */
  lemma {:induction false} LogoutAllLeavesActive(ttl: Ttl, now: nat, users: set<UserId>, acts: seq<Action>,
      sid: SessionId, u: UserId)
    requires ttl.accessSeconds > 0 && sid in Run(Init(ttl, now, users), acts).st.sessions
    requires Run(Init(ttl, now, users), acts).st.sessions[sid].user == u
    ensures var s0 := Init(ttl, now, users);
      var s, mine := Run(s0, acts), TokensOf(s0, acts, sid);
      var j, ended := s.st.sessions[sid].jti, if s.st.sessions[sid].revoked then {} else {s.st.sessions[sid].jti};
      j in mine && Active(AfterLogoutAll(s, u).st, mine) == Active(s.st, mine) - ended
  {
    var s0 := Init(ttl, now, users);
    var s, mine := Run(s0, acts), TokensOf(s0, acts, sid);
    var s', j := AfterLogoutAll(s, u), s.st.sessions[sid].jti;
    CurrentIsOurs(s0, acts, sid);
    TtlStays(s0, acts);
    forall k | k in mine ensures Introspect(s'.st, k) <==>
      Introspect(s.st, k) && !(k == j && !s.st.sessions[sid].revoked) {
      OthersCurrent(s0, acts, sid, k);
      LogoutAllDenies(s.st, u, k);
    }
  }

  /** A token of one session is not current in another. */
  lemma {:induction false} OthersCurrent(s0: State, acts: seq<Action>, sid: SessionId, k: Jti)
    requires s0.st.sessions == map[] && s0.calls == map[] && k in TokensOf(s0, acts, sid)
    ensures forall x | x in Run(s0, acts).st.sessions && x != sid :: Run(s0, acts).st.sessions[x].jti != k
  {
    forall x | x in Run(s0, acts).st.sessions && x != sid ensures Run(s0, acts).st.sessions[x].jti != k {
      CurrentIsOurs(s0, acts, x);
      TokensApart(s0, acts, sid, x);
    }
  }

  lemma LogoutAllDenies(st: Store, u: UserId, k: Jti)
    requires st.ttl.accessSeconds > 0
    ensures Introspect(LogoutAllCall(st, u), k)
       <==> Introspect(st, k) && !exists x :: x in LiveSessions(st, u) && st.sessions[x].jti == k
  {
    var st1 := RevokeUserTokens(RevokeUserSessions(st, u), u);
    forall x ensures x in LiveSessions(st, u) ==> x in st1.sessions && st1.sessions[x].jti == st.sessions[x].jti {}
    assert k in CurrentOf(st1, LiveSessions(st, u)) <==>
      exists x :: x in LiveSessions(st, u) && st.sessions[x].jti == k;
  }

  /**
    A session's active token, replaced by a refresh, is still active once the
    session is revoked, and its successor is not.
  */
  lemma {:induction false} ReplacedTokenStaysActive(s: State, c: nat, t: TokenId, minted: TokenId, jti: Jti)
    requires Sound(s) && s.st.ttl.accessSeconds > 0 && c !in s.calls && minted !in s.st.tokens && jti !in s.st.issued
    requires Usable(s.st, t) && s.st.tokens[t].user in s.st.users && s.st.tokens[t].session in s.st.sessions
    requires CurrentActive(s.st, s.st.tokens[t].session)
    ensures var sid, s' := s.st.tokens[t].session, RunCall(Step(s, Present(c, t)), c, minted, jti, 5);
      sid in s'.st.sessions && s'.st.sessions[sid].jti == jti
      && var st := AfterRevoke(s', sid).st; Introspect(st, s.st.sessions[sid].jti) && !Introspect(st, jti)
  {
    RotationAlone(s, c, t, minted, jti);
  }
}
