/** How far each identity call reaches: what it revokes and denies, and all it leaves alone. */
module SessionScopes {
  import opened Common
  import opened SessionModel
  import opened TokenFamilies
  import opened SessionCalls

  /** Of the rows only these tokens and sessions changed, and each of them only by being revoked. */
  ghost predicate RevokesOnly(st: Store, st': Store, tokens: set<TokenId>, sessions: set<SessionId>) {
    && st'.tokens.Keys == st.tokens.Keys && st'.sessions.Keys == st.sessions.Keys
    && (forall t :: t in st.tokens ==>
          st'.tokens[t] == if t in tokens then st.tokens[t].(revoked := true) else st.tokens[t])
    && (forall x :: x in st.sessions ==>
          st'.sessions[x] == if x in sessions then st.sessions[x].(revoked := true) else st.sessions[x])
    && st'.users == st.users && st'.issued == st.issued && st'.now == st.now && st'.ttl == st.ttl
  }

  /** Exactly these access tokens were denied, from now for the access lifetime, at least a second. */
  ghost predicate DeniesOnly(st: Store, st': Store, js: set<Jti>) {
    && st'.denied.Keys == st.denied.Keys + js
    && forall j :: j in st'.denied ==>
      st'.denied[j] == if j in js then st.now + (if st.ttl.accessSeconds > 1 then st.ttl.accessSeconds else 1) * 1000
        else st.denied[j]
  }

  /** revokeSession: that session and its refresh tokens, if it is the caller's, and its current access token. */
  lemma RevokeReaches(st: Store, u: UserId, sid: SessionId)
    ensures var (st', found) := RevokeSessionCall(st, u, sid);
      var mine := set t | t in st.tokens && st.tokens[t].session == sid;
      && (found <==> sid in st.sessions && st.sessions[sid].user == u) && (!found ==> st' == st)
      && (found ==> RevokesOnly(st, st', mine, {sid}) && DeniesOnly(st, st', {st.sessions[sid].jti}))
  {}

  /** logoutAll: the user's tokens and sessions, and the current access tokens of those that were live. */
  lemma LogoutAllReaches(st: Store, u: UserId)
    ensures var st' := LogoutAllCall(st, u);
      && RevokesOnly(st, st', set t | t in st.tokens && st.tokens[t].user == u,
                     set x | x in st.sessions && st.sessions[x].user == u)
      && DeniesOnly(st, st', set x | x in st.sessions && st.sessions[x].user == u && !st.sessions[x].revoked ::
                      st.sessions[x].jti)
  {}

  /** Reuse of a token: its family and its session, and that session's current access token. */
  lemma ReuseReaches(st: Store, t: TokenId, minted: TokenId, jti: Jti)
    requires t in st.tokens && st.tokens[t].revoked
    ensures var (st', out), row := RefreshCall(st, t, minted, jti), st.tokens[t];
      && out == Refused
      && RevokesOnly(st, st', set v | v in st.tokens && st.tokens[v].family == row.family, {row.session})
      && DeniesOnly(st, st', if row.session in st.sessions then {st.sessions[row.session].jti} else {})
  {}

  /** logout: the token presented and its session, and the access token given. */
  lemma LogoutReaches(st: Store, jti: Option<Jti>, token: Option<TokenId>)
    ensures var st', known := LogoutCall(st, jti, token), token.Some? && token.value in st.tokens;
      && RevokesOnly(st, st', if known then {token.value} else {},
                     if known then {st.tokens[token.value].session} else {})
      && DeniesOnly(st, st', if jti.Some? then {jti.value} else {})
  {}

  /** refresh: nothing but the token presented, the one minted and the current token of their session. */
  lemma RefreshReaches(st: Store, t: TokenId, minted: TokenId, jti: Jti)
    requires RefreshCall(st, t, minted, jti).1.Refreshed? && minted !in st.tokens
    ensures var st', sid := RefreshCall(st, t, minted, jti).0, st.tokens[t].session;
      && st'.denied == st.denied && st'.users == st.users && st'.now == st.now
      && st'.tokens - {t, minted} == st.tokens - {t} && st'.tokens.Keys == st.tokens.Keys + {minted}
      && st'.sessions - {sid} == st.sessions - {sid} && st'.sessions.Keys == st.sessions.Keys
      && st'.issued - {jti} == st.issued - {jti} && jti in st'.issued
  {}

  /** refresh is granted for a known, unrevoked, unexpired token of a known user, and for no other. */
  lemma RefreshRefuses(st: Store, t: TokenId, minted: TokenId, jti: Jti)
    ensures RefreshCall(st, t, minted, jti).1 == Refreshed(minted, jti) <==>
      t in st.tokens && !st.tokens[t].revoked && st.now <= st.tokens[t].expiresAt && st.tokens[t].user in st.users
    ensures RefreshCall(st, t, minted, jti).1 == Refused || RefreshCall(st, t, minted, jti).1 == Refreshed(minted, jti)
    ensures t !in st.tokens || (!st.tokens[t].revoked && st.tokens[t].expiresAt < st.now) ==>
      RefreshCall(st, t, minted, jti).0 == st
  {}

  /** A login leaves a live session, its access token current, and an unrevoked refresh token of its family. */
  lemma LoginGrants(st: Store, u: UserId, sid: SessionId, jti: Jti, minted: TokenId, f: FamilyId)
    requires sid !in st.sessions && minted !in st.tokens
    ensures var st' := LoginCall(st, u, sid, jti, minted, f);
      && st'.sessions.Keys == st.sessions.Keys + {sid} && st'.sessions - {sid} == st.sessions
      && st'.sessions[sid].user == u && st'.sessions[sid].jti == jti && !st'.sessions[sid].revoked
      && st'.tokens.Keys == st.tokens.Keys + {minted} && st'.tokens - {minted} == st.tokens
      && st'.tokens[minted].user == u && st'.tokens[minted].session == sid && st'.tokens[minted].family == f
      && !st'.tokens[minted].revoked && st'.denied == st.denied
      && (st.ttl.accessSeconds > 0 && jti !in st.denied ==> Introspect(st', jti))
  {}

  // ----- each primitive of the protocol, and calls run alone -----

  /** The steps that revoke do what the calls that make them need, and nothing else. */
  lemma PrimitivesReach(s: State, t: TokenId, f: FamilyId, sid: SessionId, u: UserId)
    ensures RevokesOnly(s.st, Step(s, DoRevokeToken(t)).st, {t}, {})
    ensures RevokesOnly(s.st, Step(s, DoRevokeFamily(f)).st, set v | v in s.st.tokens && s.st.tokens[v].family == f, {})
    ensures RevokesOnly(s.st, Step(s, DoRevokeBySession(sid)).st,
      set v | v in s.st.tokens && s.st.tokens[v].session == sid, {})
    ensures RevokesOnly(s.st, Step(s, DoRevokeUserTokens(u)).st,
      set v | v in s.st.tokens && s.st.tokens[v].user == u, {})
    ensures RevokesOnly(s.st, Step(s, DoRevokeSession(sid)).st, {}, {sid})
    ensures RevokesOnly(s.st, Step(s, DoRevokeUserSessions(u)).st, {},
      set x | x in s.st.sessions && s.st.sessions[x].user == u)
  {
    ReachTokens(s.st, t, f, sid, u);
    ReachSessions(s.st, sid, u);
  }

  lemma ReachTokens(st: Store, t: TokenId, f: FamilyId, sid: SessionId, u: UserId)
    ensures RevokesOnly(st, RevokeToken(st, t), {t}, {})
    ensures RevokesOnly(st, RevokeFamily(st, f), set v | v in st.tokens && st.tokens[v].family == f, {})
    ensures RevokesOnly(st, RevokeBySession(st, sid), set v | v in st.tokens && st.tokens[v].session == sid, {})
    ensures RevokesOnly(st, RevokeUserTokens(st, u), set v | v in st.tokens && st.tokens[v].user == u, {})
  {}

  lemma ReachSessions(st: Store, sid: SessionId, u: UserId)
    ensures RevokesOnly(st, SessionModel.RevokeSession(st, sid), {}, {sid})
    ensures RevokesOnly(st, RevokeUserSessions(st, u), {}, set x | x in st.sessions && st.sessions[x].user == u)
  {}

  /** A call that has returned rests. */
  lemma ReturnedRests(s: State, c: nat, minted: TokenId, jti: Jti, k: nat, x: State)
    requires RunCall(s, c, minted, jti, k) == x && c in x.calls && x.calls[c].Returned?
    ensures RunCall(s, c, minted, jti, k + 1) == x
  {
    ReturnedStays(x, c, minted, jti);
  }

  lemma RestsToFive(s: State, c: nat, minted: TokenId, jti: Jti, k: nat, x: State)
    requires k <= 5 && RunCall(s, c, minted, jti, k) == x && c in x.calls && x.calls[c].Returned?
    ensures RunCall(s, c, minted, jti, 5) == x
    decreases 5 - k
  {
    if k == 5 {
    } else {
      ReturnedRests(s, c, minted, jti, k, x);
      RestsToFive(s, c, minted, jti, k + 1, x);
    }
  }

  lemma ReturnedStays(s: State, c: nat, minted: TokenId, jti: Jti)
    requires c in s.calls && s.calls[c].Returned?
    ensures Step(s, Next(c, minted, jti, 0)) == s
  {}

  /** refresh run alone, in every branch, leaves the store of the call taken whole and returns its outcome. */
  lemma {:induction false} RefreshAlone(s: State, c: nat, token: TokenId, minted: TokenId, jti: Jti)
    requires c !in s.calls && minted !in s.st.tokens && jti !in s.st.issued
    ensures var t, (st', out) := RunCall(Step(s, Present(c, token)), c, minted, jti, 5),
        RefreshCall(s.st, token, minted, jti);
      t.st == st' && c in t.calls && t.calls[c] == Returned(out.Refreshed?)
  {
    if token in s.st.tokens && s.st.tokens[token].revoked {
      ReuseAlone(s, c, token, minted, jti);
    } else if Usable(s.st, token) && s.st.tokens[token].user in s.st.users {
      RotationAlone(s, c, token, minted, jti);
    } else if Usable(s.st, token) {
      NobodyAlone(s, c, token, minted, jti);
    } else {
      var s0 := Step(s, Present(c, token));
      var x := s0.(calls := s0.calls[c := Returned(false)]);
      assert RunCall(s0, c, minted, jti, 1) == x;
      RestsToFive(s0, c, minted, jti, 1, x);
    }
  }

  /** The token's user is gone: the token is revoked and the call refused. */
  lemma {:induction false} NobodyAlone(s: State, c: nat, token: TokenId, minted: TokenId, jti: Jti)
    requires c !in s.calls && Usable(s.st, token) && s.st.tokens[token].user !in s.st.users
    ensures var t := RunCall(Step(s, Present(c, token)), c, minted, jti, 5);
      t.st == RevokeToken(s.st, token) && c in t.calls && t.calls[c] == Returned(false)
  {
    var s0, row := Step(s, Present(c, token)), s.st.tokens[token];
    var st := RevokeToken(s.st, token);
    assert RunCall(s0, c, minted, jti, 1)
        == SessionCalls.At(s0, c, s.st, Rotating(token, row.family, row.session, row.user));
    assert RunCall(s0, c, minted, jti, 2) == SessionCalls.At(s0, c, st, FindingUser(row.family, row.session, row.user));
    var x := SessionCalls.At(s0, c, st, Returned(false));
    assert RunCall(s0, c, minted, jti, 3) == x;
    RestsToFive(s0, c, minted, jti, 3, x);
  }

  /** issueSession run alone is the login taken whole. */
  lemma LoginAlone(s: State, c: nat, u: UserId, sid: SessionId, jti: Jti, minted: TokenId, f: FamilyId)
    requires c !in s.calls && u in s.st.users && sid !in s.st.sessions && jti !in s.st.issued
    requires minted !in s.st.tokens && f !in s.registry
    ensures var t := Step(Step(s, Login(c, sid, jti, u)), Next(c, minted, jti, f));
      t.st == LoginCall(s.st, u, sid, jti, minted, f) && c in t.calls && t.calls[c] == Returned(true)
      && t.registry == s.registry[f := (sid, u)]
  {}
}
