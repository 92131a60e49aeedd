/** The identity service as objects: repositories and denylist updated in place. */
module Identity {
  import opened SessionModel
  import opened Common
  import opened SessionCalls

  class RefreshTokenRepository {
    var tokens: map<TokenId, Token>

    constructor ()
      ensures tokens == map[]
    {
      tokens := map[];
    }

    method FindByHash(id: TokenId) returns (r: Option<Token>)
      ensures r == if id in tokens then Some(tokens[id]) else None
    {
      r := if id in tokens then Some(tokens[id]) else None;
    }

    method Create(id: TokenId, u: UserId, sid: SessionId, f: FamilyId, expiresAt: nat)
      modifies this
      ensures tokens == old(tokens)[id := Token(u, sid, f, expiresAt, false)]
    {
      tokens := tokens[id := Token(u, sid, f, expiresAt, false)];
    }

    /** UPDATE ... SET revoked_at = now() WHERE id = id AND revoked_at IS NULL. */
    method Revoke(id: TokenId)
      modifies this
      ensures forall st: Store :: st.tokens == old(tokens) ==> RevokeToken(st, id).tokens == tokens
    {
      if id in tokens && !tokens[id].revoked {
        tokens := tokens[id := tokens[id].(revoked := true)];
      }
    }

    method RevokeFamily(f: FamilyId)
      modifies this
      ensures forall st: Store :: st.tokens == old(tokens) ==> SessionModel.RevokeFamily(st, f).tokens == tokens
    {
      tokens := map t | t in tokens ::
        if tokens[t].family == f && !tokens[t].revoked then tokens[t].(revoked := true) else tokens[t];
    }

    method RevokeBySession(sid: SessionId)
      modifies this
      ensures forall st: Store :: st.tokens == old(tokens) ==> SessionModel.RevokeBySession(st, sid).tokens == tokens
    {
      tokens := map t | t in tokens ::
        if tokens[t].session == sid && !tokens[t].revoked then tokens[t].(revoked := true) else tokens[t];
    }

    method RevokeAllForUser(u: UserId)
      modifies this
      ensures forall st: Store :: st.tokens == old(tokens) ==> RevokeUserTokens(st, u).tokens == tokens
    {
      tokens := map t | t in tokens ::
        if tokens[t].user == u && !tokens[t].revoked then tokens[t].(revoked := true) else tokens[t];
    }
  }

  class SessionRepository {
    var sessions: map<SessionId, Session>

    constructor ()
      ensures sessions == map[]
    {
      sessions := map[];
    }

    method FindById(sid: SessionId) returns (r: Option<Session>)
      ensures r == if sid in sessions then Some(sessions[sid]) else None
    {
      r := if sid in sessions then Some(sessions[sid]) else None;
    }

    method Create(sid: SessionId, u: UserId, jti: Jti)
      modifies this
      ensures sessions == old(sessions)[sid := Session(u, jti, false)]
    {
      sessions := sessions[sid := Session(u, jti, false)];
    }

    method Touch(sid: SessionId, jti: Jti)
      modifies this
      ensures forall st: Store :: st.sessions == old(sessions) ==> SessionModel.Touch(st, sid, jti).sessions == sessions
    {
      if sid in sessions {
        sessions := sessions[sid := sessions[sid].(jti := jti)];
      }
    }

    method Revoke(sid: SessionId)
      modifies this
      ensures forall st: Store :: st.sessions == old(sessions) ==> RevokeSession(st, sid).sessions == sessions
    {
      if sid in sessions && !sessions[sid].revoked {
        sessions := sessions[sid := sessions[sid].(revoked := true)];
      }
    }

    /** Revokes the user's live sessions and returns which they were. */
    method RevokeAllForUser(u: UserId) returns (active: set<SessionId>)
      modifies this
      ensures forall st: Store :: st.sessions == old(sessions) ==>
        active == LiveSessions(st, u) && RevokeUserSessions(st, u).sessions == sessions
    {
      active := set sid | sid in sessions && sessions[sid].user == u && !sessions[sid].revoked;
      sessions := map sid | sid in sessions ::
        if sid in active then sessions[sid].(revoked := true) else sessions[sid];
    }
  }

  class TokenDenylist {
    var denied: map<Jti, nat>

    constructor ()
      ensures denied == map[]
    {
      denied := map[];
    }

    method Revoke(jti: Jti, ttlSeconds: nat, now: nat)
      modifies this
      ensures denied == old(denied)[jti := now + Max(ttlSeconds, 1) * 1000]
    {
      var seconds := if ttlSeconds >= 1 then ttlSeconds else 1;
      denied := denied[jti := now + seconds * 1000];
    }
  }

  /** now is the clock reading; every call below happens at one instant. */
  class IdentityService {
    const ttl: Ttl
    const users: set<UserId>
    const refreshTokens: RefreshTokenRepository
    const sessions: SessionRepository
    const denylist: TokenDenylist
    var issued: map<Jti, nat>

    constructor (ttl: Ttl, users: set<UserId>, tokens: RefreshTokenRepository, sessions: SessionRepository,
        denylist: TokenDenylist)
      ensures this.ttl == ttl && this.users == users && refreshTokens == tokens && this.sessions == sessions
      ensures this.denylist == denylist && issued == map[]
    {
      this.ttl, this.users, this.refreshTokens, this.sessions, this.denylist := ttl, users, tokens, sessions, denylist;
      this.issued := map[];
    }

    function View(now: nat): Store
      reads this, refreshTokens, sessions, denylist
    {
      Store(ttl, now, users, refreshTokens.tokens, sessions.sessions, denylist.denied, issued)
    }

    method IssueAccessToken(jti: Jti, now: nat)
      modifies this`issued
      ensures issued == old(issued)[jti := now / 1000 + ttl.accessSeconds]
    {
      issued := issued[jti := now / 1000 + ttl.accessSeconds];
    }

    method Refresh(token: TokenId, minted: TokenId, jti: Jti, now: nat) returns (r: Outcome)
      modifies this`issued, refreshTokens, sessions, denylist
      ensures (View(now), r) == RefreshCall(old(View(now)), token, minted, jti)
    {
      ghost var st := View(now);
      var existing := refreshTokens.FindByHash(token);
      if existing.None? {
        return Refused;
      }
      var row := existing.value;
      if row.revoked {
        refreshTokens.RevokeFamily(row.family);
        var session := sessions.FindById(row.session);
        if session.Some? {
          denylist.Revoke(session.value.jti, ttl.accessSeconds, now);
        }
        ghost var st2 := View(now);
        sessions.Revoke(row.session);
        assert View(now) == SessionModel.RevokeSession(st2, row.session);
        return Refused;
      }
      if row.expiresAt < now {
        return Refused;
      }
      refreshTokens.Revoke(token);
      assert View(now) == RevokeToken(st, token);
      if row.user !in users {
        return Refused;
      }
      IssueAccessToken(jti, now);
      refreshTokens.Create(minted, row.user, row.session, row.family, now + ttl.refreshSeconds * 1000);
      ghost var st3 := View(now);
      sessions.Touch(row.session, jti);
      assert View(now) == SessionModel.Touch(st3, row.session, jti);
      r := Refreshed(minted, jti);
    }

    method Logout(jti: Option<Jti>, token: Option<TokenId>, now: nat)
      modifies refreshTokens, sessions, denylist
      ensures View(now) == LogoutCall(old(View(now)), jti, token)
    {
      if jti.Some? {
        denylist.Revoke(jti.value, ttl.accessSeconds, now);
      }
      if token.Some? {
        ghost var st := View(now);
        var row := refreshTokens.FindByHash(token.value);
        if row.Some? {
          refreshTokens.Revoke(token.value);
          assert View(now) == RevokeToken(st, token.value);
          ghost var st2 := View(now);
          sessions.Revoke(row.value.session);
          assert View(now) == SessionModel.RevokeSession(st2, row.value.session);
        }
      }
    }

    method LogoutAll(u: UserId, now: nat)
      modifies refreshTokens, sessions, denylist
      ensures View(now) == LogoutAllCall(old(View(now)), u)
    {
      ghost var st := View(now);
      var active := sessions.RevokeAllForUser(u);
      assert View(now) == RevokeUserSessions(st, u);
      ghost var st1 := View(now);
      refreshTokens.RevokeAllForUser(u);
      ghost var st2 := View(now);
      assert st2 == RevokeUserTokens(st1, u);
      var rest := active;
      while rest != {}
        modifies denylist
        invariant rest <= active == LiveSessions(st, u)
        invariant View(now) == DenyAll(st2, active - rest)
      {
        var sid :| sid in rest;
        ghost var before := active - rest;
        denylist.Revoke(sessions.sessions[sid].jti, ttl.accessSeconds, now);
        rest := rest - {sid};
        DenyOneMore(st2, before, sid, active - rest);
      }
      assert active - rest == active;
    }

    method RevokeSession(u: UserId, sid: SessionId, now: nat) returns (found: bool)
      modifies refreshTokens, sessions, denylist
      ensures (View(now), found) == RevokeSessionCall(old(View(now)), u, sid)
    {
      ghost var st := View(now);
      var session := sessions.FindById(sid);
      if session.None? || session.value.user != u {
        return false;
      }
      refreshTokens.RevokeBySession(sid);
      ghost var st1 := View(now);
      assert st1 == SessionModel.RevokeBySession(st, sid);
      sessions.Revoke(sid);
      assert View(now) == SessionModel.RevokeSession(st1, sid);
      denylist.Revoke(session.value.jti, ttl.accessSeconds, now);
      found := true;
    }

    method IntrospectToken(jti: Jti, now: nat) returns (active: bool)
      ensures active <==> Introspect(View(now), jti)
    {
      if jti !in issued || now / 1000 >= issued[jti] {
        return false;
      }
      if jti in denylist.denied && now < denylist.denied[jti] {
        return false;
      }
      active := true;
    }
  }

  lemma DenyOneMore(st: Store, before: set<SessionId>, sid: SessionId, after: set<SessionId>)
    requires sid in st.sessions && after == before + {sid}
    ensures var j, st' := st.sessions[sid].jti, DenyAll(st, before);
      DenyAll(st, after) == st'.(denied := st'.denied[j := Deny(st, j).denied[j]])
  {
    assert CurrentOf(st, after) == CurrentOf(st, before) + {st.sessions[sid].jti};
    DenyOneToken(st, CurrentOf(st, before), st.sessions[sid].jti);
  }

  lemma DenyOneToken(st: Store, js: set<Jti>, j: Jti)
    ensures var st' := DenyTokens(st, js);
      DenyTokens(st, js + {j}) == st'.(denied := st'.denied[j := Deny(st, j).denied[j]])
  {}
}
