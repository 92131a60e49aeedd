/**
  Sessions, refresh-token families and the access-token denylist: the stored
  state, the atomic repository primitives, and refresh as a protocol whose calls
  interleave at every await.  Times are in milliseconds unless a name says seconds.
*/
module SessionModel {
  import opened Runs
  type UserId = string
  /** A refresh token; its stored hash is injective, so the token stands for it. */
  type TokenId = nat
  type FamilyId = nat
  type SessionId = nat
  type Jti = nat

  datatype Token = Token(user: UserId, session: SessionId, family: FamilyId, expiresAt: nat, revoked: bool)
  datatype Session = Session(user: UserId, jti: Jti, revoked: bool)
  datatype Ttl = Ttl(accessSeconds: nat, refreshSeconds: nat)

  /** denied maps a jti to when its denylist key expires; issued maps it to its exp claim, in seconds. */
  datatype Store = Store(ttl: Ttl, now: nat, users: set<UserId>, tokens: map<TokenId, Token>,
                         sessions: map<SessionId, Session>, denied: map<Jti, nat>, issued: map<Jti, nat>)

  // ----- repository and denylist primitives -----

  function RevokeIf(st: Store, ids: set<TokenId>): Store {
    st.(tokens := map t | t in st.tokens :: if t in ids then st.tokens[t].(revoked := true) else st.tokens[t])
  }

  function RevokeToken(st: Store, id: TokenId): Store {
    RevokeIf(st, {id})
  }

  function RevokeFamily(st: Store, f: FamilyId): Store {
    RevokeIf(st, set t | t in st.tokens && st.tokens[t].family == f)
  }

  function RevokeBySession(st: Store, sid: SessionId): Store {
    RevokeIf(st, set t | t in st.tokens && st.tokens[t].session == sid)
  }

  function RevokeUserTokens(st: Store, u: UserId): Store {
    RevokeIf(st, set t | t in st.tokens && st.tokens[t].user == u)
  }

  function RevokeSession(st: Store, sid: SessionId): Store {
    if sid in st.sessions then st.(sessions := st.sessions[sid := st.sessions[sid].(revoked := true)]) else st
  }

  function RevokeUserSessions(st: Store, u: UserId): Store {
    st.(sessions := map s | s in st.sessions ::
      if st.sessions[s].user == u then st.sessions[s].(revoked := true) else st.sessions[s])
  }

  function Max(a: nat, b: nat): nat {
    if a >= b then a else b
  }

  /** SET revoked:jti:{jti} EX max(ttl, 1). */
  function Deny(st: Store, j: Jti): Store {
    st.(denied := st.denied[j := st.now + Max(st.ttl.accessSeconds, 1) * 1000])
  }

  /** Signing an access token: exp is whole seconds after the whole second of issue. */
  function IssueAccess(st: Store, j: Jti): Store {
    st.(issued := st.issued[j := st.now / 1000 + st.ttl.accessSeconds])
  }

  function CreateToken(st: Store, id: TokenId, u: UserId, sid: SessionId, f: FamilyId): Store {
    st.(tokens := st.tokens[id := Token(u, sid, f, st.now + st.ttl.refreshSeconds * 1000, false)])
  }

  function CreateSession(st: Store, sid: SessionId, u: UserId, j: Jti): Store {
    st.(sessions := st.sessions[sid := Session(u, j, false)])
  }

  function Touch(st: Store, sid: SessionId, j: Jti): Store {
    if sid in st.sessions then st.(sessions := st.sessions[sid := st.sessions[sid].(jti := j)]) else st
  }

  /** introspectToken: signature and exp first, then the denylist key if it has not expired. */
  predicate Introspect(st: Store, j: Jti) {
    j in st.issued && st.now / 1000 < st.issued[j] && !(j in st.denied && st.now < st.denied[j])
  }

  // ----- refresh and login calls, named by the call they make next -----

  datatype Call =
    | Finding(token: TokenId)
    | Rotating(token: TokenId, family: FamilyId, session: SessionId, user: UserId)
    | FindingUser(family: FamilyId, session: SessionId, user: UserId)
    | Minting(family: FamilyId, session: SessionId, user: UserId)
    | Touching(family: FamilyId, session: SessionId, jti: Jti)
    | KillingFamily(family: FamilyId, session: SessionId)
    | FindingSession(session: SessionId)
    | Denying(session: SessionId, jti: Jti)
    | KillingSession(session: SessionId)
    | NewFamily(session: SessionId, user: UserId)
    | Returned(success: bool)

  /**
    registry records the session and user each family was created for; granted
    counts the refresh calls of each family that returned new tokens.
  */
  datatype State = State(st: Store, calls: map<nat, Call>, registry: map<FamilyId, (SessionId, UserId)>,
                         granted: multiset<FamilyId>)

  datatype Action =
    | Present(call: nat, token: TokenId)
    | Next(call: nat, token: TokenId, jti: Jti, family: FamilyId)
    | Login(call: nat, session: SessionId, jti: Jti, user: UserId)
    | DoRevokeToken(token: TokenId)
    | DoRevokeFamily(family: FamilyId)
    | DoRevokeBySession(session: SessionId)
    | DoRevokeUserTokens(user: UserId)
    | DoRevokeSession(session: SessionId)
    | DoRevokeUserSessions(user: UserId)
    | DoDeny(jti: Jti)
    | Wait(ms: nat)

  /** findByHash, then: unknown, reused (revoked), expired, or to be rotated. */
  function AfterFind(st: Store, token: TokenId): Call {
    if token !in st.tokens then Returned(false)
    else
      var t := st.tokens[token];
      if t.revoked then KillingFamily(t.family, t.session)
      else if t.expiresAt < st.now then Returned(false)
      else Rotating(token, t.family, t.session, t.user)
  }

  /** One await of a call; token, jti and family are the UUIDs it draws, if any. */
  function Advance(s: State, c: nat, token: TokenId, jti: Jti, family: FamilyId): State
    requires c in s.calls
  {
    var st := s.st;
    match s.calls[c]
    case Finding(t) => s.(calls := s.calls[c := AfterFind(st, t)])
    case Rotating(t, f, sid, u) =>
      s.(st := RevokeToken(st, t), calls := s.calls[c := FindingUser(f, sid, u)])
    case FindingUser(f, sid, u) =>
      s.(calls := s.calls[c := if u in st.users then Minting(f, sid, u) else Returned(false)])
    case Minting(f, sid, u) =>
      if token in st.tokens || jti in st.issued then s
      else s.(st := CreateToken(IssueAccess(st, jti), token, u, sid, f), calls := s.calls[c := Touching(f, sid, jti)])
    case Touching(f, sid, j) =>
      s.(st := Touch(st, sid, j), calls := s.calls[c := Returned(true)], granted := s.granted + multiset{f})
    case KillingFamily(f, sid) =>
      s.(st := RevokeFamily(st, f), calls := s.calls[c := FindingSession(sid)])
    case FindingSession(sid) =>
      s.(calls := s.calls[c := if sid in st.sessions then Denying(sid, st.sessions[sid].jti) else KillingSession(sid)])
    case Denying(sid, j) => s.(st := Deny(st, j), calls := s.calls[c := KillingSession(sid)])
    case KillingSession(sid) => s.(st := RevokeSession(st, sid), calls := s.calls[c := Returned(false)])
    case NewFamily(sid, u) =>
      if token in st.tokens || family in s.registry then s
      else s.(st := CreateToken(st, token, u, sid, family), calls := s.calls[c := Returned(true)],
              registry := s.registry[family := (sid, u)])
    case Returned(_) => s
  }

  function Step(s: State, a: Action): State {
    match a
    case Present(c, t) => if c in s.calls then s else s.(calls := s.calls[c := Finding(t)])
    case Next(c, t, j, f) => if c in s.calls then Advance(s, c, t, j, f) else s
    case Login(c, sid, j, u) =>
      if c in s.calls || sid in s.st.sessions || j in s.st.issued || u !in s.st.users then s
      else s.(st := CreateSession(IssueAccess(s.st, j), sid, u, j), calls := s.calls[c := NewFamily(sid, u)])
    case DoRevokeToken(t) => s.(st := RevokeToken(s.st, t))
    case DoRevokeFamily(f) => s.(st := RevokeFamily(s.st, f))
    case DoRevokeBySession(sid) => s.(st := RevokeBySession(s.st, sid))
    case DoRevokeUserTokens(u) => s.(st := RevokeUserTokens(s.st, u))
    case DoRevokeSession(sid) => s.(st := RevokeSession(s.st, sid))
    case DoRevokeUserSessions(u) => s.(st := RevokeUserSessions(s.st, u))
    case DoDeny(j) => s.(st := Deny(s.st, j))
    case Wait(ms) => s.(st := s.st.(now := s.st.now + ms))
  }

  function Run(s: State, acts: seq<Action>): State {
    Fold(Step, s, acts)
  }

  function Init(ttl: Ttl, now: nat, users: set<UserId>): State {
    State(Store(ttl, now, users, map[], map[], map[], map[]), map[], map[], multiset{})
  }
}
