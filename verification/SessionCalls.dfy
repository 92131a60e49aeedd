/**
  Identity calls taken whole: what refresh, logout, logoutAll and revokeSession
  leave in the store, at most one active token per family, and access tokens
  that stay inactive once their session was revoked.
*/
module SessionCalls {
  import opened Common
  import opened SessionModel
  import opened TokenFamilies

  datatype Outcome = Refreshed(token: TokenId, jti: Jti) | Refused

  /** refresh: token is presented; minted and jti are the tokens minted if it rotates. */
  function RefreshCall(st: Store, token: TokenId, minted: TokenId, jti: Jti): (Store, Outcome) {
    if token !in st.tokens then (st, Refused)
    else
      var t := st.tokens[token];
      if t.revoked then (KillCall(st, t.family, t.session), Refused)
      else if t.expiresAt < st.now then (st, Refused)
      else if t.user !in st.users then (RevokeToken(st, token), Refused)
      else
        var rotated := CreateToken(IssueAccess(RevokeToken(st, token), jti), minted, t.user, t.session, t.family);
        (Touch(rotated, t.session, jti), Refreshed(minted, jti))
  }

  /** Reuse detected: family, access token and session go together. */
  function KillCall(st: Store, f: FamilyId, sid: SessionId): Store {
    var killed := RevokeFamily(st, f);
    RevokeSession(if sid in st.sessions then Deny(killed, st.sessions[sid].jti) else killed, sid)
  }

  function LoginCall(st: Store, u: UserId, sid: SessionId, jti: Jti, minted: TokenId, f: FamilyId): Store {
    CreateToken(CreateSession(IssueAccess(st, jti), sid, u, jti), minted, u, sid, f)
  }

  function RevokeSessionCall(st: Store, u: UserId, sid: SessionId): (Store, bool) {
    if sid !in st.sessions || st.sessions[sid].user != u then (st, false)
    else (Deny(RevokeSession(RevokeBySession(st, sid), sid), st.sessions[sid].jti), true)
  }

  /** The live sessions of a user: those logoutAll returns and denies. */
  function LiveSessions(st: Store, u: UserId): set<SessionId> {
    set sid | sid in st.sessions && st.sessions[sid].user == u && !st.sessions[sid].revoked
  }

  /** The current tokens of these sessions. */
  function CurrentOf(st: Store, sids: set<SessionId>): set<Jti> {
    set sid | sid in sids && sid in st.sessions :: st.sessions[sid].jti
  }

  function DenyTokens(st: Store, js: set<Jti>): Store {
    st.(denied := map j | j in st.denied.Keys + js :: if j in js then Deny(st, j).denied[j] else st.denied[j])
  }

  function DenyAll(st: Store, sids: set<SessionId>): Store {
    DenyTokens(st, CurrentOf(st, sids))
  }

  function LogoutAllCall(st: Store, u: UserId): Store {
    DenyAll(RevokeUserTokens(RevokeUserSessions(st, u), u), LiveSessions(st, u))
  }

  function LogoutCall(st: Store, jti: Option<Jti>, token: Option<TokenId>): Store {
    var denied := if jti.Some? then Deny(st, jti.value) else st;
    if token.None? || token.value !in st.tokens then denied
    else RevokeSession(RevokeToken(denied, token.value), st.tokens[token.value].session)
  }

  // ----- refresh taken whole is the protocol run alone -----

  function RunCall(s: State, c: nat, token: TokenId, jti: Jti, n: nat): State {
    if n == 0 then s else Step(RunCall(s, c, token, jti, n - 1), Next(c, token, jti, 0))
  }

  /** Calls, registry and grants aside, the state of a store. */
  function At(s: State, c: nat, st: Store, call: Call): State {
    s.(st := st, calls := s.calls[c := call])
  }

  lemma RotationBegins(s: State, c: nat, token: TokenId, minted: TokenId, jti: Jti)
    requires c !in s.calls && Usable(s.st, token) && s.st.tokens[token].user in s.st.users
    ensures var row := s.st.tokens[token];
      var s0 := Step(s, Present(c, token));
      RunCall(s0, c, minted, jti, 3) == At(s0, c, RevokeToken(s.st, token), Minting(row.family, row.session, row.user))
  {
    var row := s.st.tokens[token];
    var s0 := Step(s, Present(c, token));
    assert RunCall(s0, c, minted, jti, 1) == At(s0, c, s.st, Rotating(token, row.family, row.session, row.user));
    assert RunCall(s0, c, minted, jti, 2)
        == At(s0, c, RevokeToken(s.st, token), FindingUser(row.family, row.session, row.user));
  }

  lemma {:induction false} RotationAlone(s: State, c: nat, token: TokenId, minted: TokenId, jti: Jti)
    requires c !in s.calls && minted !in s.st.tokens && jti !in s.st.issued
    requires Usable(s.st, token) && s.st.tokens[token].user in s.st.users
    ensures var t := RunCall(Step(s, Present(c, token)), c, minted, jti, 5);
      && t.st == RefreshCall(s.st, token, minted, jti).0 && c in t.calls && t.calls[c] == Returned(true)
      && t.granted == s.granted + multiset{s.st.tokens[token].family}
  {
    var row := s.st.tokens[token];
    var s0 := Step(s, Present(c, token));
    var st1 := RevokeToken(s.st, token);
    var st2 := CreateToken(IssueAccess(st1, jti), minted, row.user, row.session, row.family);
    RotationBegins(s, c, token, minted, jti);
    assert RunCall(s0, c, minted, jti, 4) == At(s0, c, st2, Touching(row.family, row.session, jti));
  }

  lemma ReuseBegins(s: State, c: nat, token: TokenId, minted: TokenId, jti: Jti)
    requires c !in s.calls && token in s.st.tokens && s.st.tokens[token].revoked
    ensures var row := s.st.tokens[token];
      RunCall(Step(s, Present(c, token)), c, minted, jti, 2)
        == At(s, c, RevokeFamily(s.st, row.family), FindingSession(row.session))
  {
    var row := s.st.tokens[token];
    var s0 := Step(s, Present(c, token));
    assert RunCall(s0, c, minted, jti, 1) == At(s0, c, s.st, KillingFamily(row.family, row.session));
    assert At(s0, c, RevokeFamily(s.st, row.family), FindingSession(row.session))
      == At(s, c, RevokeFamily(s.st, row.family), FindingSession(row.session));
  }

  /** The awaits of a call after the family's revocation, with the session's row in place. */
  lemma KillsSession(s: State, c: nat, s0: State, st: Store, sid: SessionId, minted: TokenId, jti: Jti)
    requires sid in st.sessions && RunCall(s0, c, minted, jti, 2) == At(s, c, st, FindingSession(sid))
    ensures RunCall(s0, c, minted, jti, 5)
         == At(s, c, RevokeSession(Deny(st, st.sessions[sid].jti), sid), Returned(false))
  {
    var j := st.sessions[sid].jti;
    assert RunCall(s0, c, minted, jti, 3) == At(s, c, st, Denying(sid, j));
    assert RunCall(s0, c, minted, jti, 4) == At(s, c, Deny(st, j), KillingSession(sid));
  }

  lemma KillsNoSession(s: State, c: nat, s0: State, st: Store, sid: SessionId, minted: TokenId, jti: Jti)
    requires sid !in st.sessions && RunCall(s0, c, minted, jti, 2) == At(s, c, st, FindingSession(sid))
    ensures RunCall(s0, c, minted, jti, 5) == At(s, c, st, Returned(false))
  {
    assert RunCall(s0, c, minted, jti, 3) == At(s, c, st, KillingSession(sid));
    assert RunCall(s0, c, minted, jti, 4) == At(s, c, st, Returned(false));
  }

  /** A reused token: family, access token and session go, with or without a session row. */
  lemma ReuseAlone(s: State, c: nat, token: TokenId, minted: TokenId, jti: Jti)
    requires c !in s.calls && token in s.st.tokens && s.st.tokens[token].revoked
    ensures RunCall(Step(s, Present(c, token)), c, minted, jti, 5)
         == At(s, c, RefreshCall(s.st, token, minted, jti).0, Returned(false))
  {
    var row := s.st.tokens[token];
    var s0, st := Step(s, Present(c, token)), RevokeFamily(s.st, row.family);
    ReuseBegins(s, c, token, minted, jti);
    if row.session in s.st.sessions {
      KillsSession(s, c, s0, st, row.session, minted, jti);
    } else {
      KillsNoSession(s, c, s0, st, row.session, minted, jti);
    }
  }

  // ----- at most one active token per family -----

  datatype CallAction =
    | Refresh(token: TokenId, minted: TokenId, jti: Jti)
    | LogIn(user: UserId, session: SessionId, jti: Jti, minted: TokenId, family: FamilyId)
    | Logout(access: Option<Jti>, presented: Option<TokenId>)
    | LogoutAll(user: UserId)
    | RevokeOne(user: UserId, session: SessionId)
    | Elapse(ms: nat)

  function CallStep(st: Store, a: CallAction): Store {
    match a
    case Refresh(t, minted, j) => if minted in st.tokens || j in st.issued then st else RefreshCall(st, t, minted, j).0
    case LogIn(u, sid, j, minted, f) =>
      if minted in st.tokens || j in st.issued || sid in st.sessions
          || (exists t :: t in st.tokens && st.tokens[t].family == f)
      then st else LoginCall(st, u, sid, j, minted, f)
    case Logout(j, t) => LogoutCall(st, j, t)
    case LogoutAll(u) => LogoutAllCall(st, u)
    case RevokeOne(u, sid) => RevokeSessionCall(st, u, sid).0
    case Elapse(ms) => st.(now := st.now + ms)
  }

  function CallRun(st: Store, acts: seq<CallAction>): Store {
    if acts == [] then st else CallStep(CallRun(st, acts[..|acts| - 1]), acts[|acts| - 1])
  }

  ghost predicate OneActive(st: Store) {
    forall t, v | t in st.tokens && v in st.tokens && !st.tokens[t].revoked && !st.tokens[v].revoked ::
      st.tokens[t].family == st.tokens[v].family ==> t == v
  }

  lemma RefreshKeepsOneActive(st: Store, token: TokenId, minted: TokenId, jti: Jti)
    requires OneActive(st) && minted !in st.tokens
    ensures OneActive(RefreshCall(st, token, minted, jti).0)
  {
    if token in st.tokens {
      var t := st.tokens[token];
      if t.revoked {
        KillKeepsOneActive(st, t.family, t.session);
      } else if t.expiresAt >= st.now && t.user in st.users {
        RotationKeepsOneActive(st, token, minted, jti);
      }
    }
  }

  lemma KillKeepsOneActive(st: Store, f: FamilyId, sid: SessionId)
    requires OneActive(st)
    ensures OneActive(KillCall(st, f, sid))
  {}

  lemma RotationKeepsOneActive(st: Store, token: TokenId, minted: TokenId, jti: Jti)
    requires OneActive(st) && minted !in st.tokens && token in st.tokens && !st.tokens[token].revoked
    ensures var t := st.tokens[token];
      OneActive(Touch(CreateToken(IssueAccess(RevokeToken(st, token), jti), minted, t.user, t.session, t.family),
                      t.session, jti))
  {}

  lemma {:induction false} CallKeepsOneActive(st: Store, a: CallAction)
    requires OneActive(st)
    ensures OneActive(CallStep(st, a))
  {
    if a.Refresh? && a.minted !in st.tokens { RefreshKeepsOneActive(st, a.token, a.minted, a.jti); }
  }

  /** While identity calls do not overlap, a family never has two active tokens. */
  lemma {:induction false} OneActiveTokenPerFamily(ttl: Ttl, now: nat, users: set<UserId>, acts: seq<CallAction>)
    ensures OneActive(CallRun(Init(ttl, now, users).st, acts))
  {
    if acts == [] {
    } else {
      OneActiveTokenPerFamily(ttl, now, users, acts[..|acts| - 1]);
      CallKeepsOneActive(CallRun(Init(ttl, now, users).st, acts[..|acts| - 1]), acts[|acts| - 1]);
    }
  }

  // ----- and, when calls interleave, exactly until a refresh mints beside an active token -----

  /** A refresh stores its new token while its family still has, or again has, an unrevoked one. */
  ghost predicate MintsBeside(s: State, a: Action) {
    && a.Next? && a.call in s.calls && s.calls[a.call].Minting?
    && a.token !in s.st.tokens && a.jti !in s.st.issued
    && exists t :: t in s.st.tokens && s.st.tokens[t].family == s.calls[a.call].family && !s.st.tokens[t].revoked
  }

  /** A token is created: one active token per family, unless the family already had one. */
  lemma OneMoreToken(st: Store, st': Store, t: TokenId, row: Token)
    requires OneActive(st) && t !in st.tokens && st'.tokens == st.tokens[t := row] && !row.revoked
    ensures OneActive(st') <==>
      !exists v :: v in st.tokens && st.tokens[v].family == row.family && !st.tokens[v].revoked
  {
    if v :| v in st.tokens && st.tokens[v].family == row.family && !st.tokens[v].revoked {
      assert st'.tokens[v] == st.tokens[v] && st'.tokens[t] == row;
    }
  }

  lemma MintStep(s: State, c: nat, t: TokenId, j: Jti, g: FamilyId)
    requires OneActive(s.st) && c in s.calls && s.calls[c].Minting?
    ensures OneActive(Advance(s, c, t, j, g).st) <==> !MintsBeside(s, Next(c, t, j, g))
  {
    if t !in s.st.tokens && j !in s.st.issued {
      var k := s.calls[c];
      var st := IssueAccess(s.st, j);
      OneMoreToken(s.st, CreateToken(st, t, k.user, k.session, k.family), t,
        Token(k.user, k.session, k.family, st.now + st.ttl.refreshSeconds * 1000, false));
    }
  }

  lemma OtherAwaitKeepsOneActive(s: State, c: nat, t: TokenId, j: Jti, g: FamilyId)
    requires OneActive(s.st) && c in s.calls && !s.calls[c].Minting? && !s.calls[c].NewFamily?
    ensures OneActive(Advance(s, c, t, j, g).st)
  {
    if s.calls[c].Rotating? || s.calls[c].KillingFamily? {
    } else {
      SameTokens(s, c, t, j, g);
    }
  }

  lemma SameTokens(s: State, c: nat, t: TokenId, j: Jti, g: FamilyId)
    requires c in s.calls
    requires var k := s.calls[c]; !k.Minting? && !k.NewFamily? && !k.Rotating? && !k.KillingFamily?
    ensures Advance(s, c, t, j, g).st.tokens == s.st.tokens
  {
  }

  /** One step of any call or primitive. */
  lemma {:induction false} StepKeepsOneActive(s: State, a: Action)
    requires Linked(s) && OneActive(s.st)
    ensures OneActive(Step(s, a).st) <==> !MintsBeside(s, a)
  {
    if a.Next? && a.call in s.calls {
      if s.calls[a.call].Minting? {
        MintStep(s, a.call, a.token, a.jti, a.family);
      } else if s.calls[a.call].NewFamily? {
      } else {
        OtherAwaitKeepsOneActive(s, a.call, a.token, a.jti, a.family);
      }
    } else {
    }
  }

  /** No step of the run mints beside an active token. */
  ghost predicate NeverBeside(s: State, acts: seq<Action>) {
    forall i :: 0 <= i < |acts| ==> !MintsBeside(Run(s, acts[..i]), acts[i])
  }

  ghost predicate AlwaysOneActive(s: State, acts: seq<Action>) {
    forall k :: 0 <= k <= |acts| ==> OneActive(Run(s, acts[..k]).st)
  }

  /** Both directions at one prefix. */
  lemma PrefixStep(s: State, acts: seq<Action>, k: nat)
    requires k < |acts| && Linked(s) && OneActive(Run(s, acts[..k]).st)
    ensures OneActive(Run(s, acts[..k + 1]).st) <==> !MintsBeside(Run(s, acts[..k]), acts[k])
  {
    assert acts[..k + 1][..k] == acts[..k];
    AlwaysLinked(s, acts[..k]);
    StepKeepsOneActive(Run(s, acts[..k]), acts[k]);
  }

  /**
    In every interleaving, no family ever has two active tokens if and only if
    no refresh stores a token while its family has an unrevoked one.
  */
  lemma OneActiveExactly(ttl: Ttl, now: nat, users: set<UserId>, acts: seq<Action>)
    ensures AlwaysOneActive(Init(ttl, now, users), acts) <==> NeverBeside(Init(ttl, now, users), acts)
  {
    var s := Init(ttl, now, users);
    if AlwaysOneActive(s, acts) {
      forall i | 0 <= i < |acts| ensures !MintsBeside(Run(s, acts[..i]), acts[i]) { PrefixStep(s, acts, i); }
    }
    if NeverBeside(s, acts) {
      forall k | 0 <= k <= |acts| ensures OneActive(Run(s, acts[..k]).st) { OneActiveUpTo(s, acts, k); }
    }
  }

  lemma {:induction false} OneActiveUpTo(s: State, acts: seq<Action>, k: nat)
    requires Linked(s) && OneActive(s.st) && NeverBeside(s, acts) && k <= |acts|
    ensures OneActive(Run(s, acts[..k]).st)
  {
    if k == 0 {
      assert acts[..0] == [];
    } else {
      OneActiveUpTo(s, acts, k - 1);
      PrefixStep(s, acts, k - 1);
    }
  }

  /** Two refreshes of one token that both read it before either revokes it leave two active tokens. */
  lemma OverlapGivesTwo(s: State, c: nat, d: nat, t1: TokenId, t2: TokenId, j1: Jti, j2: Jti)
    requires c != d && c in s.calls && d in s.calls && s.calls[c].Minting? && s.calls[d] == s.calls[c]
    requires t1 !in s.st.tokens && t2 !in s.st.tokens && t1 != t2
    requires j1 !in s.st.issued && j2 !in s.st.issued && j1 != j2
    ensures var tokens := Step(Step(s, Next(c, t1, j1, 0)), Next(d, t2, j2, 0)).st.tokens;
      && t1 in tokens && t2 in tokens && !tokens[t1].revoked && !tokens[t2].revoked
      && tokens[t1].family == tokens[t2].family
  {}

  /** The reads of both calls come first; revoking the same token twice stops neither. */
  lemma OverlapReachesMinting(s: State, c: nat, d: nat, t: TokenId)
    requires Linked(s) && c != d && c in s.calls && d in s.calls && Usable(s.st, t)
    requires s.calls[c] == Finding(t) && s.calls[d] == Finding(t)
    ensures var both := Step(Step(s, Next(c, 0, 0, 0)), Next(d, 0, 0, 0));
      var rotated := Step(Step(both, Next(c, 0, 0, 0)), Next(d, 0, 0, 0));
      var found := Step(Step(rotated, Next(c, 0, 0, 0)), Next(d, 0, 0, 0));
      c in found.calls && d in found.calls && found.calls[c].Minting? && found.calls[c] == found.calls[d]
  {
    var row := s.st.tokens[t];
    assert row.user in s.st.users;
    var both := Step(Step(s, Next(c, 0, 0, 0)), Next(d, 0, 0, 0));
    var r := Rotating(t, row.family, row.session, row.user);
    assert both.calls == s.calls[c := r][d := r];
    var rotated := Step(Step(both, Next(c, 0, 0, 0)), Next(d, 0, 0, 0));
    var u := FindingUser(row.family, row.session, row.user);
    assert rotated.calls == s.calls[c := r][d := r][c := u][d := u] && rotated.st.users == s.st.users;
  }
}
