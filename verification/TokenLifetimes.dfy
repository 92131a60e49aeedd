/** How long the tokens handed out work: by the outcome of presenting them, at any later time of any run. */
module TokenLifetimes {
  import opened Runs
  import opened SessionModel
  import opened TokenFamilies
  import opened SessionCalls

  /** The row of a refresh token changes only by being revoked. */
  predicate SameRow(st: Store, st': Store, t: TokenId) {
    && t in st.tokens && t in st'.tokens && st'.tokens[t].(revoked := st.tokens[t].revoked) == st.tokens[t]
    && (st.tokens[t].revoked ==> st'.tokens[t].revoked)
  }

  lemma AdvanceKeepsRow(s: State, c: nat, t: TokenId, k: Jti, g: FamilyId, v: TokenId)
    requires c in s.calls && v in s.st.tokens
    ensures SameRow(s.st, Advance(s, c, t, k, g).st, v)
  {
    match s.calls[c]
    case Finding(_) =>
    case Rotating(_, _, _, _) =>
    case FindingUser(_, _, _) =>
    case Minting(_, _, _) =>
    case Touching(_, _, _) =>
    case KillingFamily(_, _) =>
    case FindingSession(_) =>
    case Denying(_, _) =>
    case KillingSession(_) =>
    case NewFamily(_, _) =>
    case Returned(_) =>
  }

  lemma StepKeepsRow(s: State, a: Action, v: TokenId)
    requires v in s.st.tokens
    ensures SameRow(s.st, Step(s, a).st, v)
  {
    if a.Next? && a.call in s.calls { AdvanceKeepsRow(s, a.call, a.token, a.jti, a.family, v); }
  }

  lemma {:induction false} RunKeepsRow(s: State, acts: seq<Action>, v: TokenId)
    requires v in s.st.tokens
    ensures SameRow(s.st, Run(s, acts).st, v)
  {
    if acts == [] {
    } else {
      RunKeepsRow(s, acts[..|acts| - 1], v);
      StepKeepsRow(Run(s, acts[..|acts| - 1]), acts[|acts| - 1], v);
    }
  }

  lemma MintedRow(s: State, a: Action, t: TokenId)
    requires t !in s.st.tokens && t in Step(s, a).st.tokens
    ensures var row := Step(s, a).st.tokens[t];
      !row.revoked && row.expiresAt == s.st.now + s.st.ttl.refreshSeconds * 1000
  {
    assert a.Next? && a.call in s.calls && (s.calls[a.call].Minting? || s.calls[a.call].NewFamily?) by {
      if a.Next? && a.call in s.calls {
        if !s.calls[a.call].Minting? && !s.calls[a.call].NewFamily? {
          AdvanceMintsNone(s, a.call, a.token, a.jti, a.family);
        }
      }
    }
  }

  lemma AdvanceMintsNone(s: State, c: nat, t: TokenId, k: Jti, g: FamilyId)
    requires c in s.calls && !s.calls[c].Minting? && !s.calls[c].NewFamily?
    ensures Advance(s, c, t, k, g).st.tokens.Keys == s.st.tokens.Keys
  {
    match s.calls[c]
    case Finding(_) =>
    case Rotating(_, _, _, _) =>
    case FindingUser(_, _, _) =>
    case Touching(_, _, _) =>
    case KillingFamily(_, _) =>
    case FindingSession(_) =>
    case Denying(_, _) =>
    case KillingSession(_) =>
    case Returned(_) =>
  }

  /** Presented in any later state, the token is let through to its rotation. */
  predicate Rotates(s: State, c: nat, t: TokenId)
    requires c !in s.calls
  {
    var s' := Step(Step(s, Present(c, t)), Next(c, 0, 0, 0));
    c in s'.calls && s'.calls[c].Rotating?
  }

  /**
    A refresh token stored by any step, of a refresh or of a login: whatever runs
    afterwards, presenting it rotates it if and only if it was not revoked
    meanwhile and the time it was stored plus refreshSeconds is not past.
  */
  lemma {:induction false} RefreshTokenLives(s: State, a: Action, t: TokenId, more: seq<Action>, c: nat)
    requires t !in s.st.tokens && t in Step(s, a).st.tokens && c !in Run(Step(s, a), more).calls
    ensures var s' := Run(Step(s, a), more);
      t in s'.st.tokens
      && (Rotates(s', c, t) <==>
            !s'.st.tokens[t].revoked && s'.st.now <= s.st.now + s.st.ttl.refreshSeconds * 1000)
  {
    MintedRow(s, a, t);
    RunKeepsRow(Step(s, a), more, t);
  }

  /**
    The same for a refresh taken whole, answered at the end: with its user still
    known, the token minted is granted a refresh under exactly that condition.
  */
  lemma {:induction false} RefreshedTokenLives(s: State, token: TokenId, t: TokenId, jti: Jti, more: seq<Action>,
      minted: TokenId, next: Jti)
    requires t !in s.st.tokens && RefreshCall(s.st, token, t, jti).1.Refreshed?
    ensures var s' := Run(s.(st := RefreshCall(s.st, token, t, jti).0), more);
      t in s'.st.tokens
      && (s'.st.tokens[t].user in s'.st.users ==>
            (RefreshCall(s'.st, t, minted, next).1.Refreshed? <==>
              !s'.st.tokens[t].revoked && s'.st.now <= s.st.now + s.st.ttl.refreshSeconds * 1000))
  {
    RunKeepsRow(s.(st := RefreshCall(s.st, token, t, jti).0), more, t);
  }

  lemma {:induction false} LoggedInTokenLives(s: State, u: UserId, sid: SessionId, jti: Jti, t: TokenId, f: FamilyId,
      more: seq<Action>, minted: TokenId, next: Jti)
    requires t !in s.st.tokens
    ensures var s' := Run(s.(st := LoginCall(s.st, u, sid, jti, t, f)), more);
      t in s'.st.tokens && s'.st.tokens[t].user == u
      && (u in s'.st.users ==>
            (RefreshCall(s'.st, t, minted, next).1.Refreshed? <==>
              !s'.st.tokens[t].revoked && s'.st.now <= s.st.now + s.st.ttl.refreshSeconds * 1000))
  {
    RunKeepsRow(s.(st := LoginCall(s.st, u, sid, jti, t, f)), more, t);
  }

  // ----- access tokens -----

  lemma SignedExp(s: State, a: Action, j: Jti)
    requires j !in s.st.issued && j in Step(s, a).st.issued
    ensures Step(s, a).st.issued[j] == s.st.now / 1000 + s.st.ttl.accessSeconds
  {
    if a.Next? && a.call in s.calls { AdvanceSignedExp(s, a.call, a.token, a.jti, a.family, j); }
  }

  lemma AdvanceSignedExp(s: State, c: nat, t: TokenId, k: Jti, g: FamilyId, j: Jti)
    requires c in s.calls && j !in s.st.issued && j in Advance(s, c, t, k, g).st.issued
    ensures Advance(s, c, t, k, g).st.issued[j] == s.st.now / 1000 + s.st.ttl.accessSeconds
  {
    assert s.calls[c].Minting?;
  }

  lemma {:induction false} RunKeepsExp(s: State, acts: seq<Action>, j: Jti)
    requires j in s.st.issued
    ensures var st := Run(s, acts).st; j in st.issued && st.issued[j] == s.st.issued[j]
  {
    if acts == [] {
    } else {
      RunKeepsExp(s, acts[..|acts| - 1], j);
      StepKeepsExp(Run(s, acts[..|acts| - 1]), acts[|acts| - 1], j);
    }
  }

  lemma StepKeepsExp(s: State, a: Action, j: Jti)
    requires j in s.st.issued
    ensures var st := Step(s, a).st; j in st.issued && st.issued[j] == s.st.issued[j]
  {
    if a.Next? && a.call in s.calls { AdvanceKeepsExp(s, a.call, a.token, a.jti, a.family, j); }
  }

  lemma AdvanceKeepsExp(s: State, c: nat, t: TokenId, k: Jti, g: FamilyId, j: Jti)
    requires c in s.calls && j in s.st.issued
    ensures var st := Advance(s, c, t, k, g).st; j in st.issued && st.issued[j] == s.st.issued[j]
  {}

  /**
    An access token signed by any step: whatever runs afterwards, it is active if
    and only if fewer than accessSeconds have gone by since, in whole seconds of
    the clock, and no denylist key for it stands.
  */
  lemma {:induction false} AccessTokenLives(s: State, a: Action, j: Jti, more: seq<Action>)
    requires j !in s.st.issued && j in Step(s, a).st.issued
    ensures var st := Run(Step(s, a), more).st;
      Introspect(st, j) <==>
        st.now / 1000 - s.st.now / 1000 < s.st.ttl.accessSeconds && !(j in st.denied && st.now < st.denied[j])
  {
    SignedExp(s, a, j);
    RunKeepsExp(Step(s, a), more, j);
  }

  // ----- what a refresh hands out -----

  /** The pair answered works: a refresh token of the same family, and the session's new current access token. */
  lemma RefreshGrants(st: Store, token: TokenId, minted: TokenId, jti: Jti)
    requires minted !in st.tokens && RefreshCall(st, token, minted, jti).1.Refreshed?
    ensures var (st', out) := RefreshCall(st, token, minted, jti);
      && token in st.tokens && out.token in st'.tokens && out.token != token
      && var was, row := st.tokens[token], st'.tokens[out.token];
        && row.user == was.user && row.session == was.session && row.family == was.family
        && !was.revoked && !row.revoked && st'.tokens[token].revoked
        && (was.session in st.sessions ==> st'.sessions[was.session] == st.sessions[was.session].(jti := out.jti))
        && (st.ttl.accessSeconds > 0 && out.jti !in st.denied ==> Introspect(st', out.jti))
  {}
}
