/**
  Access tokens of revoked sessions, over every later run: the denylist key
  outlives the token it denies, and a quiet family never changes its session's
  current token.
*/
module AccessTokens {
  import opened SessionModel
  import opened Common
  import opened TokenFamilies
  import opened SessionCalls

  /** No token lives longer than one access lifetime from now. */
  ghost predicate IssuedOk(st: Store) {
    forall j :: j in st.issued ==> st.issued[j] * 1000 <= st.now + st.ttl.accessSeconds * 1000
  }

  /** The denylist key lasts at least until the token's own expiry. */
  predicate Outlasted(st: Store, j: Jti) {
    j in st.denied && j in st.issued && st.issued[j] * 1000 <= st.denied[j]
  }

  lemma StepKeepsIssued(s: State, a: Action)
    requires IssuedOk(s.st)
    ensures IssuedOk(Step(s, a).st)
  {
  }

  lemma AdvanceKeepsOutlasted(s: State, c: nat, t: TokenId, k: Jti, g: FamilyId, j: Jti)
    requires IssuedOk(s.st) && c in s.calls && Outlasted(s.st, j)
    ensures Outlasted(Advance(s, c, t, k, g).st, j)
  {
    match s.calls[c] {
      case Minting(_, _, _) =>
      case Denying(_, _) =>
      case _ => assert Advance(s, c, t, k, g).st.denied == s.st.denied
          && Advance(s, c, t, k, g).st.issued == s.st.issued;
    }
  }

  lemma StepKeepsOutlasted(s: State, a: Action, j: Jti)
    requires IssuedOk(s.st) && Outlasted(s.st, j)
    ensures Outlasted(Step(s, a).st, j)
  {
    if a.Next? && a.call in s.calls { AdvanceKeepsOutlasted(s, a.call, a.token, a.jti, a.family, j); }
  }

  /** The arithmetic of the guarantee: at the moment of denying, the key outlasts the token. */
  lemma DenyOutlasts(st: Store, j: Jti)
    requires IssuedOk(st) && j in st.issued
    ensures Outlasted(Deny(st, j), j)
  {}

  /** A denied token is inactive at every later time, in every interleaving. */
  lemma {:induction false} DeniedForEver(s: State, acts: seq<Action>, j: Jti)
    requires IssuedOk(s.st) && Outlasted(s.st, j)
    ensures IssuedOk(Run(s, acts).st) && Outlasted(Run(s, acts).st, j) && !Introspect(Run(s, acts).st, j)
  {
    if acts == [] {
    } else {
      DeniedForEver(s, acts[..|acts| - 1], j);
      StepKeepsIssued(Run(s, acts[..|acts| - 1]), acts[|acts| - 1]);
      StepKeepsOutlasted(Run(s, acts[..|acts| - 1]), acts[|acts| - 1], j);
    }
  }

  // ----- the session's current token -----

  /** The session exists with a signed current token. */
  predicate HasToken(st: Store, sid: SessionId) {
    sid in st.sessions && st.sessions[sid].jti in st.issued
  }

  /**
    logout with a refresh token ends the family exactly when the token presented
    is its only active one; an already rotated token leaves the active one alone.
  */
  lemma LogoutEndsFamily(st: Store, jti: Option<Jti>, t: TokenId)
    requires OneActive(st) && t in st.tokens
    ensures var f := st.tokens[t].family;
      var after := LogoutCall(st, jti, Some(t));
      (forall v :: v in after.tokens && after.tokens[v].family == f ==> after.tokens[v].revoked)
      <==> (!st.tokens[t].revoked || forall v :: v in st.tokens && st.tokens[v].family == f ==> st.tokens[v].revoked)
  {
    var after := LogoutCall(st, jti, Some(t));
    var f := st.tokens[t].family;
    if st.tokens[t].revoked {
      assert after.tokens == st.tokens;
    }
  }

  // ----- reachable states -----

  /** Every session's current token, and every token about to become one, was signed. */
  ghost predicate Signed(s: State) {
    && (forall sid :: sid in s.st.sessions ==> HasToken(s.st, sid))
    && (forall c :: c in s.calls && s.calls[c].Touching? ==> s.calls[c].jti in s.st.issued)
  }

  lemma AdvanceKeepsSigned(s: State, c: nat, t: TokenId, j: Jti, g: FamilyId)
    requires Signed(s) && c in s.calls
    ensures Signed(Advance(s, c, t, j, g))
  {
    AdvanceKeepsTouching(s, c, t, j, g);
    AdvanceKeepsCurrent(s, c, t, j, g);
  }

  lemma AdvanceKeepsCurrent(s: State, c: nat, t: TokenId, j: Jti, g: FamilyId)
    requires Signed(s) && c in s.calls
    ensures var st := Advance(s, c, t, j, g).st; forall sid :: sid in st.sessions ==> HasToken(st, sid)
  {
    var s' := Advance(s, c, t, j, g);
    forall sid | sid in s'.st.sessions ensures HasToken(s'.st, sid) {
      assert HasToken(s.st, sid);
    }
  }

  lemma AdvanceKeepsTouching(s: State, c: nat, t: TokenId, j: Jti, g: FamilyId)
    requires Signed(s) && c in s.calls
    ensures var s' := Advance(s, c, t, j, g);
      forall d :: d in s'.calls && s'.calls[d].Touching? ==> s'.calls[d].jti in s'.st.issued
  {
    var s' := Advance(s, c, t, j, g);
    forall d | d in s'.calls && s'.calls[d].Touching? ensures s'.calls[d].jti in s'.st.issued {
      if d != c { assert s'.calls[d] == s.calls[d]; }
    }
  }

  lemma StepKeepsSigned(s: State, a: Action)
    requires Signed(s)
    ensures Signed(Step(s, a))
  {
    var s' := Step(s, a);
    if a.Next? {
      if a.call in s.calls { AdvanceKeepsSigned(s, a.call, a.token, a.jti, a.family); }
    } else {
      forall sid | sid in s'.st.sessions ensures HasToken(s'.st, sid) {
        if sid in s.st.sessions { assert HasToken(s.st, sid); }
      }
    }
  }

  /** What every theorem above asks of the state holds in every run from an empty store. */
  lemma {:induction false} Reached(ttl: Ttl, now: nat, users: set<UserId>, acts: seq<Action>)
    ensures var s := Run(Init(ttl, now, users), acts); Linked(s) && IssuedOk(s.st) && Signed(s)
  {
    if acts == [] {
    } else {
      var s, a := Run(Init(ttl, now, users), acts[..|acts| - 1]), acts[|acts| - 1];
      Reached(ttl, now, users, acts[..|acts| - 1]);
      StepKeepsLinked(s, a);
      StepKeepsIssued(s, a);
      StepKeepsSigned(s, a);
    }
  }
}
