/** What holds of token families over every run, with calls interleaved at every await. */
module TokenFamilies {
  import opened SessionModel
  import opened Runs

  // ----- families and sessions are linked one to one -----

  predicate CallLinked(s: State, call: Call) {
    match call
    case Rotating(_, f, sid, u) => f in s.registry && s.registry[f] == (sid, u)
    case FindingUser(f, sid, u) => f in s.registry && s.registry[f] == (sid, u)
    case Minting(f, sid, u) => f in s.registry && s.registry[f] == (sid, u)
    case Touching(f, sid, _) => f in s.registry && s.registry[f].0 == sid
    case KillingFamily(f, sid) => f in s.registry && s.registry[f].0 == sid
    case NewFamily(sid, u) => sid in s.st.sessions && u in s.st.users && forall f :: f in s.registry ==>
      s.registry[f].0 != sid
    case _ => true
  }

  ghost predicate TokensLinked(s: State) {
    forall t :: t in s.st.tokens ==>
      s.st.tokens[t].family in s.registry
      && s.registry[s.st.tokens[t].family] == (s.st.tokens[t].session, s.st.tokens[t].user)
  }

  /** Distinct families have distinct sessions; a login in progress has a session of its own. */
  ghost predicate RegistryOk(s: State) {
    && (forall f :: f in s.registry ==> s.registry[f].0 in s.st.sessions && s.registry[f].1 in s.st.users)
    && (forall f, g :: f in s.registry && g in s.registry && s.registry[f].0 == s.registry[g].0 ==> f == g)
    && (forall c, d | c in s.calls && d in s.calls && s.calls[c].NewFamily? && s.calls[d].NewFamily? ::
          s.calls[c].session == s.calls[d].session ==> c == d)
  }

  ghost predicate Linked(s: State) {
    TokensLinked(s) && RegistryOk(s) && forall c :: c in s.calls ==> CallLinked(s, s.calls[c])
  }

  lemma AdvanceKeepsTokens(s: State, c: nat, t: TokenId, j: Jti, f: FamilyId)
    requires TokensLinked(s) && c in s.calls && CallLinked(s, s.calls[c])
    ensures TokensLinked(Advance(s, c, t, j, f))
  {}

  lemma AdvanceKeepsRegistry(s: State, c: nat, t: TokenId, j: Jti, f: FamilyId)
    requires RegistryOk(s) && c in s.calls && CallLinked(s, s.calls[c])
    ensures RegistryOk(Advance(s, c, t, j, f))
  {}

  lemma {:induction false} AdvanceKeepsCalls(s: State, c: nat, t: TokenId, j: Jti, f: FamilyId, d: nat)
    requires Linked(s) && c in s.calls && d in s.calls
    ensures var s' := Advance(s, c, t, j, f); d in s'.calls && CallLinked(s', s'.calls[d])
  {
    if d == c { AdvanceLinksItself(s, c, t, j, f); } else { AdvanceLinksOthers(s, c, t, j, f, d); }
  }

  lemma AdvanceLinksItself(s: State, c: nat, t: TokenId, j: Jti, f: FamilyId)
    requires TokensLinked(s) && c in s.calls && CallLinked(s, s.calls[c])
    ensures var s' := Advance(s, c, t, j, f); c in s'.calls && CallLinked(s', s'.calls[c])
  {}

  lemma AdvanceLinksOthers(s: State, c: nat, t: TokenId, j: Jti, f: FamilyId, d: nat)
    requires RegistryOk(s) && c in s.calls && d in s.calls && d != c && CallLinked(s, s.calls[d])
    ensures var s' := Advance(s, c, t, j, f); d in s'.calls && CallLinked(s', s'.calls[d])
  {
    AdvanceFrame(s, c, t, j, f);
    AdvanceKeepsSessions(s, c, t, j, f);
  }

  lemma AdvanceFrame(s: State, c: nat, t: TokenId, j: Jti, f: FamilyId)
    requires c in s.calls
    ensures var s' := Advance(s, c, t, j, f);
      forall d :: d in s.calls && d != c ==> d in s'.calls && s'.calls[d] == s.calls[d]
  {}

  lemma {:induction false} AdvanceKeepsSessions(s: State, c: nat, t: TokenId, j: Jti, f: FamilyId)
    requires c in s.calls
    ensures var s' := Advance(s, c, t, j, f); s'.st.users == s.st.users && s'.st.sessions.Keys == s.st.sessions.Keys
  {
    match s.calls[c] {
      case Touching(_, sid, k) => assert Touch(s.st, sid, k).sessions.Keys == s.st.sessions.Keys;
      case KillingSession(sid) => assert RevokeSession(s.st, sid).sessions.Keys == s.st.sessions.Keys;
      case _ =>
    }
  }

  lemma {:induction false} StepKeepsLinked(s: State, a: Action)
    requires Linked(s)
    ensures Linked(Step(s, a))
  {
    var s' := Step(s, a);
    if a.Next? {
      if a.call in s.calls {
        AdvanceKeepsTokens(s, a.call, a.token, a.jti, a.family);
        AdvanceKeepsRegistry(s, a.call, a.token, a.jti, a.family);
        forall d | d in s'.calls ensures CallLinked(s', s'.calls[d]) {
          AdvanceKeepsCalls(s, a.call, a.token, a.jti, a.family, d);
        }
      }
    } else {
      OtherKeepsLinked(s, a);
    }
  }

  /** New calls, logins, the passing of time and the revoking primitives. */
  lemma {:induction false} OtherKeepsLinked(s: State, a: Action)
    requires Linked(s) && !a.Next?
    ensures Linked(Step(s, a))
  {
    var s' := Step(s, a);
    if a.Login? {
      LoginKeepsLinked(s, a);
    } else {
      forall d | d in s'.calls ensures CallLinked(s', s'.calls[d]) {
        if d in s.calls { assert CallLinked(s, s.calls[d]); }
      }
    }
  }

  lemma LoginKeepsLinked(s: State, a: Action)
    requires Linked(s) && a.Login?
    ensures Linked(Step(s, a))
  {
    var s' := Step(s, a);
    forall d | d in s'.calls ensures CallLinked(s', s'.calls[d]) {
      if d in s.calls { assert CallLinked(s, s.calls[d]); }
    }
  }

  lemma {:induction false} AlwaysLinked(s: State, acts: seq<Action>)
    requires Linked(s)
    ensures Linked(Run(s, acts))
  {
    if acts == [] {
    } else {
      AlwaysLinked(s, acts[..|acts| - 1]);
      StepKeepsLinked(Run(s, acts[..|acts| - 1]), acts[|acts| - 1]);
    }
  }

  /** In every run, two tokens share a family exactly when they share a session. */
  lemma FamilyIsSession(ttl: Ttl, now: nat, users: set<UserId>, acts: seq<Action>, t: TokenId, v: TokenId)
    requires var tokens := Run(Init(ttl, now, users), acts).st.tokens; t in tokens && v in tokens
    ensures var tokens := Run(Init(ttl, now, users), acts).st.tokens;
      (tokens[t].family == tokens[v].family <==> tokens[t].session == tokens[v].session)
      && (tokens[t].family == tokens[v].family ==> tokens[t].user == tokens[v].user)
  {
    AlwaysLinked(Init(ttl, now, users), acts);
  }

  // ----- a dead family stays dead -----

  predicate Usable(st: Store, t: TokenId) {
    t in st.tokens && !st.tokens[t].revoked && st.now <= st.tokens[t].expiresAt
  }

  /** The call has read an unrevoked token of the family and has not returned. */
  predicate InFlight(call: Call, f: FamilyId) {
    (call.Rotating? || call.FindingUser? || call.Minting? || call.Touching?) && call.family == f
  }

  /** No usable token of the family, and no refresh of it past its read. */
  ghost predicate Quiet(s: State, f: FamilyId) {
    && (forall t :: t in s.st.tokens && s.st.tokens[t].family == f ==> !Usable(s.st, t))
    && (forall c :: c in s.calls ==> !InFlight(s.calls[c], f))
  }

  lemma AdvanceKeepsQuiet(s: State, c: nat, t: TokenId, j: Jti, g: FamilyId, f: FamilyId)
    requires Quiet(s, f) && f in s.registry && c in s.calls
    ensures var s' := Advance(s, c, t, j, g);
      Quiet(s', f) && f in s'.registry && s'.granted[f] == s.granted[f]
  {
    assert !InFlight(s.calls[c], f);
    if s.calls[c].Finding? && s.calls[c].token in s.st.tokens {
      assert Usable(s.st, s.calls[c].token) || !Usable(s.st, s.calls[c].token);
    }
  }

  lemma StepKeepsQuiet(s: State, a: Action, f: FamilyId)
    requires Quiet(s, f) && f in s.registry
    ensures var s' := Step(s, a); Quiet(s', f) && f in s'.registry && s'.granted[f] == s.granted[f]
  {
    if a.Next? && a.call in s.calls {
      AdvanceKeepsQuiet(s, a.call, a.token, a.jti, a.family, f);
    }
  }

  /** Once quiet, a family grants nothing more, in every later interleaving. */
  lemma {:induction false} DeadStaysDead(s: State, acts: seq<Action>, f: FamilyId)
    requires Quiet(s, f) && f in s.registry
    ensures var s' := Run(s, acts); Quiet(s', f) && f in s'.registry && s'.granted[f] == s.granted[f]
  {
    if acts == [] {
    } else {
      DeadStaysDead(s, acts[..|acts| - 1], f);
      StepKeepsQuiet(Run(s, acts[..|acts| - 1]), acts[|acts| - 1], f);
    }
  }

  // ----- and only a quiet family is dead -----

  lemma {:induction false} Fresh(used: set<nat>) returns (n: nat)
    ensures n !in used
    decreases used
  {
    if used == {} {
      n := 0;
    } else {
      var x := Largest(used);
      n := x + 1;
    }
  }

  lemma {:induction false} Largest(used: set<nat>) returns (m: nat)
    requires used != {}
    ensures m in used && forall y :: y in used ==> y <= m
  {
    var z :| z in used;
    var rest := used - {z};
    m := z;
    if rest != {} {
      var x := Largest(rest);
      m := if x >= z then x else z;
    }
    forall y | y in used ensures y <= m { assert y == z || y in rest; }
  }

  /** Steps a refresh still has to make before it returns its tokens. */
  function StepsLeft(call: Call): nat {
    match call
    case Rotating(_, _, _, _) => 4
    case FindingUser(_, _, _) => 3
    case Minting(_, _, _) => 2
    case Touching(_, _, _) => 1
    case _ => 0
  }

  lemma {:induction false} InFlightSucceeds(s: State, c: nat, f: FamilyId) returns (acts: seq<Action>)
    requires Linked(s) && c in s.calls && InFlight(s.calls[c], f)
    ensures Run(s, acts).granted[f] > s.granted[f]
    decreases StepsLeft(s.calls[c])
  {
    var t := Fresh(s.st.tokens.Keys);
    var j := Fresh(s.st.issued.Keys);
    var a := Next(c, t, j, 0);
    FoldOne(Step, s, a);
    if s.calls[c].Touching? {
      acts := [a];
    } else {
      StepKeepsLinked(s, a);
      var rest := InFlightSucceeds(Step(s, a), c, f);
      FoldAppend(Step, s, [a], rest);
      acts := [a] + rest;
    }
  }

  lemma UsableSucceeds(s: State, t: TokenId, f: FamilyId) returns (acts: seq<Action>)
    requires Linked(s) && Usable(s.st, t) && s.st.tokens[t].family == f
    ensures Run(s, acts).granted[f] > s.granted[f]
  {
    var c := Fresh(s.calls.Keys);
    var p, n := Present(c, t), Next(c, 0, 0, 0);
    var s1 := Step(s, p);
    var s2 := Step(s1, n);
    assert InFlight(s2.calls[c], f) && s2.granted == s.granted;
    StepKeepsLinked(s, p);
    StepKeepsLinked(s1, n);
    var rest := InFlightSucceeds(s2, c, f);
    FoldOne(Step, s, p);
    FoldOne(Step, s1, n);
    FoldAppend(Step, s, [p], [n]);
    FoldAppend(Step, s, [p] + [n], rest);
    acts := [p] + [n] + rest;
  }

  /**
    Exactly when a family is dead: from a reachable state no continuation grants
    it another refresh if and only if it has no unrevoked, unexpired token and
    no refresh of it is already past its read.
  */
  lemma DeadExactlyWhenQuiet(s: State, f: FamilyId)
    requires Linked(s) && f in s.registry
    ensures (forall acts :: Run(s, acts).granted[f] == s.granted[f]) <==> Quiet(s, f)
  {
    if Quiet(s, f) {
      forall acts ensures Run(s, acts).granted[f] == s.granted[f] { DeadStaysDead(s, acts, f); }
    } else {
      if t :| t in s.st.tokens && s.st.tokens[t].family == f && Usable(s.st, t) {
        var acts := UsableSucceeds(s, t, f);
        assert Run(s, acts).granted[f] != s.granted[f];
      } else {
        var c :| c in s.calls && InFlight(s.calls[c], f);
        var acts := InFlightSucceeds(s, c, f);
        assert Run(s, acts).granted[f] != s.granted[f];
      }
    }
  }

  // ----- reuse detection -----

  /**
    At the revocation step the family dies, unless a rotation of it is in flight
    at that moment: that rotation alone can bring it back.
  */
  lemma ReuseKillsFamily(s: State, c: nat, f: FamilyId, sid: SessionId)
    requires Linked(s) && c in s.calls && s.calls[c] == KillingFamily(f, sid)
    ensures var s' := Step(s, Next(c, 0, 0, 0));
      && (forall t :: t in s'.st.tokens && s'.st.tokens[t].family == f ==> s'.st.tokens[t].revoked)
      && (Quiet(s', f) <==> forall d :: d in s.calls ==> !InFlight(s.calls[d], f))
  {
    var s' := Step(s, Next(c, 0, 0, 0));
    forall d | d in s.calls
      ensures d in s'.calls && (InFlight(s'.calls[d], f) <==> InFlight(s.calls[d], f))
    {}
  }

  /** A rotated token stays revoked for ever. */
  lemma {:induction false} RevokedStays(s: State, a: Action, t: TokenId)
    requires t in s.st.tokens && s.st.tokens[t].revoked
    ensures t in Step(s, a).st.tokens && Step(s, a).st.tokens[t].revoked
    ensures Step(s, a).st.tokens[t].family == s.st.tokens[t].family
  {
    if a.Next? && a.call in s.calls { AdvanceKeepsRevoked(s, a.call, a.token, a.jti, a.family, t); }
  }

  lemma {:induction false} AdvanceKeepsRevoked(s: State, c: nat, x: TokenId, j: Jti, g: FamilyId, t: TokenId)
    requires c in s.calls && t in s.st.tokens && s.st.tokens[t].revoked
    ensures var tokens := Advance(s, c, x, j, g).st.tokens;
      t in tokens && tokens[t].revoked && tokens[t].family == s.st.tokens[t].family
  {
    match s.calls[c] {
      case Rotating(_, _, _, _) =>
      case Minting(_, _, _) =>
      case KillingFamily(_, _) =>
      case NewFamily(_, _) =>
      case _ => assert Advance(s, c, x, j, g).st.tokens == s.st.tokens;
    }
  }

  lemma {:induction false} RevokedForEver(s: State, acts: seq<Action>, t: TokenId)
    requires t in s.st.tokens && s.st.tokens[t].revoked
    ensures t in Run(s, acts).st.tokens && Run(s, acts).st.tokens[t].revoked
    ensures Run(s, acts).st.tokens[t].family == s.st.tokens[t].family
  {
    if acts == [] {
    } else {
      RevokedForEver(s, acts[..|acts| - 1], t);
      RevokedStays(Run(s, acts[..|acts| - 1]), acts[|acts| - 1], t);
    }
  }
}
