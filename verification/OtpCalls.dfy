/**
  One-time codes of one user when requestOtp and verifyOtp interleave at every
  await: how far the five attempts stretch, and when a code is accepted twice.
*/
module OtpCalls {
  import opened OtpLogin
  import opened Runs

  datatype Outcome = CodeSent | Judged(verdict: Verdict)

  /** A call, named by the Redis command it makes next. */
  datatype Call =
    | Setting(hash: Hash)
    | Counting(hash: Hash)
    | Expiring(hash: Hash)
    | Reading(hash: Hash, n: Positive)
    | Deleting(code: nat)
    | LockingOut
    | Forgetting(outcome: Outcome)
    | Returned(outcome: Outcome)

  /**
    Per code: how often it was compared and accepted, what the counter stood at
    when it was set, the calls that were past their count then, and the attempts
    wiped since while it was live.
  */
  datatype Tally = Tally(compared: multiset<nat>, accepted: multiset<nat>,
                         taken: multiset<nat>, inFlight: multiset<nat>, forgotten: multiset<nat>)

  /** forever: the counter was created and has no expiry yet.  issued numbers the codes. */
  datatype State = Keys(now: nat, code: CodeKey, attempts: AttemptsKey, forever: bool, calls: map<nat, Call>,
                        issued: nat, tally: Tally)

  datatype Action = AskCode(call: nat, hash: Hash) | Guess(call: nat, hash: Hash) | Next(call: nat) | Pass(ms: nat)

  predicate Live(s: State) {
    s.code.Code? && s.now < s.code.expiresAt
  }

  predicate CounterLive(s: State) {
    s.attempts.Attempts? && (s.forever || s.now < s.attempts.expiresAt)
  }

  function Count(s: State): nat {
    if CounterLive(s) then s.attempts.n else 0
  }

  /** Attempts the stored counter has used up, even if it has expired. */
  function Used(s: State): (n: nat)
    ensures n <= MAX_ATTEMPTS
  {
    if s.attempts.NoAttempts? then 0 else if s.attempts.n <= MAX_ATTEMPTS then s.attempts.n else MAX_ATTEMPTS
  }

  function Times(k: nat, n: nat): multiset<nat> {
    multiset{}[k := n]
  }

  /** Calls that were counted and have not read the code yet. */
  function Readers(calls: map<nat, Call>): set<nat> {
    set c | c in calls && (calls[c].Expiring? || calls[c].Reading?)
  }

  function At(s: State, c: nat, call: Call): State {
    s.(calls := s.calls[c := call])
  }

  /** The attempts on the counter are wiped while a live code may still be guessed. */
  function Forget(s: State): State {
    if Live(s) then s.(tally := s.tally.(forgotten := s.tally.forgotten + Times(s.issued, Used(s)))) else s
  }

  function CountStep(s: State, c: nat, hash: Hash): State {
    var n := Count(s) + 1;
    if n == 1 then At(Forget(s), c, Expiring(hash)).(attempts := Attempts(1, s.now), forever := true)
    else
      At(s, c, if n > MAX_ATTEMPTS then LockingOut else Reading(hash, n))
      .(attempts := Attempts(n, s.attempts.expiresAt))
  }

  function ReadStep(s: State, c: nat, hash: Hash, n: nat): State {
    if !Live(s) then At(s, c, Returned(Judged(CodeExpired)))
    else if s.code.hash != hash then
      At(s, c, Returned(Judged(Mismatch(if n <= MAX_ATTEMPTS then MAX_ATTEMPTS - n else 0))))
      .(tally := s.tally.(compared := s.tally.compared + Times(s.issued, 1)))
    else
      At(s, c, Deleting(s.issued))
      .(tally := s.tally.(compared := s.tally.compared + Times(s.issued, 1),
          accepted := s.tally.accepted + Times(s.issued, 1)))
  }

  function Advance(s: State, c: nat): State
    requires c in s.calls
  {
    match s.calls[c]
    case Setting(h) =>
      At(s, c, Forgetting(CodeSent))
      .(code := Code(h, s.now + TTL), issued := s.issued + 1,
        tally := s.tally.(taken := s.tally.taken + Times(s.issued + 1, Used(s)),
                          inFlight := s.tally.inFlight + Times(s.issued + 1, |Readers(s.calls)|)))
    case Counting(h) => CountStep(s, c, h)
    case Expiring(h) =>
      At(s, c, Reading(h, 1))
      .(attempts := if CounterLive(s) then Attempts(s.attempts.n, s.now + TTL) else s.attempts, forever := false)
    case Reading(h, n) => ReadStep(s, c, h, n)
    case Deleting(k) => At(s, c, Forgetting(Judged(Accepted))).(code := NoCode)
    case LockingOut => At(s, c, Forgetting(Judged(RateLimited))).(code := NoCode)
    case Forgetting(o) => At(Forget(s), c, Returned(o)).(attempts := NoAttempts, forever := false)
    case Returned(_) => s
  }

  function Step(s: State, a: Action): State {
    match a
    case Pass(ms) => s.(now := s.now + ms)
    case AskCode(c, h) => if c in s.calls then s else At(s, c, Setting(h))
    case Guess(c, h) => if c in s.calls then s else At(s, c, Counting(h))
    case Next(c) => if c in s.calls then Advance(s, c) else s
  }

  function Run(s: State, acts: seq<Action>): State {
    Fold(Step, s, acts)
  }

  function Init(now: nat): State {
    Keys(now, NoCode, NoAttempts, false, map[], 0, Tally(multiset{}, multiset{}, multiset{}, multiset{}, multiset{}))
  }

  // ----- every interleaving -----

  /** Codes not issued yet have no counts. */
  ghost predicate Unissued(s: State) {
    forall k :: k > s.issued ==>
      s.tally.compared[k] == 0 && s.tally.accepted[k] == 0 && s.tally.taken[k] == 0 && s.tally.inFlight[k] == 0
          && s.tally.forgotten[k] == 0
  }

  /** What the counter and the calls in flight leave of the current code's guesses. */
  ghost predicate Within(s: State) {
    Live(s) ==>
      s.tally.compared[s.issued] + |Readers(s.calls)| + s.tally.taken[s.issued]
        == Used(s) + s.tally.inFlight[s.issued] + s.tally.forgotten[s.issued]
  }

  ghost predicate Bounded(s: State) {
    forall k :: s.tally.compared[k] + s.tally.taken[k] <= MAX_ATTEMPTS + s.tally.inFlight[k] + s.tally.forgotten[k]
  }

  lemma ReadersAfter(calls: map<nat, Call>, c: nat, call: Call)
    ensures var r := Readers(calls[c := call]);
      |r| == |Readers(calls) - {c}| + (if call.Expiring? || call.Reading? then 1 else 0)
    ensures |Readers(calls) - {c}| == |Readers(calls)| - (if c in Readers(calls) then 1 else 0)
  {
    var rest := Readers(calls) - {c};
    assert Readers(calls[c := call]) == if call.Expiring? || call.Reading? then rest + {c} else rest;
  }

  ghost predicate Sound(s: State) {
    Within(s) && Bounded(s) && Unissued(s)
  }

  lemma SetKeepsSound(s: State, c: nat)
    requires Sound(s) && c in s.calls && s.calls[c].Setting?
    ensures Sound(Advance(s, c))
  {
    ReadersAfter(s.calls, c, Forgetting(CodeSent));
  }

  lemma ForgetKeepsSound(s: State, c: nat, o: Outcome)
    requires Sound(s) && c in s.calls && s.calls[c] == Forgetting(o)
    ensures Sound(Advance(s, c))
  {
    ReadersAfter(s.calls, c, Returned(o));
  }

  lemma CountKeepsSound(s: State, c: nat, h: Hash)
    requires Sound(s) && c in s.calls && s.calls[c] == Counting(h)
    ensures Sound(CountStep(s, c, h))
  {
    ReadersAfter(s.calls, c, CountStep(s, c, h).calls[c]);
  }

  lemma ReadKeepsSound(s: State, c: nat, h: Hash, n: Positive)
    requires Sound(s) && c in s.calls && s.calls[c] == Reading(h, n)
    ensures Sound(ReadStep(s, c, h, n))
  {
    var t := ReadStep(s, c, h, n);
    assert c in Readers(s.calls);
    ReadersAfter(s.calls, c, t.calls[c]);
    if Live(s) {
      assert t.tally.compared == s.tally.compared + Times(s.issued, 1);
      OneGuessLess(s, t);
    }
  }

  lemma OneGuessLess(s: State, t: State)
    requires Sound(s) && Live(s) && |Readers(t.calls)| == |Readers(s.calls)| - 1
    requires t.code == s.code && t.attempts == s.attempts && t.issued == s.issued && t.now == s.now
    requires t.tally.compared == s.tally.compared + Times(s.issued, 1)
    requires t.tally.accepted == s.tally.accepted || t.tally.accepted == s.tally.accepted + Times(s.issued, 1)
    requires t.tally.taken == s.tally.taken && t.tally.inFlight == s.tally.inFlight
        && t.tally.forgotten == s.tally.forgotten
    ensures Sound(t)
  {}

  /** The other steps count nothing, and leave the counter as used as it was. */
  lemma OtherKeepsSound(s: State, c: nat)
    requires Sound(s) && c in s.calls
    requires var k := s.calls[c]; k.Expiring? || k.Deleting? || k.LockingOut? || k.Returned?
    ensures Sound(Advance(s, c))
  {
    if s.calls[c].Expiring? {
      ReadersAfter(s.calls, c, Reading(s.calls[c].hash, 1));
      assert Used(Advance(s, c)) == Used(s);
    }
  }

  lemma AdvanceKeepsSound(s: State, c: nat)
    requires Sound(s) && c in s.calls
    ensures Sound(Advance(s, c))
  {
    match s.calls[c]
    case Setting(_) => SetKeepsSound(s, c);
    case Counting(h) => CountKeepsSound(s, c, h);
    case Reading(h, n) => ReadKeepsSound(s, c, h, n);
    case Forgetting(o) => ForgetKeepsSound(s, c, o);
    case _ => OtherKeepsSound(s, c);
  }

  lemma ArrivalKeepsSound(s: State, c: nat, call: Call)
    requires Sound(s) && c !in s.calls && (call.Setting? || call.Counting?)
    ensures Sound(At(s, c, call))
  {
    ReadersAfter(s.calls, c, call);
  }

  lemma StepKeepsSound(s: State, a: Action)
    requires Sound(s)
    ensures Sound(Step(s, a))
  {
    match a
    case Next(c) => if c in s.calls { AdvanceKeepsSound(s, c); }
    case AskCode(c, h) => if c !in s.calls { ArrivalKeepsSound(s, c, Setting(h)); }
    case Guess(c, h) => if c !in s.calls { ArrivalKeepsSound(s, c, Counting(h)); }
    case Pass(_) =>
  }

  /**
    In every interleaving, while a code is live its comparisons are exactly the
    attempts on the counter, plus the calls in flight when it was set and the
    attempts wiped since, less what the counter stood at when it was set and
    the counted calls that have not read it yet.
  */
  lemma {:induction false} GuessLedger(now: nat, acts: seq<Action>)
    ensures var s := Run(Init(now), acts);
      var (t, i) := (s.tally, s.issued);
      && Sound(s)
      && (Live(s) ==> t.compared[i] + t.taken[i] + |Readers(s.calls)| == Used(s) + t.inFlight[i] + t.forgotten[i])
  {
    if acts == [] {
    } else {
      GuessLedger(now, acts[..|acts| - 1]);
      StepKeepsSound(Run(Init(now), acts[..|acts| - 1]), acts[|acts| - 1]);
    }
  }

  /** A code that is live or gone: at most five comparisons and what the ledger adds. */
  lemma GuessesBounded(now: nat, acts: seq<Action>, k: nat)
    ensures var s := Run(Init(now), acts);
      s.tally.compared[k] + s.tally.taken[k] <= MAX_ATTEMPTS + s.tally.inFlight[k] + s.tally.forgotten[k]
  {
    GuessLedger(now, acts);
    assert Bounded(Run(Init(now), acts));
  }

  // ----- more than five -----

  ghost predicate AtMostFive(s: State) {
    forall k :: s.tally.compared[k] <= MAX_ATTEMPTS
  }

  /**
    A call reads a live code although the attempts in flight when it was set and
    those wiped since, beyond what the counter then stood at, make up for every
    attempt still free on the counter and every counted call, this one included.
  */
  ghost predicate Oversteps(s: State, a: Action) {
    && a.Next? && a.call in s.calls && s.calls[a.call].Reading? && Live(s)
    && MAX_ATTEMPTS - Used(s) + |Readers(s.calls)| + s.tally.taken[s.issued]
       <= s.tally.inFlight[s.issued] + s.tally.forgotten[s.issued]
  }

  lemma SixthComparison(s: State, a: Action)
    requires Sound(s)
    ensures AtMostFive(Step(s, a)) <==> AtMostFive(s) && !Oversteps(s, a)
  {
    var t := Step(s, a);
    forall k ensures s.tally.compared[k] <= t.tally.compared[k] {}
    if AtMostFive(t) {
      forall k ensures s.tally.compared[k] <= MAX_ATTEMPTS { assert t.tally.compared[k] <= MAX_ATTEMPTS; }
      assert t.tally.compared[s.issued] <= MAX_ATTEMPTS;
    } else if AtMostFive(s) {
      var k :| t.tally.compared[k] > MAX_ATTEMPTS;
      assert s.tally.compared[k] <= MAX_ATTEMPTS;
    }
  }

  ghost predicate NeverOversteps(now: nat, acts: seq<Action>) {
    acts == [] || (NeverOversteps(now, acts[..|acts| - 1])
        && !Oversteps(Run(Init(now), acts[..|acts| - 1]), acts[|acts| - 1]))
  }

  /** In every interleaving, each code is compared at most five times if and only if no call oversteps. */
  lemma {:induction false} AtMostFiveExactly(now: nat, acts: seq<Action>)
    ensures AtMostFive(Run(Init(now), acts)) <==> NeverOversteps(now, acts)
  {
    if acts == [] {
    } else {
      var init := acts[..|acts| - 1];
      AtMostFiveExactly(now, init);
      GuessLedger(now, init);
      SixthComparison(Run(Init(now), init), acts[|acts| - 1]);
    }
  }

  /** A call counted before a new code is set compares that code uncounted. */
  lemma StragglerIsUncounted(s: State, c: nat, d: nat, h: Hash, guess: Hash, n: Positive)
    requires c in s.calls && s.calls[c] == Reading(guess, n) && d in s.calls && s.calls[d] == Setting(h)
    ensures var t := Step(Step(Step(s, Next(d)), Next(d)), Next(c));
      Live(t) && t.tally.compared[t.issued] == s.tally.compared[t.issued] + 1 && Count(t) == 0
  {}

  // ----- accepted once -----

  /** The step accepts a code that another call has accepted and not deleted yet. */
  ghost predicate Repeats(s: State, a: Action) {
    a.Next? && a.call in s.calls && s.calls[a.call].Reading? && Live(s) && s.code.hash == s.calls[a.call].hash
    && exists d :: d in s.calls && s.calls[d] == Deleting(s.issued)
  }

  ghost predicate OnlyOnce(s: State) {
    forall k :: s.tally.accepted[k] <= 1
  }

  /** A live code was accepted exactly when a call is about to delete it. */
  ghost predicate Deletes(s: State) {
    && (forall k :: k > s.issued ==> s.tally.accepted[k] == 0)
    && (Live(s) && s.tally.accepted[s.issued] > 0 ==> exists d :: d in s.calls && s.calls[d] == Deleting(s.issued))
    && (forall d :: d in s.calls && s.calls[d].Deleting? ==> s.tally.accepted[s.calls[d].code] > 0)
  }

  predicate Accepts(s: State, a: Action) {
    a.Next? && a.call in s.calls && s.calls[a.call].Reading? && Live(s) && s.code.hash == s.calls[a.call].hash
  }

  lemma StepKeepsDeletes(s: State, a: Action)
    requires Deletes(s)
    ensures Deletes(Step(s, a))
    ensures !Accepts(s, a) ==> Step(s, a).tally.accepted == s.tally.accepted
    ensures Accepts(s, a) ==> Step(s, a).tally.accepted == s.tally.accepted + Times(s.issued, 1)
  {
    var t := Step(s, a);
    if Accepts(s, a) {
      assert t.calls[a.call] == Deleting(s.issued);
    } else {
      QuietStep(s, a);
    }
  }

  lemma {:induction false} QuietStep(s: State, a: Action)
    requires !Accepts(s, a)
    ensures var t := Step(s, a);
      && t.tally.accepted == s.tally.accepted && s.issued <= t.issued
      && (Live(t) ==> t.issued > s.issued || (Live(s) && t.issued == s.issued))
      && (forall d :: d in t.calls && t.calls[d].Deleting? ==> d in s.calls && t.calls[d] == s.calls[d])
      && (Live(t) ==> forall d :: d in s.calls && s.calls[d].Deleting? ==> d in t.calls && t.calls[d] == s.calls[d])
  {
    if a.Next? && a.call in s.calls {
      AdvanceFrame(s, a.call);
      QuietAdvance(s, a.call);
    }
  }

  lemma AdvanceFrame(s: State, c: nat)
    requires c in s.calls
    ensures var t := Advance(s, c); c in t.calls && t.calls == s.calls[c := t.calls[c]]
  {}

  lemma QuietAdvance(s: State, c: nat)
    requires c in s.calls && !Accepts(s, Next(c))
    ensures var t := Advance(s, c);
      && t.tally.accepted == s.tally.accepted && s.issued <= t.issued && t.now == s.now
      && (Live(t) ==> t.issued > s.issued || (Live(s) && t.issued == s.issued))
      && c in t.calls && !t.calls[c].Deleting? && (s.calls[c].Deleting? ==> !Live(t))
  {}

  /** One step: a code is accepted a second time exactly when the step repeats. */
  lemma SecondAcceptance(s: State, a: Action)
    requires Deletes(s)
    ensures OnlyOnce(Step(s, a)) <==> OnlyOnce(s) && !Repeats(s, a)
  {
    var t := Step(s, a);
    StepKeepsDeletes(s, a);
    forall k ensures t.tally.accepted[k] == s.tally.accepted[k] + (if Accepts(s, a) && k == s.issued then 1 else 0) {}
    if Repeats(s, a) {
      assert t.tally.accepted[s.issued] >= 2;
    } else if OnlyOnce(t) {
      forall k ensures s.tally.accepted[k] <= 1 { assert t.tally.accepted[k] <= 1; }
    }
  }

  /** No step of the run repeats. */
  ghost predicate NoRepeat(now: nat, acts: seq<Action>) {
    acts == [] || (NoRepeat(now, acts[..|acts| - 1]) && !Repeats(Run(Init(now), acts[..|acts| - 1]), acts[|acts| - 1]))
  }

  /**
    In every interleaving each code is accepted at most once if and only if no
    call reads it with a match between another call's match and that call's delete.
  */
  lemma {:induction false} AcceptedOnceExactly(now: nat, acts: seq<Action>)
    ensures Deletes(Run(Init(now), acts))
    ensures OnlyOnce(Run(Init(now), acts)) <==> NoRepeat(now, acts)
  {
    if acts == [] {
    } else {
      var s, a := Run(Init(now), acts[..|acts| - 1]), acts[|acts| - 1];
      AcceptedOnceExactly(now, acts[..|acts| - 1]);
      StepKeepsDeletes(s, a);
      SecondAcceptance(s, a);
    }
  }

  // ----- calls alone are the calls taken whole -----

  /** n awaits of call c with nothing in between. */
  function Steps(s: State, c: nat, n: nat): State
    decreases n
  {
    if n == 0 then s else Steps(Step(s, Next(c)), c, n - 1)
  }

  /** requestOtp alone leaves the keys of the whole call, and forgets only what the counter stood at. */
  lemma {:induction false} RequestAlone(s: State, c: nat, h: Hash)
    requires c !in s.calls
    ensures var t := Steps(Step(s, AskCode(c, h)), c, 2);
      && (t.code, t.attempts) == Requested(h, s.now) && c in t.calls && t.calls[c] == Returned(CodeSent) && !t.forever
      && t.issued == s.issued + 1
      && t.tally.forgotten[t.issued] + s.tally.taken[t.issued] == s.tally.forgotten[t.issued] + t.tally.taken[t.issued]
  {
    var s0 := Step(s, AskCode(c, h));
    var s1 := Step(s0, Next(c));
    assert Steps(s0, c, 2) == Steps(s1, c, 1) == Steps(Step(s1, Next(c)), c, 0);
  }

  /** What verifyOtp leaves when it ends: the keys and the verdict returned. */
  ghost predicate Ended(t: State, c: nat, r: (CodeKey, AttemptsKey, Verdict)) {
    t.code == r.0 && t.attempts == r.1 && c in t.calls && t.calls[c] == Returned(Judged(r.2)) && !t.forever
  }

  lemma {:induction false} EndedRests(t: State, c: nat, r: (CodeKey, AttemptsKey, Verdict), n: nat)
    requires Ended(t, c, r)
    ensures Ended(Steps(t, c, n), c, r)
  {
    if n == 0 {
    } else {
      EndedRests(t, c, r, n - 1);
    }
  }

  /** The call deletes the code and then the counter. */
  lemma {:induction false} ClosesAlone(s: State, c: nat, v: Verdict, n: nat)
    requires c in s.calls && !s.forever && n >= 2
    requires (s.calls[c].Deleting? && v == Accepted) || (s.calls[c].LockingOut? && v == RateLimited)
    ensures Ended(Steps(s, c, n), c, (NoCode, NoAttempts, v))
  {
    var s1 := Step(s, Next(c));
    assert s1.calls[c] == Forgetting(Judged(v)) && s1.code == NoCode;
    ForgetsAlone(s1, c, v, n - 1);
  }

  lemma {:induction false} ForgetsAlone(s: State, c: nat, v: Verdict, n: nat)
    requires c in s.calls && s.calls[c] == Forgetting(Judged(v)) && s.code == NoCode && n >= 1
    ensures Ended(Steps(s, c, n), c, (NoCode, NoAttempts, v))
  {
    EndedRests(Step(s, Next(c)), c, (NoCode, NoAttempts, v), n - 1);
  }

  /** From the read on. */
  lemma {:induction false} ReadAlone(s: State, c: nat, h: Hash, k: Positive, n: nat)
    requires c in s.calls && s.calls[c] == Reading(h, k) && k <= MAX_ATTEMPTS && !s.forever && n >= 3
    ensures Ended(Steps(s, c, n), c,
      if LiveCode(s.code, s.now) == NoCode then (s.code, s.attempts, CodeExpired)
      else if s.code.hash != h then (s.code, s.attempts, Mismatch(MAX_ATTEMPTS - k))
      else (NoCode, NoAttempts, Accepted))
  {
    var s1 := Step(s, Next(c));
    if Live(s) && s.code.hash == h {
      ClosesAlone(s1, c, Accepted, n - 1);
    } else {
      EndedRests(s1, c, (s.code, s.attempts, if Live(s) then Mismatch(MAX_ATTEMPTS - k) else CodeExpired), n - 1);
    }
  }

  /** verifyOtp alone leaves the keys and returns the verdict of the whole call. */
  lemma {:induction false} VerifyAlone(s: State, c: nat, h: Hash)
    requires c !in s.calls && !s.forever
    ensures Ended(Steps(Step(s, Guess(c, h)), c, 5), c, Verified(s.code, s.attempts, h, s.now))
  {
    var s0 := Step(s, Guess(c, h));
    StartedAlone(s0, c, h);
  }

  lemma {:induction false} StartedAlone(s: State, c: nat, h: Hash)
    requires c in s.calls && s.calls[c] == Counting(h) && !s.forever
    ensures Ended(Steps(s, c, 5), c, Verified(s.code, s.attempts, h, s.now))
  {
    var n := Incremented(s.attempts, s.now).n;
    var s1 := Step(s, Next(c));
    assert Steps(s, c, 5) == Steps(s1, c, 4);
    if n > MAX_ATTEMPTS {
      ClosesAlone(s1, c, RateLimited, 4);
    } else if n > 1 {
      ReadAlone(s1, c, h, n, 4);
    } else {
      assert Steps(s1, c, 4) == Steps(Step(s1, Next(c)), c, 3);
      ReadAlone(Step(s1, Next(c)), c, h, 1, 3);
    }
  }

  // ----- whole calls one after another are OtpLogin's runs -----

  /** Call i makes all its awaits before the next begins. */
  function Lone(acts: seq<OtpLogin.Action>): seq<Action> {
    if acts == [] then []
    else
      var i := |acts| - 1;
      Lone(acts[..i]) + match acts[i]
        case Wait(ms) => [Pass(ms)]
        case Request(h) => [AskCode(i, h)] + Awaits(i, 2)
        case Verify(h) => [Guess(i, h)] + Awaits(i, 5)
  }

  /** The same time, code and counter, and only calls below n. */
  ghost predicate Alike(t: State, s: OtpLogin.State, n: nat) {
    && t.now == s.now && t.code == s.code && t.attempts == s.attempts && !t.forever
    && forall c :: c in t.calls ==> c < n
  }

  lemma AdvanceKeepsTime(t: State, c: nat)
    requires c in t.calls
    ensures Advance(t, c).now == t.now && Advance(t, c).calls.Keys == t.calls.Keys
  {}

  lemma {:induction false} StepsFrame(t: State, c: nat, n: nat)
    requires c in t.calls
    ensures Steps(t, c, n).now == t.now && Steps(t, c, n).calls.Keys == t.calls.Keys
    decreases n
  {
    if n == 0 {
    } else {
      AdvanceKeepsTime(t, c);
      StepsFrame(Step(t, Next(c)), c, n - 1);
    }
  }

  /** One whole call, or a wait, after a run. */
  lemma {:induction false} OneMoreCall(t: State, s: OtpLogin.State, n: nat, a: OtpLogin.Action) returns (t': State)
    requires Alike(t, s, n)
    ensures Alike(t', OtpLogin.Step(s, a), n + 1)
    ensures t' == match a
      case Wait(ms) => Step(t, Pass(ms))
      case Request(h) => Steps(Step(t, AskCode(n, h)), n, 2)
      case Verify(h) => Steps(Step(t, Guess(n, h)), n, 5)
    ensures a.Verify? ==> n in t'.calls && t'.calls[n] == Returned(Judged(Answer(s, a.hash)))
  {
    match a {
      case Wait(ms) => t' := Step(t, Pass(ms));
      case Request(h) =>
        t' := Steps(Step(t, AskCode(n, h)), n, 2);
        RequestAlone(t, n, h);
        StepsFrame(Step(t, AskCode(n, h)), n, 2);
      case Verify(h) =>
        t' := Steps(Step(t, Guess(n, h)), n, 5);
        VerifyAlone(t, n, h);
        StepsFrame(Step(t, Guess(n, h)), n, 5);
    }
  }

  /** Calls that do not overlap leave the keys and return the answers of the calls taken whole, over every run. */
  lemma {:induction false} LoneRuns(now: nat, acts: seq<OtpLogin.Action>)
    ensures var t, n := Run(Init(now), Lone(acts)), |acts|;
      Alike(t, OtpLogin.Run(OtpLogin.Init(now), acts), n)
      && (n > 0 && acts[n - 1].Verify? ==>
            n - 1 in t.calls && t.calls[n - 1]
              == Returned(Judged(Answer(OtpLogin.Run(OtpLogin.Init(now), acts[..n - 1]), acts[n - 1].hash))))
  {
    if acts == [] {
    } else {
      var i := |acts| - 1;
      LoneRuns(now, acts[..i]);
      var t, s := Run(Init(now), Lone(acts[..i])), OtpLogin.Run(OtpLogin.Init(now), acts[..i]);
      var t' := OneMoreCall(t, s, i, acts[i]);
      match acts[i] {
        case Wait(ms) => FoldThen(Step, Init(now), Lone(acts[..i]), Pass(ms));
        case Request(h) =>
          FoldAppend(Step, Init(now), Lone(acts[..i]), [AskCode(i, h)] + Awaits(i, 2));
          RunCall(t, AskCode(i, h), i, 2);
        case Verify(h) =>
          FoldAppend(Step, Init(now), Lone(acts[..i]), [Guess(i, h)] + Awaits(i, 5));
          RunCall(t, Guess(i, h), i, 5);
      }
    }
  }

  // ----- a run with six comparisons -----

  /** The awaits of a call, as actions. */
  function Awaits(c: nat, n: nat): seq<Action> {
    seq(n, i => Next(c))
  }

  lemma {:induction false} RunAwaits(s: State, c: nat, n: nat)
    ensures Run(s, Awaits(c, n)) == Steps(s, c, n)
    decreases n
  {
    if n == 0 {
    } else {
      RunAwaits(Step(s, Next(c)), c, n - 1);
      assert Awaits(c, n) == [Next(c)] + Awaits(c, n - 1);
      FoldAppend(Step, s, [Next(c)], Awaits(c, n - 1));
      FoldOne(Step, s, Next(c));
    }
  }

  /** One call made alone: its arrival and n awaits. */
  lemma RunCall(s: State, a: Action, c: nat, n: nat)
    ensures Run(s, [a] + Awaits(c, n)) == Steps(Step(s, a), c, n)
  {
    FoldAppend(Step, s, [a], Awaits(c, n));
    FoldOne(Step, s, a);
    RunAwaits(Step(s, a), c, n);
  }

  /**
    The first code, with hash h, has been compared n times and the counter says so, while
    call 0 was counted before the code was set and has not read it; the calls
    from 2 + n on are still to come.
  */
  ghost predicate Guessed(s: State, n: nat, h: Hash, g: Hash, now: nat) {
    && s.now == now && s.code == Code(h, now + TTL) && !s.forever && s.issued == 1 && s.tally.compared[1] == n
    && s.attempts == (if n == 0 then NoAttempts else Attempts(n, now + TTL))
    && 0 in s.calls && s.calls[0] == Reading(g, 1) && forall c :: c >= 2 + n ==> c !in s.calls
  }

  lemma WrongGuess(s: State, n: nat, h: Hash, g: Hash, now: nat)
    requires Guessed(s, n, h, g, now) && n < MAX_ATTEMPTS && g != h
    ensures Guessed(Steps(Step(s, Guess(2 + n, g)), 2 + n, 3), n + 1, h, g, now)
  {
    var c := 2 + n;
    var s0 := Step(s, Guess(c, g));
    var s1 := Step(s0, Next(c));
    assert s1.calls[c] == if n == 0 then Expiring(g) else Reading(g, n + 1);
    var s2 := Step(s1, Next(c));
    if n == 0 {
      assert s2.calls[c] == Reading(g, 1) && s2.attempts == Attempts(1, now + TTL);
      var s3 := Step(s2, Next(c));
      assert s3.calls
          == s.calls[c := Counting(g)][c := Expiring(g)][c := Reading(g, 1)][c := Returned(Judged(Mismatch(4)))];
      assert Steps(s0, c, 3) == s3;
    } else {
      var r := Returned(Judged(Mismatch(MAX_ATTEMPTS - (n + 1))));
      assert s2.calls[c] == r;
      assert s2.calls == s.calls[c := Counting(g)][c := Reading(g, n + 1)][c := r];
      assert Steps(s0, c, 3) == s2;
    }
  }

  lemma {:induction false} WrongGuesses(s: State, n: nat, h: Hash, g: Hash, now: nat) returns (acts: seq<Action>)
    requires Guessed(s, 0, h, g, now) && n <= MAX_ATTEMPTS && g != h
    ensures Guessed(Run(s, acts), n, h, g, now)
  {
    if n == 0 {
      acts := [];
    } else {
      var init := WrongGuesses(s, n - 1, h, g, now);
      acts := OneMoreWrong(s, init, n - 1, h, g, now);
    }
  }

  lemma OneMoreWrong(s: State, init: seq<Action>, n: nat, h: Hash, g: Hash, now: nat) returns (acts: seq<Action>)
    requires Guessed(Run(s, init), n, h, g, now) && n < MAX_ATTEMPTS && g != h
    ensures Guessed(Run(s, acts), n + 1, h, g, now)
  {
    var one := [Guess(2 + n, g)] + Awaits(2 + n, 3);
    WrongGuess(Run(s, init), n, h, g, now);
    RunThenCall(s, init, Guess(2 + n, g), 2 + n, 3);
    acts := init + one;
  }

  lemma RunThenCall(s: State, init: seq<Action>, a: Action, c: nat, n: nat)
    ensures Run(s, init + ([a] + Awaits(c, n))) == Steps(Step(Run(s, init), a), c, n)
  {
    FoldAppend(Step, s, init, [a] + Awaits(c, n));
    RunCall(Run(s, init), a, c, n);
  }

  /** A guess is counted, then a code is asked for and set before the guess reads. */
  lemma StragglerWaits(h: Hash, g: Hash, now: nat)
    ensures var s := Steps(Step(Init(now), Guess(0, g)), 0, 2);
      Guessed(Steps(Step(s, AskCode(1, h)), 1, 2), 0, h, g, now)
  {
    var s0 := Step(Init(now), Guess(0, g));
    var s1 := Step(s0, Next(0));
    assert s1.calls == map[0 := Expiring(g)];
    var s2 := Step(s1, Next(0));
    assert s2.calls == map[0 := Reading(g, 1)];
    assert Steps(s0, 0, 2) == s2;
    var r0 := Step(s2, AskCode(1, h));
    var r1 := Step(r0, Next(1));
    assert r1.calls == map[0 := Reading(g, 1), 1 := Forgetting(CodeSent)];
    var r2 := Step(r1, Next(1));
    assert r2.calls == map[0 := Reading(g, 1), 1 := Returned(CodeSent)];
    assert Steps(r0, 1, 2) == r2;
  }

  /**
    From the empty store, a run in which one code is compared six times: a guess
    counted before the code was set, and then five whole guesses before it reads.
  */
  lemma SixComparisons(h: Hash, g: Hash, now: nat) returns (acts: seq<Action>)
    requires g != h
    ensures Run(Init(now), acts).tally.compared[1] == MAX_ATTEMPTS + 1
  {
    var first, ask := [Guess(0, g)] + Awaits(0, 2), [AskCode(1, h)] + Awaits(1, 2);
    RunCall(Init(now), Guess(0, g), 0, 2);
    RunCall(Run(Init(now), first), AskCode(1, h), 1, 2);
    FoldAppend(Step, Init(now), first, ask);
    StragglerWaits(h, g, now);
    var five := WrongGuesses(Run(Init(now), first + ask), MAX_ATTEMPTS, h, g, now);
    FoldAppend(Step, Init(now), first + ask, five);
    var s := Run(Init(now), first + ask + five);
    FoldAppend(Step, Init(now), first + ask + five, [Next(0)]);
    FoldOne(Step, s, Next(0));
    acts := first + ask + five + [Next(0)];
  }
}
