/**
  One-time codes: requestOtp and verifyOtp over the two Redis keys of a user, the
  hashed code and the attempts counter, each with its own expiry.  Times are in
  milliseconds.
*/
module OtpLogin {
  import opened Runs
  const TTL: nat := 300 * 1000
  const MAX_ATTEMPTS: nat := 5

  type UserId = string
  /** The stored SHA-256 of a code; hashing is injective, so equality decides a match. */
  type Hash = nat

  type Positive = n: nat | n > 0 witness 1

  datatype CodeKey = NoCode | Code(hash: Hash, expiresAt: nat)
  datatype AttemptsKey = NoAttempts | Attempts(n: Positive, expiresAt: nat)

  datatype Verdict = RateLimited | CodeExpired | Mismatch(remaining: nat) | Accepted

  class RedisOtpStore {
    var codes: map<UserId, CodeKey>
    var attempts: map<UserId, AttemptsKey>

    constructor ()
      ensures codes == map[] && attempts == map[]
    {
      codes, attempts := map[], map[];
    }

    method Set(u: UserId, hash: Hash, now: nat)
      modifies this`codes
      ensures codes == old(codes)[u := Code(hash, now + TTL)]
    {
      codes := codes[u := Code(hash, now + TTL)];
    }

    method Get(u: UserId, now: nat) returns (c: CodeKey)
      ensures c == LiveCode(CodeOf(codes, u), now)
    {
      c := if u in codes && codes[u].Code? && now < codes[u].expiresAt then codes[u] else NoCode;
    }

    method Del(u: UserId)
      modifies this`codes
      ensures codes == old(codes)[u := NoCode]
    {
      codes := codes[u := NoCode];
    }

    /** INCR, then EXPIRE when the counter was just created. */
    method IncrAttempts(u: UserId, now: nat) returns (n: nat)
      modifies this`attempts
      ensures var k := Incremented(AttemptsOf(old(attempts), u), now);
        attempts == old(attempts)[u := k] && n == k.n
    {
      var expiresAt := 0;
      n := 0;
      if u in attempts && attempts[u].Attempts? && now < attempts[u].expiresAt {
        n, expiresAt := attempts[u].n, attempts[u].expiresAt;
      }
      n := n + 1;
      if n == 1 {
        expiresAt := now + TTL;
      }
      attempts := attempts[u := Attempts(n, expiresAt)];
    }

    method ClearAttempts(u: UserId)
      modifies this`attempts
      ensures attempts == old(attempts)[u := NoAttempts]
    {
      attempts := attempts[u := NoAttempts];
    }

    method RequestOtp(u: UserId, hash: Hash, now: nat)
      modifies this
      ensures var (c, a) := Requested(hash, now); codes == old(codes)[u := c] && attempts == old(attempts)[u := a]
    {
      Set(u, hash, now);
      ClearAttempts(u);
    }

    method VerifyOtp(u: UserId, hash: Hash, now: nat) returns (v: Verdict)
      modifies this
      ensures var (c, a, w) := Verified(CodeOf(old(codes), u), AttemptsOf(old(attempts), u), hash, now);
        v == w && CodeOf(codes, u) == c && attempts == old(attempts)[u := a]
        && forall x :: x != u ==> CodeOf(codes, x) == CodeOf(old(codes), x)
    {
      var n := IncrAttempts(u, now);
      if n > MAX_ATTEMPTS {
        Del(u);
        ClearAttempts(u);
        return RateLimited;
      }
      var stored := Get(u, now);
      if stored == NoCode {
        return CodeExpired;
      }
      if stored.hash != hash {
        return Mismatch(MAX_ATTEMPTS - n);
      }
      Del(u);
      ClearAttempts(u);
      v := Accepted;
    }
  }

  function CodeOf(codes: map<UserId, CodeKey>, u: UserId): CodeKey {
    if u in codes then codes[u] else NoCode
  }

  function AttemptsOf(attempts: map<UserId, AttemptsKey>, u: UserId): AttemptsKey {
    if u in attempts then attempts[u] else NoAttempts
  }

  function LiveCode(c: CodeKey, now: nat): CodeKey {
    if c.Code? && now < c.expiresAt then c else NoCode
  }

  function Incremented(a: AttemptsKey, now: nat): (r: AttemptsKey)
    ensures r.Attempts?
  {
    if a.Attempts? && now < a.expiresAt then Attempts(a.n + 1, a.expiresAt) else Attempts(1, now + TTL)
  }

  function Requested(hash: Hash, now: nat): (CodeKey, AttemptsKey) {
    (Code(hash, now + TTL), NoAttempts)
  }

  function Verified(c: CodeKey, a: AttemptsKey, hash: Hash, now: nat): (CodeKey, AttemptsKey, Verdict) {
    var k := Incremented(a, now);
    if k.n > MAX_ATTEMPTS then (NoCode, NoAttempts, RateLimited)
    else if LiveCode(c, now) == NoCode then (c, k, CodeExpired)
    else if c.hash != hash then (c, k, Mismatch(MAX_ATTEMPTS - k.n))
    else (NoCode, NoAttempts, Accepted)
  }

  // ----- whole runs of one user's calls -----

  datatype Action = Request(hash: Hash) | Verify(hash: Hash) | Wait(ms: nat)

  /** issued numbers the codes; compared and accepted count, per code, what happened to it. */
  datatype State = State(now: nat, code: CodeKey, attempts: AttemptsKey, issued: nat,
                         compared: multiset<nat>, accepted: multiset<nat>)

  function Step(s: State, a: Action): State {
    match a
    case Wait(ms) => s.(now := s.now + ms)
    case Request(h) =>
      var (c, k) := Requested(h, s.now);
      s.(code := c, attempts := k, issued := s.issued + 1)
    case Verify(h) =>
      var (c, k, v) := Verified(s.code, s.attempts, h, s.now);
      s.(code := c, attempts := k,
         compared := if s.issued > 0 && (v.Mismatch? || v.Accepted?) then s.compared + multiset{s.issued}
             else s.compared,
         accepted := if s.issued > 0 && v.Accepted? then s.accepted + multiset{s.issued} else s.accepted)
  }

  function Run(s: State, acts: seq<Action>): State {
    Fold(Step, s, acts)
  }

  function Init(now: nat): State {
    State(now, NoCode, NoAttempts, 0, multiset{}, multiset{})
  }

  ghost predicate Live(s: State) {
    s.code.Code? && s.now < s.code.expiresAt
  }

  /** The counter guarding a live code outlives it and has counted every comparison. */
  ghost predicate Guarded(s: State) {
    Live(s) ==>
      && s.issued > 0 && s.accepted[s.issued] == 0 && s.code.expiresAt <= s.now + TTL
      && (s.attempts.Attempts? ==> s.code.expiresAt <= s.attempts.expiresAt)
      && (s.compared[s.issued] > 0 ==> s.attempts.Attempts? && s.compared[s.issued] <= s.attempts.n)
  }

  ghost predicate Bounded(s: State) {
    && (forall k :: s.compared[k] <= MAX_ATTEMPTS && s.accepted[k] <= 1 && s.accepted[k] <= s.compared[k])
    && (forall k :: k > s.issued ==> s.compared[k] == 0)
  }

  lemma StepKeepsBounds(s: State, a: Action)
    requires Guarded(s) && Bounded(s)
    ensures Guarded(Step(s, a)) && Bounded(Step(s, a))
  {
    if a.Verify? { VerifyKeepsBounds(s, a.hash); }
  }

  lemma VerifyKeepsBounds(s: State, h: Hash)
    requires Guarded(s) && Bounded(s)
    ensures Guarded(Step(s, Verify(h))) && Bounded(Step(s, Verify(h)))
  {
    var k := Incremented(s.attempts, s.now);
    if Live(s) { assert s.compared[s.issued] < k.n; }
  }

  lemma {:induction false} AlwaysBounded(now: nat, acts: seq<Action>)
    ensures Guarded(Run(Init(now), acts)) && Bounded(Run(Init(now), acts))
  {
    if acts == [] {
    } else {
      AlwaysBounded(now, acts[..|acts| - 1]);
      StepKeepsBounds(Run(Init(now), acts[..|acts| - 1]), acts[|acts| - 1]);
    }
  }

  /** What verifyOtp answers to a guess in this state. */
  function Answer(s: State, h: Hash): Verdict {
    Verified(s.code, s.attempts, h, s.now).2
  }

  function Requests(acts: seq<Action>): nat {
    if acts == [] then 0
    else Requests(acts[..|acts| - 1]) + if acts[|acts| - 1].Request? then 1 else 0
  }

  /** The last call of the run guessed at code k, and was answered by a comparison, or with yes. */
  predicate Compares(now: nat, acts: seq<Action>, k: nat)
    requires acts != []
  {
    var init, a := acts[..|acts| - 1], acts[|acts| - 1];
    a.Verify? && Requests(init) == k
    && (Answer(Run(Init(now), init), a.hash).Mismatch? || Answer(Run(Init(now), init), a.hash).Accepted?)
  }

  predicate Accepts(now: nat, acts: seq<Action>, k: nat)
    requires acts != []
  {
    Compares(now, acts, k) && Answer(Run(Init(now), acts[..|acts| - 1]), acts[|acts| - 1].hash).Accepted?
  }

  /** How many guesses were compared with the k-th code requested. */
  function Comparisons(now: nat, acts: seq<Action>, k: nat): nat {
    if acts == [] then 0
    else Comparisons(now, acts[..|acts| - 1], k) + if Compares(now, acts, k) then 1 else 0
  }

  function Acceptances(now: nat, acts: seq<Action>, k: nat): nat {
    if acts == [] then 0
    else Acceptances(now, acts[..|acts| - 1], k) + if Accepts(now, acts, k) then 1 else 0
  }

  lemma {:induction false} TallyIsRight(now: nat, acts: seq<Action>, k: nat)
    ensures var s := Run(Init(now), acts);
      && s.issued == Requests(acts)
      && s.compared[k] == Comparisons(now, acts, k) && s.accepted[k] == Acceptances(now, acts, k)
  {
    if acts == [] {
    } else {
      TallyIsRight(now, acts[..|acts| - 1], k);
      AlwaysBounded(now, acts[..|acts| - 1]);
    }
  }

  /**
    Over every run with any waiting and any expiry, each code requested is
    compared with at most five guesses and accepted at most once.
  */
  lemma {:induction false} FiveGuesses(now: nat, acts: seq<Action>, k: nat)
    ensures Comparisons(now, acts, k) <= 5 && Acceptances(now, acts, k) <= 1
  {
    AlwaysBounded(now, acts);
    TallyIsRight(now, acts, k);
  }

  // ----- what a guess is answered -----

  predicate NoRequest(acts: seq<Action>) {
    forall i :: 0 <= i < |acts| ==> !acts[i].Request?
  }

  function Guesses(acts: seq<Action>): nat {
    if acts == [] then 0
    else Guesses(acts[..|acts| - 1]) + if acts[|acts| - 1].Verify? then 1 else 0
  }

  /** The code h set at t still stands after n guesses: five minutes not over, none right and at most five made. */
  predicate OpenCode(s: State, t: nat, h: Hash, n: nat) {
    && s.code == Code(h, t + TTL) && s.now < t + TTL && n <= MAX_ATTEMPTS
    && (if n == 0 then s.attempts == NoAttempts
        else s.attempts.Attempts? && s.attempts.n == n && t + TTL <= s.attempts.expiresAt)
  }

  /** Guessed right, guessed at six times, or five minutes old: the code is gone. */
  predicate Spent(s: State, t: nat) {
    s.code == NoCode || (s.code.expiresAt == t + TTL && t + TTL <= s.now)
  }

  lemma {:induction false} AfterRequest(s: State, h: Hash, acts: seq<Action>)
    requires NoRequest(acts)
    ensures var s', n := Run(Step(s, Request(h)), acts), Guesses(acts);
      s.now <= s'.now
      && if s'.now < s.now + TTL && Verify(h) !in acts && n <= MAX_ATTEMPTS then OpenCode(s', s.now, h, n)
         else Spent(s', s.now)
  {
    if acts == [] {
    } else {
      var init, a := acts[..|acts| - 1], acts[|acts| - 1];
      assert acts == init + [a];
      AfterRequest(s, h, init);
    }
  }

  /**
    A code requested, then any guesses and any waiting: the next guess is
    accepted if and only if it is the code, five minutes have not passed, at most
    four guesses were made and none of them was the code.  A wrong one is told how
    many are left, the sixth guess within the time is refused, and after that or
    later the code is gone.
  */
  lemma {:induction false} GuessAnswered(s: State, h: Hash, acts: seq<Action>, guess: Hash)
    requires NoRequest(acts)
    ensures var s', n := Run(Step(s, Request(h)), acts), Guesses(acts);
      var answer := Answer(s', guess);
      if s'.now < s.now + 300000 && Verify(h) !in acts && n <= 5 then
        answer == if n == 5 then RateLimited else if guess == h then Accepted else Mismatch(4 - n)
      else !answer.Accepted? && !answer.Mismatch?
  {
    AfterRequest(s, h, acts);
  }
}
