/**
  The rate limiter's hits on one key, interleaved at their two Redis commands:
  INCR, and EXPIRE for the caller that found no counter.
*/
module LimiterCalls {
  import opened Common
  import opened Runs
  import opened RateLimiting

  /** A hit that has made its INCR. */
  datatype Call = Expiring | Returned(allowed: bool) | Thrown

  datatype State = State(limit: nat, window: nat, now: nat, key: Window, calls: map<nat, Call>)

  datatype Action =
    | Count(call: nat)
    | SetExpiry(call: nat)
    | ExpiryThrows(call: nat)
    | Wait(time: nat)

  function Step(s: State, a: Action): State {
    match a
    case Count(c) =>
      if c in s.calls then s
      else
        var w := Incr(s.key, s.now);
        s.(key := w, calls := s.calls[c := if w.n == 1 then Expiring else Returned(w.n <= s.limit)])
    case SetExpiry(c) =>
      if c in s.calls && s.calls[c].Expiring? then
        s.(key := Expire(s.key, s.now, s.window), calls := s.calls[c := Returned(1 <= s.limit)])
      else s
    case ExpiryThrows(c) => if Breaks(s, a) then s.(calls := s.calls[c := Thrown]) else s
    case Wait(time) => s.(now := s.now + time)
  }

  /** The EXPIRE of the caller that began the counter throws. */
  predicate Breaks(s: State, a: Action) {
    a.ExpiryThrows? && a.call in s.calls && s.calls[a.call].Expiring?
  }

  function Run(s: State, acts: seq<Action>): State {
    Fold(Step, s, acts)
  }

  function Init(limit: nat, window: nat, now: nat): State {
    State(limit, window, now, Closed, map[])
  }

  /** A hit alone, at one moment, is the hit taken whole. */
  lemma HitAlone(s: State, c: nat)
    requires c !in s.calls
    ensures var s' := Step(Step(s, Count(c)), SetExpiry(c));
      s'.key == Hit(s.key, s.now, s.limit, s.window).0
      && c in s'.calls && s'.calls[c] == Returned(Hit(s.key, s.now, s.limit, s.window).1)
  {}

  /** The hit that begins a counter, then a wait: the next hit is the second of the window or begins another. */
  lemma WindowPasses(s: State, c: nat, d: nat, time: nat)
    requires c !in s.calls && d !in s.calls && c != d && !Live(s.key, s.now)
    ensures var s' := Step(Step(Step(s, Count(c)), SetExpiry(c)), Wait(time));
      Step(s', Count(d)).key.n == if time < s.window then 2 else 1
  {}

  // ----- when the key never expires -----

  /** At most one caller has its EXPIRE to make, and the counter waits for it. */
  ghost predicate OneExpiring(s: State) {
    && (forall c, d | c in s.calls && d in s.calls && s.calls[c].Expiring? && s.calls[d].Expiring? :: c == d)
    && (forall c :: c in s.calls && s.calls[c].Expiring? ==> s.key.Unending?)
  }

  /** The counter has no expiry and nobody is left to set it. */
  ghost predicate Stuck(s: State) {
    s.key.Unending? && forall c :: c in s.calls ==> !s.calls[c].Expiring?
  }

  ghost predicate EverBreaks(s: State, acts: seq<Action>) {
    acts != []
    && (EverBreaks(s, acts[..|acts| - 1]) || Breaks(Run(s, acts[..|acts| - 1]), acts[|acts| - 1]))
  }

  lemma StepStuck(s: State, a: Action)
    requires OneExpiring(s)
    ensures OneExpiring(Step(s, a))
    ensures Stuck(Step(s, a)) <==> Stuck(s) || Breaks(s, a)
  {
    var s' := Step(s, a);
    if a.Count? && a.call !in s.calls {
      assert forall c :: c in s.calls ==> s'.calls[c] == s.calls[c];
      if !Live(s.key, s.now) { assert s'.calls[a.call].Expiring?; }
    } else if Breaks(s, a) {
      assert s'.key.Unending?;
    }
    if c :| c in s.calls && s.calls[c].Expiring? && s'.key.Unending? {
      assert Stuck(s') ==> Breaks(s, a) by {
        if !Breaks(s, a) { assert s'.calls[c].Expiring?; }
      }
    }
  }

  /**
    In every interleaving: the counter is left without an expiry for ever if
    and only if the EXPIRE of a caller that began a counter threw.
  */
  lemma {:induction false} StuckExactly(limit: nat, window: nat, now: nat, acts: seq<Action>)
    ensures var s0 := Init(limit, window, now); Stuck(Run(s0, acts)) <==> EverBreaks(s0, acts)
    ensures OneExpiring(Run(Init(limit, window, now), acts))
  {
    if acts == [] {
    } else {
      StuckExactly(limit, window, now, acts[..|acts| - 1]);
      StepStuck(Run(Init(limit, window, now), acts[..|acts| - 1]), acts[|acts| - 1]);
    }
  }

  predicate Counts(s: State, a: Action) {
    a.Count? && a.call !in s.calls
  }

  predicate LetsThrough(s: State, a: Action) {
    Counts(s, a) && Step(s, a).calls[a.call] == Returned(true)
  }

  /** The hits of a run from s. */
  function Hits(s: State, acts: seq<Action>): nat {
    if acts == [] then 0
    else
      var init := acts[..|acts| - 1];
      Hits(s, init) + if Counts(Run(s, init), acts[|acts| - 1]) then 1 else 0
  }

  /** Those of them let through at once. */
  function Passed(s: State, acts: seq<Action>): nat {
    if acts == [] then 0
    else
      var init := acts[..|acts| - 1];
      Passed(s, init) + if LetsThrough(Run(s, init), acts[|acts| - 1]) then 1 else 0
  }

  lemma StepCounts(s: State, a: Action)
    requires Stuck(s)
    ensures var s' := Step(s, a);
      s'.limit == s.limit && s'.key == (if Counts(s, a) then Unending(s.key.n + 1) else s.key)
      && (LetsThrough(s, a) <==> Counts(s, a) && s.key.n < s.limit)
  {}

  /** Once stuck at a count of n the limiter lets the next limit - n hits through and no other, whatever time passes. */
  lemma {:induction false} StuckRefusesForEver(s: State, acts: seq<Action>)
    requires Stuck(s) && OneExpiring(s)
    ensures var s', n := Run(s, acts), s.key.n;
      Stuck(s') && OneExpiring(s') && s'.limit == s.limit && s'.key.n == n + Hits(s, acts)
      && Passed(s, acts) == if n >= s.limit then 0 else Min(Hits(s, acts), s.limit - n)
  {
    if acts == [] {
    } else {
      var m, a := Run(s, acts[..|acts| - 1]), acts[|acts| - 1];
      StuckRefusesForEver(s, acts[..|acts| - 1]);
      StepStuck(m, a);
      StepCounts(m, a);
    }
  }
}
