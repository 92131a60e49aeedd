/**
  The Redis checkout lock under time: SET NX PX and DEL on one key per user.  The
  key does not say who set it, so a holder's release deletes whatever is there.
*/
module CheckoutLocks {
  type Caller = nat
  type UserId = string

  const TTL: nat := 5000

  predicate Live(keys: map<UserId, nat>, u: UserId, now: nat) {
    u in keys && now < keys[u]
  }

  class RedisCheckoutLock {
    /** lock:order:{user} with the time at which it expires. */
    var keys: map<UserId, nat>

    constructor ()
      ensures keys == map[]
    {
      keys := map[];
    }

    method Acquire(u: UserId, ttl: nat, now: nat) returns (ok: bool)
      modifies this
      ensures ok == !Live(old(keys), u, now)
      ensures keys == if ok then old(keys)[u := now + ttl] else old(keys)
    {
      if u in keys && now < keys[u] {
        return false;
      }
      keys := keys[u := now + ttl];
      ok := true;
    }

    method Release(u: UserId)
      modifies this
      ensures keys == old(keys) - {u}
    {
      keys := keys - {u};
    }
  }

  // ----- callers of placeOrder at the lock -----

  /** Enter: acquire, with the section entered on success.  Leave: the release in the finally block. */
  datatype Event = Enter(c: Caller, u: UserId, now: nat) | Leave(c: Caller)

  /** A caller inside its critical section, and when its key lapses. */
  datatype Holder = Holder(u: UserId, deadline: nat)
  datatype State = State(keys: map<UserId, nat>, inside: map<Caller, Holder>)

  function Step(s: State, e: Event): State {
    match e
    case Enter(c, u, now) =>
      if c in s.inside || Live(s.keys, u, now) then s
      else State(s.keys[u := now + TTL], s.inside[c := Holder(u, now + TTL)])
    case Leave(c) =>
      if c !in s.inside then s
      else State(s.keys - {s.inside[c].u}, s.inside - {c})
  }

  function Run(es: seq<Event>): State {
    if es == [] then State(map[], map[]) else Step(Run(es[..|es| - 1]), es[|es| - 1])
  }

  /** placeOrder at its lock: the section is entered when acquire succeeds and left through the finally block. */
  class Checkouts {
    const lock: RedisCheckoutLock
    ghost var inside: map<Caller, Holder>

    constructor (lock: RedisCheckoutLock)
      requires lock.keys == map[]
      ensures this.lock == lock && View() == Run([])
    {
      this.lock := lock;
      inside := map[];
    }

    ghost function View(): State
      reads this, lock
    {
      State(lock.keys, inside)
    }

    method Enter(c: Caller, u: UserId, now: nat) returns (ok: bool)
      requires c !in inside
      modifies this`inside, lock
      ensures View() == Step(old(View()), Event.Enter(c, u, now))
      ensures ok <==> c in inside
    {
      ok := lock.Acquire(u, TTL, now);
      if ok {
        inside := inside[c := Holder(u, now + TTL)];
      }
    }

    method Leave(c: Caller, u: UserId)
      requires c in inside && inside[c].u == u
      modifies this`inside, lock
      ensures View() == Step(old(View()), Event.Leave(c)) && c !in inside
    {
      lock.Release(u);
      inside := inside - {c};
    }
  }

  /** Two callers are inside for the same user. */
  ghost predicate Overlap(s: State) {
    exists c, d :: c in s.inside && d in s.inside && c != d && s.inside[c].u == s.inside[d].u
  }

  /** Event i finds some holder of its user inside although that holder's key has lapsed. */
  ghost predicate LateFor(s: State, e: Event) {
    e.Enter? && e.c !in s.inside && exists c :: c in s.inside && s.inside[c].u == e.u && s.inside[c].deadline <= e.now
  }

  /** Each holder's key stands until its deadline, and users inside are distinct. */
  ghost predicate Guarded(s: State) {
    && !Overlap(s)
    && (forall c :: c in s.inside ==> s.inside[c].u in s.keys && s.keys[s.inside[c].u] == s.inside[c].deadline)
  }

  lemma GuardedStep(s: State, e: Event)
    requires Guarded(s)
    ensures Overlap(Step(s, e)) <==> LateFor(s, e)
    ensures !LateFor(s, e) ==> Guarded(Step(s, e))
  {
    var t := Step(s, e);
    if LateFor(s, e) {
      var c :| c in s.inside && s.inside[c].u == e.u && s.inside[c].deadline <= e.now;
      assert c in t.inside && e.c in t.inside && t.inside[c].u == t.inside[e.c].u;
    }
  }

  /** The first i events admit nobody while another caller of that user overstays. */
  ghost predicate InTime(es: seq<Event>) {
    forall i :: 0 <= i < |es| ==> !LateFor(Run(es[..i]), es[i])
  }

  lemma {:induction false} InTimeGuarded(es: seq<Event>)
    requires InTime(es)
    ensures Guarded(Run(es))
  {
    if es == [] {
    } else {
      var init := es[..|es| - 1];
      forall i | 0 <= i < |init| ensures !LateFor(Run(init[..i]), init[i]) {
        assert init[..i] == es[..i];
      }
      InTimeGuarded(init);
      GuardedStep(Run(init), es[|es| - 1]);
    }
  }

  /**
    Mutual exclusion holds at every moment of a run exactly when no caller asks
    for the lock of a user whose holder is still inside after its key lapsed.
  */
  lemma {:induction false} ExclusiveExactlyInTime(es: seq<Event>)
    ensures (forall k :: 0 <= k <= |es| ==> !Overlap(Run(es[..k]))) <==> InTime(es)
  {
    if InTime(es) {
      forall k | 0 <= k <= |es| ensures !Overlap(Run(es[..k])) {
        forall i | 0 <= i < k ensures !LateFor(Run(es[..k][..i]), es[..k][i]) {
          assert es[..k][..i] == es[..i];
        }
        InTimeGuarded(es[..k]);
      }
    } else {
      var i := FirstLate(es);
      InTimeGuarded(es[..i]);
      GuardedStep(Run(es[..i]), es[i]);
      assert es[..i + 1][..i] == es[..i];
      assert Overlap(Run(es[..i + 1]));
    }
  }

  lemma {:induction false} InTimeExtends(es: seq<Event>, i: nat)
    requires i < |es| && InTime(es[..i]) && !LateFor(Run(es[..i]), es[i])
    ensures InTime(es[..i + 1])
  {
    var longer := es[..i + 1];
    forall k | 0 <= k < |longer| ensures !LateFor(Run(longer[..k]), longer[k]) {
      assert longer[..k] == es[..k];
      if k < i { assert es[..i][..k] == es[..k] && es[..i][k] == es[k]; }
    }
  }

  /** The first event that is late. */
  lemma {:induction false} FirstLate(es: seq<Event>) returns (i: nat)
    requires !InTime(es)
    ensures i < |es| && LateFor(Run(es[..i]), es[i]) && InTime(es[..i])
  {
    assert es[..|es|] == es;
    i := 0;
    while i < |es| && !LateFor(Run(es[..i]), es[i])
      invariant i <= |es| && InTime(es[..i])
    {
      InTimeExtends(es, i);
      i := i + 1;
    }
  }

  /**
    After a lapse the harm spreads: the first holder's release deletes the second
    holder's key, and a third caller enters at once, with no key lapsed since.
  */
  lemma LateReleaseFreesAnother(u: UserId)
    ensures var s := Run([Enter(0, u, 0), Enter(1, u, TTL), Leave(0), Enter(2, u, TTL + 1)]);
      1 in s.inside && 2 in s.inside && TTL + 1 < s.inside[1].deadline && s.inside[1].u == s.inside[2].u
  {
    var a, b, c, d := Enter(0, u, 0), Enter(1, u, TTL), Leave(0), Enter(2, u, TTL + 1);
    assert [a][..0] == [] && [a, b][..1] == [a] && [a, b, c][..2] == [a, b] && [a, b, c, d][..3] == [a, b, c];
    assert Run([a]) == Step(Run([]), a);
    assert Run([a, b]) == Step(Run([a]), b);
    assert Run([a, b, c]) == Step(Run([a, b]), c);
  }
}
