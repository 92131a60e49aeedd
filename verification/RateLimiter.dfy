/**
  The fixed-window rate limiter: INCR, EXPIRE on the first hit, compare.  Times
  are in any unit that does not decrease.
*/
module RateLimiting {
  import opened Common

  type Positive = n: nat | n > 0 witness 1

  /** The counter key: absent, a count that expires, or one whose EXPIRE has not been made. */
  datatype Window = Closed | Open(n: Positive, expiresAt: nat) | Unending(n: Positive)

  predicate Live(w: Window, t: nat) {
    w.Unending? || (w.Open? && t < w.expiresAt)
  }

  function Incr(w: Window, t: nat): (r: Window)
    ensures Live(w, t) && w.Open? ==> r == Open(w.n + 1, w.expiresAt)
    ensures Live(w, t) && w.Unending? ==> r == Unending(w.n + 1)
    ensures !Live(w, t) ==> r == Unending(1)
  {
    if Live(w, t) then w.(n := w.n + 1) else Unending(1)
  }

  /** EXPIRE does nothing to a key that is gone. */
  function Expire(w: Window, t: nat, window: nat): Window {
    if Live(w, t) then Open(w.n, t + window) else w
  }

  /** One hit at time t: the key afterwards and whether the hit is allowed. */
  function Hit(w: Window, t: nat, limit: nat, window: nat): (Window, bool) {
    var w' := Incr(w, t);
    (if w'.n == 1 then Expire(w', t, window) else w', w'.n <= limit)
  }

  /** The EXPIRE of a first hit throws. */
  predicate HitThrows(w: Window, t: nat, expireThrows: bool) {
    expireThrows && !Live(w, t)
  }

  class RedisRateLimiter {
    var keys: map<string, Window>

    constructor ()
      ensures keys == map[]
    {
      keys := map[];
    }

    /** None when the EXPIRE throws, which leaves a key that never expires. */
    method Allow(key: string, limit: nat, window: nat, now: nat, expireThrows: bool) returns (allowed: Option<bool>)
      modifies this
      ensures var w := if key in old(keys) then old(keys)[key] else Closed;
        if HitThrows(w, now, expireThrows) then allowed == None && keys == old(keys)[key := Unending(1)]
        else allowed == Some(Hit(w, now, limit, window).1) && keys == old(keys)[key := Hit(w, now, limit, window).0]
    {
      keys := keys[key := Incr(if key in keys then keys[key] else Closed, now)];
      var n := keys[key].n;
      if n == 1 {
        if expireThrows { return None; }
        keys := keys[key := Expire(keys[key], now, window)];
      }
      return Some(n <= limit);
    }
  }

  ghost predicate Ordered(times: seq<nat>) {
    forall i, j :: 0 <= i < j < |times| ==> times[i] <= times[j]
  }

  /** The key after a trace of hits. */
  function After(times: seq<nat>, limit: nat, window: nat): Window {
    if times == [] then Closed else Hit(After(times[..|times| - 1], limit, window), times[|times| - 1], limit, window).0
  }

  predicate Accepted(times: seq<nat>, i: nat, limit: nat, window: nat)
    requires i < |times|
  {
    Hit(After(times[..i], limit, window), times[i], limit, window).1
  }

  /** The first hit of the window that hit i falls in: windows by time alone, no counter. */
  function Start(times: seq<nat>, i: nat, window: nat): (s: nat)
    requires i < |times|
    ensures s <= i
  {
    if i == 0 then 0
    else
      var s := Start(times, i - 1, window);
      if times[i] < times[s] + window then s else i
  }

  /** The counter after hit i counts the hits of its window. */
  lemma {:induction false} CounterCounts(times: seq<nat>, i: nat, limit: nat, window: nat)
    requires i < |times|
    ensures var s := Start(times, i, window);
      After(times[..i + 1], limit, window) == Open(i - s + 1, times[s] + window)
  {
    var t := times[..i + 1];
    assert t[..|t| - 1] == times[..i];
    if i == 0 {
    } else {
      CounterCounts(times, i - 1, limit, window);
    }
  }

  /** Each window accepts exactly its first limit hits. */
  lemma FirstHitsOfWindow(times: seq<nat>, i: nat, limit: nat, window: nat)
    requires i < |times|
    ensures Accepted(times, i, limit, window) <==> i < Start(times, i, window) + limit
  {
    if i > 0 {
      CounterCounts(times, i - 1, limit, window);
    } else {
      assert times[..0] == [];
    }
  }

  /** Windows partition the hits: a window's hits are later than every earlier window. */
  lemma {:induction false} StartsIncrease(times: seq<nat>, i: nat, j: nat, window: nat)
    requires i <= j < |times|
    ensures Start(times, i, window) == Start(times, j, window) || i < Start(times, j, window)
  {
    if i == j {
    } else {
      StartsIncrease(times, i, j - 1, window);
    }
  }

  /** A later window starts at least a window after any earlier window's start. */
  lemma {:induction false} StartsApart(times: seq<nat>, i: nat, j: nat, window: nat)
    requires i <= j < |times| && Ordered(times)
    requires Start(times, i, window) < Start(times, j, window)
    ensures times[Start(times, i, window)] + window <= times[Start(times, j, window)]
  {
    var first, s, last := Start(times, i, window), Start(times, j - 1, window), Start(times, j, window);
    if last == s {
      StartsApart(times, i, j - 1, window);
    } else {
      assert last == j && times[s] + window <= times[j];
      StartsIncrease(times, i, j - 1, window);
      if s != first { StartsApart(times, i, j - 1, window); }
    }
  }

  /** The accepted hits at times in [a, a + window). */
  ghost function AcceptedIn(times: seq<nat>, a: nat, limit: nat, window: nat): set<nat> {
    set i | 0 <= i < |times| && Accepted(times, i, limit, window) && a <= times[i] < a + window
  }

  function Range(lo: nat, n: nat): (r: set<nat>)
    ensures |r| == n
    ensures forall i :: i in r <==> lo <= i < lo + n
  {
    if n == 0 then {} else Range(lo, n - 1) + {lo + n - 1}
  }

  lemma SubsetSize(a: set<nat>, b: set<nat>)
    requires a <= b
    ensures |a| <= |b|
  {
    if a == {} {
    } else {
      var x :| x in a;
      SubsetSize(a - {x}, b - {x});
    }
  }

  /** Hits of one span fall in at most two windows. */
  lemma TwoWindows(times: seq<nat>, a: nat, window: nat, m: nat, i: nat, j: nat)
    requires Ordered(times) && m <= i < |times| && m <= j < |times|
    requires a <= times[m] && times[i] < a + window && times[j] < a + window
    requires Start(times, i, window) != Start(times, m, window) && Start(times, j, window) != Start(times, m, window)
    ensures Start(times, i, window) == Start(times, j, window)
  {
    if i <= j {
      StartsIncrease(times, i, j, window);
      StartsIncrease(times, m, i, window);
      if Start(times, i, window) != Start(times, j, window) { StartsApart(times, i, j, window); }
    } else {
      TwoWindows(times, a, window, m, j, i);
    }
  }

  /**
    Any half-open span as long as the window contains at most 2 * limit - 1
    accepted hits: the window begun before the span's second window gave at
    least its first hit before the span, or nothing follows it in the span.
  */
  lemma SpanBound(times: seq<nat>, a: nat, limit: nat, window: nat)
    requires Ordered(times)
    ensures |AcceptedIn(times, a, limit, window)| <= if limit == 0 then 0 else 2 * limit - 1
  {
    var hits := AcceptedIn(times, a, limit, window);
    if hits != {} {
      var m := First(hits);
      var s := Start(times, m, window);
      FirstHitsOfWindow(times, m, limit, window);
      FirstWindow(times, a, limit, window, m);
      if k :| k in hits && Start(times, k, window) != s {
        StartsIncrease(times, m, k, window);
        StartsApart(times, m, k, window);
        var one, two := Range(s + 1, limit - 1), Range(Start(times, k, window), limit);
        forall i | i in hits ensures i in one + two {
          FirstHitsOfWindow(times, i, limit, window);
          if Start(times, i, window) != s { TwoWindows(times, a, window, m, i, k); }
        }
        SubsetSize(hits, one + two);
      } else {
        SubsetSize(hits, Range(s, limit));
      }
    }
  }

  /** Accepted hits in the window of m are among its first limit hits. */
  lemma FirstWindow(times: seq<nat>, a: nat, limit: nat, window: nat, m: nat)
    requires m < |times|
    ensures forall i | i in AcceptedIn(times, a, limit, window) && Start(times, i, window) == Start(times, m, window) ::
      Start(times, m, window) <= i < Start(times, m, window) + limit
  {
    forall i | i in AcceptedIn(times, a, limit, window) && Start(times, i, window) == Start(times, m, window)
      ensures Start(times, m, window) <= i < Start(times, m, window) + limit
    {
      FirstHitsOfWindow(times, i, limit, window);
    }
  }

  /** A start is its own start. */
  lemma {:induction false} StartOfStart(times: seq<nat>, i: nat, window: nat)
    requires i < |times|
    ensures Start(times, Start(times, i, window), window) == Start(times, i, window)
  {
    if i == 0 {
    } else {
      StartOfStart(times, i - 1, window);
    }
  }

  // ----- the bound is reached -----

  /** One hit, limit - 1 more at the window's last moment, and limit at the next window's first. */
  function Burst(limit: nat, window: nat): seq<nat>
    requires window > 0
  {
    seq(2 * limit, i requires 0 <= i < 2 * limit => if i == 0 then 0 else if i < limit then window - 1 else window)
  }

  lemma {:induction false} BurstStarts(limit: nat, window: nat, i: nat)
    requires window > 0 && i < 2 * limit
    ensures Start(Burst(limit, window), i, window) == if i < limit then 0 else limit
  {
    if i == 0 {
    } else {
      BurstStarts(limit, window, i - 1);
    }
  }

  /** Every positive limit has a trace with 2 * limit - 1 accepted hits in one span of a window. */
  lemma SpanReached(limit: nat, window: nat)
    requires limit > 0 && window > 1
    ensures Ordered(Burst(limit, window))
    ensures |AcceptedIn(Burst(limit, window), window - 1, limit, window)| == 2 * limit - 1
  {
    BurstOrdered(limit, window);
    var hits := AcceptedIn(Burst(limit, window), window - 1, limit, window);
    forall i: nat ensures i in hits <==> 1 <= i < 2 * limit { BurstAccepts(limit, window, i); }
    RangeSize(hits, 1, 2 * limit);
  }

  lemma BurstOrdered(limit: nat, window: nat)
    requires window > 0
    ensures Ordered(Burst(limit, window))
  {}

  lemma BurstAccepts(limit: nat, window: nat, i: nat)
    requires limit > 0 && window > 1
    ensures i in AcceptedIn(Burst(limit, window), window - 1, limit, window) <==> 1 <= i < 2 * limit
  {
    if i < 2 * limit {
      BurstStarts(limit, window, i);
      FirstHitsOfWindow(Burst(limit, window), i, limit, window);
    }
  }

  lemma RangeSize(s: set<nat>, lo: nat, hi: nat)
    requires lo <= hi && forall i: nat :: i in s <==> lo <= i < hi
    ensures |s| == hi - lo
  {
    assert s == Range(lo, hi - lo);
  }

  // ----- when a span exceeds the limit -----

  /** The accepted hits of two windows from hit i of the first to hit j of the second. */
  function Spread(times: seq<nat>, i: nat, j: nat, limit: nat, window: nat): int
    requires i < |times| && j < |times|
  {
    var s, next := Start(times, i, window), Start(times, j, window);
    (if s + limit <= next then s + limit else next) - i + (j - next + 1)
  }

  /** Two accepted hits of one span, in different windows, spread over more than limit accepted hits. */
  ghost predicate Crosses(times: seq<nat>, a: nat, limit: nat, window: nat, i: nat, j: nat) {
    && i in AcceptedIn(times, a, limit, window) && j in AcceptedIn(times, a, limit, window)
    && Start(times, i, window) < Start(times, j, window)
    && Spread(times, i, j, limit, window) > limit
  }

  /** Between two hits of one span the hits fall in their two windows. */
  lemma NoWindowBetween(times: seq<nat>, a: nat, window: nat, i: nat, j: nat, x: nat)
    requires Ordered(times) && i <= x <= j < |times|
    requires a <= times[i] && times[j] < a + window
    requires Start(times, i, window) < Start(times, j, window)
    ensures Start(times, x, window) == if x < Start(times, j, window) then Start(times, i, window)
        else Start(times, j, window)
  {
    StartsIncrease(times, x, j, window);
    StartsIncrease(times, i, x, window);
    if Start(times, x, window) != Start(times, i, window) { TwoWindows(times, a, window, i, x, j); }
  }

  /** Hits i to j of a span: those accepted are the first limit of i's window and those of j's. */
  lemma AcceptedBetween(times: seq<nat>, a: nat, limit: nat, window: nat, i: nat, j: nat, x: nat)
    requires Ordered(times)
    requires i in AcceptedIn(times, a, limit, window) && j in AcceptedIn(times, a, limit, window)
    requires Start(times, i, window) < Start(times, j, window) && i <= x <= j
    ensures x in AcceptedIn(times, a, limit, window)
       <==> x < Start(times, i, window) + limit || x >= Start(times, j, window)
  {
    NoWindowBetween(times, a, window, i, j, x);
    FirstHitsOfWindow(times, x, limit, window);
    FirstHitsOfWindow(times, j, limit, window);
    assert times[i] <= times[x] <= times[j];
  }

  ghost function Between(hits: set<nat>, i: nat, j: nat): set<nat> {
    set x | x in hits && i <= x <= j
  }

  /** The first of two hits in different windows comes first, before the second's window. */
  lemma SpreadOrder(times: seq<nat>, limit: nat, window: nat, i: nat, j: nat)
    requires i < |times| && j < |times| && Accepted(times, i, limit, window)
    requires Start(times, i, window) < Start(times, j, window)
    ensures i < Start(times, j, window) <= j && i < Start(times, i, window) + limit
  {
    FirstHitsOfWindow(times, i, limit, window);
    if j < i { StartsIncrease(times, j, i, window); } else { StartsIncrease(times, i, j, window); }
  }

  /** What lies between is counted by Spread. */
  lemma {:induction false} SpreadCounts(times: seq<nat>, a: nat, limit: nat, window: nat, i: nat, j: nat)
    requires Ordered(times)
    requires i in AcceptedIn(times, a, limit, window) && j in AcceptedIn(times, a, limit, window)
    requires Start(times, i, window) < Start(times, j, window)
    ensures |Between(AcceptedIn(times, a, limit, window), i, j)| == Spread(times, i, j, limit, window)
  {
    var hits := AcceptedIn(times, a, limit, window);
    var s, next := Start(times, i, window), Start(times, j, window);
    SpreadOrder(times, limit, window, i, j);
    var last := if s + limit <= next then s + limit else next;
    var one, two := Range(i, last - i), Range(next, j - next + 1);
    forall x ensures x in Between(hits, i, j) <==> x in one + two {
      if i <= x <= j { AcceptedBetween(times, a, limit, window, i, j, x); }
    }
    DisjointSizes(Between(hits, i, j), one, two);
  }

  lemma DisjointSizes(all: set<nat>, one: set<nat>, two: set<nat>)
    requires one !! two && forall x :: x in all <==> x in one + two
    ensures |all| == |one| + |two|
  {
    assert all == one + two;
  }

  /**
    A span of one window holds more than limit accepted hits if and only if two
    of them, in different windows, spread over more than limit.
  */
  lemma SpanExceedsExactly(times: seq<nat>, a: nat, limit: nat, window: nat)
    requires Ordered(times)
    ensures |AcceptedIn(times, a, limit, window)| > limit
       <==> exists i, j :: Crosses(times, a, limit, window, i, j)
  {
    var hits := AcceptedIn(times, a, limit, window);
    if i, j :| Crosses(times, a, limit, window, i, j) {
      SpreadCounts(times, a, limit, window, i, j);
      SubsetSize(Between(hits, i, j), hits);
    }
    if |hits| > limit {
      var i, j := CrossingHits(times, a, limit, window);
      assert Crosses(times, a, limit, window, i, j);
    }
  }

  lemma CrossingHits(times: seq<nat>, a: nat, limit: nat, window: nat) returns (i: nat, j: nat)
    requires Ordered(times) && |AcceptedIn(times, a, limit, window)| > limit
    ensures Crosses(times, a, limit, window, i, j)
  {
    var hits := AcceptedIn(times, a, limit, window);
    i := First(hits);
    j := Last(hits);
    if Start(times, i, window) == Start(times, j, window) {
      OneWindowFits(times, a, limit, window, i, j);
    }
    StartsIncrease(times, i, j, window);
    SpreadCounts(times, a, limit, window, i, j);
    assert hits == Between(hits, i, j);
  }

  lemma OneWindowFits(times: seq<nat>, a: nat, limit: nat, window: nat, i: nat, j: nat)
    requires i in AcceptedIn(times, a, limit, window) && j in AcceptedIn(times, a, limit, window)
    requires Start(times, i, window) == Start(times, j, window)
    requires forall x :: x in AcceptedIn(times, a, limit, window) ==> i <= x <= j
    ensures |AcceptedIn(times, a, limit, window)| <= limit
  {
    var hits := AcceptedIn(times, a, limit, window);
    FirstWindow(times, a, limit, window, i);
    forall x | x in hits ensures x in Range(Start(times, i, window), limit) {
      StartsIncrease(times, i, x, window);
      StartsIncrease(times, x, j, window);
    }
    SubsetSize(hits, Range(Start(times, i, window), limit));
  }

  lemma Last(s: set<nat>) returns (m: nat)
    requires s != {}
    ensures m in s && forall x :: x in s ==> x <= m
    decreases s
  {
    m :| m in s;
    if s != {m} {
      var k := Last(s - {m});
      forall x | x in s ensures x <= (if k > m then k else m) { assert x == m || x in s - {m}; }
      m := if k > m then k else m;
    }
  }

  lemma First(s: set<nat>) returns (m: nat)
    requires s != {}
    ensures m in s && forall x :: x in s ==> m <= x
    decreases s
  {
    m :| m in s;
    if s != {m} {
      var k := First(s - {m});
      forall x | x in s ensures (if k < m then k else m) <= x { assert x == m || x in s - {m}; }
      m := if k < m then k else m;
    }
  }
}
