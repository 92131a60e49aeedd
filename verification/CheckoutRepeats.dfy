/** When a cart is ordered twice: exactly which commits, and how a lapsed lock or a failed clear leads there. */
module CheckoutRepeats {
  import opened Runs
  import opened Common
  import opened OrderModel
  import opened Checkout

  /**
    The state with two facts kept: the orders whose user's cart was cleared since,
    and the orders whose call left without clearing, with the user who called:
    its clear threw, or the answer to its commit was lost.
  */
  datatype Watched = Watched(s: State, cleared: set<OrderId>, skipped: set<(OrderId, UserId)>)

  function OrdersOf(db: Db, u: UserId): set<OrderId> {
    set o | o in db.orders && db.orders[o].user == u
  }

  function Watch(w: Watched, a: Action): Watched {
    var e := Logged(w.s, a);
    Watched(Step(w.s, a),
      if e.Some? && e.value.Cleared? then w.cleared + OrdersOf(w.s.db, e.value.user) else w.cleared,
      if a.CommitUnheard? && e.Some? then w.skipped + {(e.value.order, e.value.user)}
      else if a.CallThrows? && a.call in w.s.calls && w.s.calls[a.call].Clearing? then
        w.skipped + {(w.s.calls[a.call].res.order, w.s.calls[a.call].req.user)}
      else w.skipped)
  }

  function WatchRun(acts: seq<Action>): (w: Watched)
    ensures w.s == Run(INIT, acts)
  {
    if acts == [] then Watched(INIT, {}, {}) else Watch(WatchRun(acts[..|acts| - 1]), acts[|acts| - 1])
  }

  /** A call of the user is about to clear the cart for an order of theirs that no clear has followed. */
  ghost predicate LeftToCall(w: Watched, c: nat, u: UserId) {
    Pends(w.s, c, u) && w.s.calls[c].res.order in OrdersOf(w.s.db, u) - w.cleared
  }

  /** The call of this order of the user left without clearing, and no clear has succeeded since. */
  ghost predicate LeftUncleared(w: Watched, o: OrderId, u: UserId) {
    o in OrdersOf(w.s.db, u) - w.cleared && (o, u) in w.skipped
  }

  ghost predicate Owed(w: Watched, o: OrderId, u: UserId) {
    LeftUncleared(w, o, u) || exists c :: LeftToCall(w, c, u) && w.s.calls[c].res.order == o
  }

  /** The user orders while an earlier order of theirs still waits for its clear, or was left without one. */
  ghost predicate OrdersAgain(w: Watched, a: Action, u: UserId) {
    && Logged(w.s, a).Some? && CommitOf(Logged(w.s, a).value, u)
    && exists o :: Owed(w, o, u)
  }

  ghost predicate NeverAgain(acts: seq<Action>, u: UserId) {
    acts == [] || (NeverAgain(acts[..|acts| - 1], u) && !OrdersAgain(WatchRun(acts[..|acts| - 1]), acts[|acts| - 1], u))
  }

  // ----- every order of the user not yet cleared is owed a clear -----

  ghost predicate Accounted(w: Watched, u: UserId) {
    && (forall o :: o in OrdersOf(w.s.db, u) - w.cleared ==> Owed(w, o, u))
    && (Open(w.s.log, u) <==> OrdersOf(w.s.db, u) - w.cleared != {})
  }

  /** What one step does to the user's orders. */
  lemma {:induction false} OrdersOfAfter(s: State, a: Action, u: UserId)
    ensures var e := Logged(s, a);
      OrdersOf(Step(s, a).db, u)
      == if e.Some? && CommitOf(e.value, u) then OrdersOf(s.db, u) + {e.value.order} else OrdersOf(s.db, u)
  {
    OrdersAfter(s, a);
  }

  lemma {:induction false} StaysOwed(w: Watched, a: Action, o: OrderId, u: UserId)
    requires Owed(w, o, u) && !(a.Clear? && Pends(w.s, a.call, u))
    requires o in OrdersOf(Watch(w, a).s.db, u) - Watch(w, a).cleared
    ensures Owed(Watch(w, a), o, u)
  {
    if !LeftUncleared(w, o, u) {
      var c: nat :| LeftToCall(w, c, u) && w.s.calls[c].res.order == o;
      if !(a.CallThrows? && a.call == c) {
        StaysAtClear(w.s, a, c, u);
        assert LeftToCall(Watch(w, a), c, u);
      }
    }
  }

  lemma StaysAtClear(s: State, a: Action, c: nat, u: UserId)
    requires Pends(s, c, u) && !((a.Clear? || a.CallThrows?) && a.call == c)
    ensures Pends(Step(s, a), c, u) && Step(s, a).calls[c].res == s.calls[c].res
  {}

  lemma {:induction false} NewOrderIsOwed(w: Watched, a: Action, u: UserId)
    requires Logged(w.s, a).Some? && CommitOf(Logged(w.s, a).value, u)
    requires Logged(w.s, a).value.order !in w.cleared
    ensures Owed(Watch(w, a), Logged(w.s, a).value.order, u)
  {
    OrdersOfAfter(w.s, a, u);
    var s' := Step(w.s, a);
    if a.Commit? {
      assert Pends(s', a.call, u) && s'.calls[a.call].res.order == a.id;
      assert LeftToCall(Watch(w, a), a.call, u);
    }
  }

  lemma {:induction false} ClearAccounts(w: Watched, a: Action, u: UserId)
    requires w.cleared <= w.s.db.orders.Keys && a.Clear? && Pends(w.s, a.call, u)
    ensures Accounted(Watch(w, a), u)
  {
    LogAfter(w.s, a);
    OrdersOfAfter(w.s, a, u);
    OpenAfter(w.s.log, Cleared(u), u);
    assert OrdersOf(Watch(w, a).s.db, u) - Watch(w, a).cleared == {};
  }

  lemma {:induction false} StepStaysAccounted(w: Watched, a: Action, u: UserId)
    requires Accounted(w, u) && w.cleared <= w.s.db.orders.Keys
    ensures Accounted(Watch(w, a), u)
  {
    if a.Clear? && Pends(w.s, a.call, u) {
      ClearAccounts(w, a, u);
    } else {
      OthersAccount(w, a, u);
    }
  }

  lemma {:induction false} OthersAccount(w: Watched, a: Action, u: UserId)
    requires Accounted(w, u) && w.cleared <= w.s.db.orders.Keys && !(a.Clear? && Pends(w.s, a.call, u))
    ensures Accounted(Watch(w, a), u)
  {
    var w', e := Watch(w, a), Logged(w.s, a);
    OrdersOfAfter(w.s, a, u);
    OpenStays(w, a, u);
    if e.Some? && CommitOf(e.value, u) { NewOrderIsOwed(w, a, u); }
    forall o | o in OrdersOf(w'.s.db, u) - w'.cleared ensures Owed(w', o, u) {
      if o in OrdersOf(w.s.db, u) {
        assert Owed(w, o, u);
        StaysOwed(w, a, o, u);
      }
    }
  }

  /** Without a clear of the user's cart, open stays open, and only a commit opens. */
  lemma {:induction false} OpenStays(w: Watched, a: Action, u: UserId)
    requires w.cleared <= w.s.db.orders.Keys && !(a.Clear? && Pends(w.s, a.call, u))
    ensures var left, w' := OrdersOf(w.s.db, u) - w.cleared, Watch(w, a);
      (Open(w.s.log, u) <==> left != {}) ==> (Open(w'.s.log, u) <==> OrdersOf(w'.s.db, u) - w'.cleared != {})
  {
    var e, w' := Logged(w.s, a), Watch(w, a);
    LogAfter(w.s, a);
    OrdersAfter(w.s, a);
    OrdersOfAfter(w.s, a, u);
    if e.Some? { OpenAfter(w.s.log, e.value, u); }
    if e.Some? && CommitOf(e.value, u) {
      assert e.value.order in OrdersOf(w'.s.db, u) - w'.cleared;
    } else {
      assert OrdersOf(w'.s.db, u) - w'.cleared == OrdersOf(w.s.db, u) - w.cleared;
    }
  }

  lemma {:induction false} ClearedAreOrders(w: Watched, a: Action)
    requires w.cleared <= w.s.db.orders.Keys
    ensures Watch(w, a).cleared <= Watch(w, a).s.db.orders.Keys
  {
    OrdersAfter(w.s, a);
  }

  /** In every run the user's log is open exactly while an order of theirs is owed its clear. */
  lemma {:induction false} OpenExactly(acts: seq<Action>, u: UserId)
    ensures Open(Run(INIT, acts).log, u) <==> exists o :: Owed(WatchRun(acts), o, u)
    ensures Accounted(WatchRun(acts), u) && WatchRun(acts).cleared <= Run(INIT, acts).db.orders.Keys
  {
    if acts == [] {
    } else {
      OpenExactly(acts[..|acts| - 1], u);
      StepStaysAccounted(WatchRun(acts[..|acts| - 1]), acts[|acts| - 1], u);
      ClearedAreOrders(WatchRun(acts[..|acts| - 1]), acts[|acts| - 1]);
    }
    var w := WatchRun(acts);
    if o :| o in OrdersOf(w.s.db, u) - w.cleared { assert Owed(w, o, u); }
  }

  /**
    In every run, lapsed locks and failing calls included: a clear of the user's
    cart lies between any two of the user's orders if and only if no commit of
    theirs finds a call that has still to clear the cart for an earlier order, or
    an earlier order whose call left without clearing, with no clear since.
  */
  lemma {:induction false} AlternatesExactly(acts: seq<Action>, u: UserId)
    ensures Alternates(Run(INIT, acts).log, u) <==> NeverAgain(acts, u)
  {
    if acts == [] {
    } else {
      var init, a := acts[..|acts| - 1], acts[|acts| - 1];
      AlternatesExactly(init, u);
      OpenExactly(init, u);
      LogAfter(Run(INIT, init), a);
      if Logged(Run(INIT, init), a).Some? {
        AlternatesAfter(Run(INIT, init).log, Logged(Run(INIT, init), a).value, u);
      } else {
        assert Run(INIT, acts).log == Run(INIT, init).log;
      }
    }
  }

  /**
    While no lock of the user lapses only a failure can do it: a commit orders
    again exactly when an earlier order's call left without clearing, with no clear since.
  */
  lemma {:induction false} OnlyFailuresRepeat(acts: seq<Action>, a: Action, u: UserId)
    requires LapseFree(acts, u) && Logged(Run(INIT, acts), a).Some? && CommitOf(Logged(Run(INIT, acts), a).value, u)
    ensures OrdersAgain(WatchRun(acts), a, u)
       <==> exists o :: LeftUncleared(WatchRun(acts), o, u)
  {
    var w := WatchRun(acts);
    LockIsCriticalSection(acts, u);
    AloneSeesNoClear(w.s, a.call, u);
    if OrdersAgain(w, a, u) {
      var o :| Owed(w, o, u);
      assert forall c :: !LeftToCall(w, c, u);
    }
    if o :| LeftUncleared(w, o, u) { assert Owed(w, o, u); }
  }

  lemma {:induction false} AllCleared(acts: seq<Action>, u: UserId)
    requires ClearsSucceed(acts, u)
    ensures forall o :: (o, u) !in WatchRun(acts).skipped
  {
    if acts == [] {
    } else {
      AllCleared(acts[..|acts| - 1], u);
    }
  }

  /**
    While every order's call goes on to clear, it takes a second call inside: a
    commit orders again exactly when another call has still to clear an earlier order.
  */
  lemma {:induction false} OnlyLapsesRepeat(acts: seq<Action>, a: Action, u: UserId)
    requires ClearsSucceed(acts, u) && Logged(Run(INIT, acts), a).Some? && CommitOf(Logged(Run(INIT, acts), a).value, u)
    ensures OrdersAgain(WatchRun(acts), a, u)
       <==> exists c :: c != a.call && LeftToCall(WatchRun(acts), c, u)
  {
    var w := WatchRun(acts);
    AllCleared(acts, u);
    if OrdersAgain(w, a, u) {
      var o :| Owed(w, o, u);
      var c: nat :| LeftToCall(w, c, u) && w.s.calls[c].res.order == o;
      assert c != a.call;
    }
    if c: nat :| c != a.call && LeftToCall(w, c, u) { assert Owed(w, w.s.calls[c].res.order, u); }
  }

  // ----- two runs that order one cart twice -----

  /** The order lines of a cart whose one line the catalog resolves. */
  function LineOf(i: CartLine, r: Resolved): Line
    requires r.Resolved?
  {
    Line(i.productId, i.variantId, r.productName, r.variantLabel, r.unitPrice, i.quantity)
  }

  lemma PricesOne(i: CartLine, r: Resolved)
    requires r.Resolved? && r.isActive
    ensures Price([i], [r]) == Ok([LineOf(i, r)])
  {
    var items, answers := [i], [r];
    assert items[1..] == [] && answers[1..] == [];
    var none: seq<Line> := [];
    assert Price(items[1..], answers[1..]) == Ok(none);
    assert [LineOf(i, r)] + none == [LineOf(i, r)];
  }

  lemma Enters(s: State, c: nat, req: Request)
    requires c in s.calls && s.calls[c] == Acquiring(req) && req.user !in s.locks && req.key !in s.db.idem
    ensures var s1 := Step(Step(s, Acquire(c)), Look(c));
      s1 == s.(calls := s.calls[c := GettingCart(req)], locks := s.locks + {req.user})
  {
    var s0 := Step(s, Acquire(c));
    assert s0 == s.(calls := s.calls[c := SecondLookup(req)], locks := s.locks + {req.user});
    assert s.calls[c := SecondLookup(req)][c := GettingCart(req)] == s.calls[c := GettingCart(req)];
  }

  lemma Prices(s: State, c: nat, req: Request, i: CartLine, r: Resolved)
    requires c in s.calls && s.calls[c] == GettingCart(req) && r.Resolved? && r.isActive
    requires CartOf(s, req.user) == [i]
    ensures Step(Step(s, GetCart(c)), Resolve(c, [r])) == s.(calls := s.calls[c := Committing(req, [LineOf(i, r)])])
  {
    PricesOne(i, r);
    var s1 := Step(s, GetCart(c));
    assert s1 == s.(calls := s.calls[c := Resolving(req, [i])]);
    assert s.calls[c := Resolving(req, [i])][c := Committing(req, [LineOf(i, r)])]
      == s.calls[c := Committing(req, [LineOf(i, r)])];
  }

  /** A call of a user whose lock is free gets as far as its commit. */
  lemma {:induction false} ReachesCommit(acts: seq<Action>, c: nat, req: Request, i: CartLine,
      r: Resolved) returns (more: seq<Action>)
    requires r.Resolved? && r.isActive
    requires var s := Run(INIT, acts);
      c !in s.calls && req.key !in s.db.idem && req.user !in s.locks && CartOf(s, req.user) == [i]
    ensures var s := Run(INIT, acts);
      Run(INIT, more) == s.(calls := s.calls[c := Committing(req, [LineOf(i, r)])], locks := s.locks + {req.user})
  {
    var s := Run(INIT, acts);
    var a1, a2 := acts + [Arrive(c, req)], acts + [Arrive(c, req)] + [Look(c)];
    FoldThen(Step, INIT, acts, Arrive(c, req));
    FoldThen(Step, INIT, a1, Look(c));
    var a3, a4 := a2 + [Acquire(c)], a2 + [Acquire(c)] + [Look(c)];
    FoldThen(Step, INIT, a2, Acquire(c));
    FoldThen(Step, INIT, a3, Look(c));
    Enters(Run(INIT, a2), c, req);
    var a5 := a4 + [GetCart(c)];
    FoldThen(Step, INIT, a4, GetCart(c));
    FoldThen(Step, INIT, a5, Resolve(c, [r]));
    Prices(Run(INIT, a4), c, req, i, r);
    more := a5 + [Resolve(c, [r])];
  }

  /** Two orders of one user's one line: nothing cleared in between, and twice the units the cart was given. */
  lemma OrderedTwice(log: seq<Event>, u: UserId, i: CartLine, r: Resolved)
    requires r.Resolved? && log == [Committed(u, 0, [LineOf(i, r)]), Committed(u, 1, [LineOf(i, r)])]
    ensures !Alternates(log, u) && Bought(log)[Unit(u, i.productId, i.variantId)] == 2 * i.quantity
  {
    var l := LineOf(i, r);
    assert [l][..0] == [] && log[..1] == [log[0]] && log[..1][..0] == [];
    assert OrderUnits(u, [l])[Unit(u, i.productId, i.variantId)] == i.quantity;
    BoughtAfter([], log[0]);
    BoughtAfter([log[0]], log[1]);
    assert log == [log[0]] + [log[1]] && [log[0]] == [] + [log[0]];
  }

  function Filled(u: UserId, i: CartLine): State {
    INIT.(carts := map[u := [i]], added := multiset{}[Unit(u, i.productId, i.variantId) := i.quantity])
  }

  lemma Fills(u: UserId, i: CartLine) returns (acts: seq<Action>)
    ensures Run(INIT, acts) == Filled(u, i)
  {
    FoldThen(Step, INIT, [], EditCart(u, [i]));
    acts := [] + [EditCart(u, [i])];
  }

  /** The run orders one line of a cart twice. */
  ghost predicate TwiceOrdered(s: State, u: UserId, i: CartLine) {
    var x := Unit(u, i.productId, i.variantId);
    !Alternates(s.log, u) && Bought(s.log)[x] == 2 * i.quantity && s.added[x] == i.quantity
  }

  /** Call 0 is about to commit the cart's one line. */
  function OneReady(u: UserId, k: Key, i: CartLine, r: Resolved): State
    requires r.Resolved?
  {
    Filled(u, i).(calls := map[0 := Committing(Request(u, Cod, k), [LineOf(i, r)])], locks := {u})
  }

  lemma ReachesOne(u: UserId, k: Key, i: CartLine, r: Resolved) returns (acts: seq<Action>)
    requires r.Resolved? && r.isActive
    ensures Run(INIT, acts) == OneReady(u, k, i, r)
  {
    var filled := Fills(u, i);
    acts := ReachesCommit(filled, 0, Request(u, Cod, k), i, r);
    assert Run(INIT, acts).calls == map[0 := Committing(Request(u, Cod, k), [LineOf(i, r)])];
    assert {} + {u} == {u};
  }

  /** The first order is in the log, and call 1 of the same user is about to commit the same line under key l. */
  ghost predicate SecondReady(s: State, u: UserId, l: Key, i: CartLine, r: Resolved)
  {
    && r.Resolved? && s.log == [Committed(u, 0, [LineOf(i, r)])] && s.added == Filled(u, i).added
    && 1 in s.calls && s.calls[1] == Committing(Request(u, Cod, l), [LineOf(i, r)])
    && 1 !in s.db.orders && l !in s.db.idem
  }

  lemma {:induction false} SecondCommit(acts: seq<Action>, u: UserId, l: Key, i: CartLine,
      r: Resolved) returns (more: seq<Action>)
    requires SecondReady(Run(INIT, acts), u, l, i, r)
    ensures TwiceOrdered(Run(INIT, more), u, i)
  {
    FoldThen(Step, INIT, acts, Commit(1, 1));
    more := acts + [Commit(1, 1)];
    OrderedTwice(Run(INIT, more).log, u, i, r);
  }

  /** Calls 0 and 1 are both about to commit the same line. */
  ghost predicate BothReady(s: State, u: UserId, k: Key, l: Key, i: CartLine, r: Resolved) {
    && r.Resolved? && s.log == [] && s.db == EMPTY && s.added == Filled(u, i).added && s.calls.Keys == {0, 1}
    && s.calls[0] == Committing(Request(u, Cod, k), [LineOf(i, r)])
    && s.calls[1] == Committing(Request(u, Cod, l), [LineOf(i, r)])
  }

  lemma FirstOfTwo(s: State, u: UserId, k: Key, l: Key, i: CartLine, r: Resolved)
    requires k != l && BothReady(s, u, k, l, i, r)
    ensures SecondReady(Step(s, Commit(0, 0)), u, l, i, r)
  {}

  /** A lock that lapses lets a second call read the cart before the first clears it. */
  lemma {:induction false} LapsedLockOrdersTwice(u: UserId, k: Key, l: Key, i: CartLine,
      r: Resolved) returns (acts: seq<Action>)
    requires k != l && r.Resolved? && r.isActive
    ensures TwiceOrdered(Run(INIT, acts), u, i)
  {
    var one := ReachesOne(u, k, i, r);
    FoldThen(Step, INIT, one, LockExpires(u));
    var two := ReachesCommit(one + [LockExpires(u)], 1, Request(u, Cod, l), i, r);
    assert BothReady(Run(INIT, two), u, k, l, i, r);
    FoldThen(Step, INIT, two, Commit(0, 0));
    FirstOfTwo(Run(INIT, two), u, k, l, i, r);
    acts := SecondCommit(two + [Commit(0, 0)], u, l, i, r);
  }

  /** A clear that throws leaves the cart to be ordered again under another key. */
  lemma {:induction false} FailedClearOrdersTwice(u: UserId, k: Key, l: Key, i: CartLine,
      r: Resolved) returns (acts: seq<Action>)
    requires k != l && r.Resolved? && r.isActive
    ensures TwiceOrdered(Run(INIT, acts), u, i)
  {
    var one := ReachesOne(u, k, i, r);
    FoldThen(Step, INIT, one, Commit(0, 0));
    var first := one + [Commit(0, 0)];
    FoldThen(Step, INIT, first, CallThrows(0));
    FirstOrder(u, k, i, r);
    ClearThrows(Run(INIT, first), u, k, i, r);
    acts := OrdersOnceMore(first + [CallThrows(0)], u, k, l, i, r);
  }

  /** So does a commit whose answer is lost: its caller is told that it failed. */
  lemma {:induction false} UnheardCommitOrdersTwice(u: UserId, k: Key, l: Key, i: CartLine,
      r: Resolved) returns (acts: seq<Action>)
    requires k != l && r.Resolved? && r.isActive
    ensures TwiceOrdered(Run(INIT, acts), u, i)
  {
    var one := ReachesOne(u, k, i, r);
    FoldThen(Step, INIT, one, CommitUnheard(0, 0));
    acts := OrdersOnceMore(one + [CommitUnheard(0, 0)], u, k, l, i, r);
  }

  /** Call 0 committed its order under key k, the cart still as it was. */
  ghost predicate Ordered(s: State, u: UserId, k: Key, i: CartLine, r: Resolved) {
    && r.Resolved? && s.log == [Committed(u, 0, [LineOf(i, r)])] && s.added == Filled(u, i).added
    && CartOf(s, u) == [i] && s.leaked == {} && s.db.orders.Keys == {0} && s.db.idem.Keys == {k}
    && s.calls.Keys == {0} && s.calls[0].req == Request(u, Cod, k)
  }

  /** And it is about to release without having cleared the cart. */
  ghost predicate LeftCart(s: State, u: UserId, k: Key, i: CartLine, r: Resolved) {
    Ordered(s, u, k, i, r) && s.calls[0].Releasing?
  }

  lemma FirstOrder(u: UserId, k: Key, i: CartLine, r: Resolved)
    requires r.Resolved?
    ensures var s := Step(OneReady(u, k, i, r), Commit(0, 0)); Ordered(s, u, k, i, r) && s.calls[0].Clearing?
  {}

  lemma ClearThrows(s: State, u: UserId, k: Key, i: CartLine, r: Resolved)
    requires Ordered(s, u, k, i, r) && s.calls[0].Clearing?
    ensures LeftCart(Step(s, CallThrows(0)), u, k, i, r)
  {}

  lemma {:induction false} OrdersOnceMore(left: seq<Action>, u: UserId, k: Key, l: Key, i: CartLine,
      r: Resolved) returns (acts: seq<Action>)
    requires k != l && r.Resolved? && r.isActive && LeftCart(Run(INIT, left), u, k, i, r)
    ensures TwiceOrdered(Run(INIT, acts), u, i)
  {
    FoldThen(Step, INIT, left, Release(0));
    var again := ReachesCommit(left + [Release(0)], 1, Request(u, Cod, l), i, r);
    acts := SecondCommit(again, u, l, i, r);
  }
}
