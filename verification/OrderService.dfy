/**
  The order service run call by call: placeOrder, cancelOrder and finalizeOrder
  over the repository, the cart gateway, the in-memory checkout lock and the
  event publisher.
*/
module OrderServices {
  import opened OrderModel
  import opened Common
  import opened OrderRepositories
  import opened Money
  import opened Text
  import Checkout

  class CartGateway {
    var carts: map<UserId, seq<Checkout.CartLine>>

    constructor ()
      ensures carts == map[]
    {
      carts := map[];
    }

    method GetCart(u: UserId) returns (items: seq<Checkout.CartLine>)
      ensures items == if u in carts then carts[u] else []
    {
      items := if u in carts then carts[u] else [];
    }

    method ClearCart(u: UserId)
      modifies this
      ensures carts == old(carts)[u := []]
    {
      carts := carts[u := []];
    }
  }

  class InMemoryCheckoutLock {
    var locks: set<UserId>

    constructor ()
      ensures locks == {}
    {
      locks := {};
    }

    method Acquire(u: UserId) returns (ok: bool)
      modifies this
      ensures ok <==> u !in old(locks)
      ensures locks == old(locks) + {u}
    {
      if u in locks { return false; }
      locks := locks + {u};
      ok := true;
    }

    method Release(u: UserId)
      modifies this
      ensures locks == old(locks) - {u}
    {
      locks := locks - {u};
    }
  }

  datatype Event =
    | StatusChanged(order: OrderId, user: UserId, status: Status)
    | OrderPaid(order: OrderId, user: UserId, total: string)
    | OrderFailed(order: OrderId, user: UserId, total: string)

  class EventLog {
    var events: seq<Event>

    constructor ()
      ensures events == []
    {
      events := [];
    }

    method Publish(e: Event)
      modifies this
      ensures events == old(events) + [e]
    {
      events := events + [e];
    }
  }

  function ParsePaymentType(value: string): Result<PaymentType> {
    if value == "COD" then Ok(Cod) else if value == "Card" then Ok(Card) else Err(Invalid)
  }

  // ----- placeOrder as one call of the checkout protocol, run alone -----

  /** The call that throws, if it is reached: one of those before the release, or none. */
  datatype Throw = Never | AtLook | AtAcquire | AtSecondLook | AtCart | AtResolve | AtCommit | AtClear

  /** What the surroundings answer one placeOrder call. */
  datatype World = World(answers: seq<Checkout.Resolved>, id: OrderId, throw: Throw, releaseThrows: bool)

  function Do(w: World, here: Throw, a: Checkout.Action): Checkout.Action {
    if w.throw == here then Checkout.CallThrows(0) else a
  }

  function Looked(s: Checkout.State, req: Checkout.Request, w: World): Checkout.State {
    Checkout.Step(Checkout.Step(s, Checkout.Arrive(0, req)), Do(w, AtLook, Checkout.Look(0)))
  }

  function Locked(s: Checkout.State, req: Checkout.Request, w: World): Checkout.State {
    Checkout.Step(Looked(s, req, w), Do(w, AtAcquire, Checkout.Acquire(0)))
  }

  function Entered(s: Checkout.State, req: Checkout.Request, w: World): Checkout.State {
    Checkout.Step(Locked(s, req, w), Do(w, AtSecondLook, Checkout.Look(0)))
  }

  function Fetched(s: Checkout.State, req: Checkout.Request, w: World): Checkout.State {
    Checkout.Step(Entered(s, req, w), Do(w, AtCart, Checkout.GetCart(0)))
  }

  function Priced(s: Checkout.State, req: Checkout.Request, w: World): Checkout.State {
    Checkout.Step(Fetched(s, req, w), Do(w, AtResolve, Checkout.Resolve(0, w.answers)))
  }

  function Written(s: Checkout.State, req: Checkout.Request, w: World): Checkout.State {
    Checkout.Step(Priced(s, req, w), Do(w, AtCommit, Checkout.Commit(0, w.id)))
  }

  function Stored(s: Checkout.State, req: Checkout.Request, w: World): Checkout.State {
    Checkout.Step(Written(s, req, w), Do(w, AtClear, Checkout.Clear(0)))
  }

  /** The schedule in which call 0 makes all its calls one after another. */
  function Solo(s: Checkout.State, req: Checkout.Request, w: World): Checkout.State {
    Checkout.Step(Stored(s, req, w), if w.releaseThrows then Checkout.ReleaseFails(0) else Checkout.Release(0))
  }

  /** Call 0 has returned, or only its release is left. */
  predicate Over(s: Checkout.State) {
    0 in s.calls && (s.calls[0].Finished? || s.calls[0].Releasing?)
  }

  /** A call that is over ignores every action but its release. */
  lemma OverStays(s: Checkout.State, a: Checkout.Action)
    requires Over(s) && (a.Look? || a.Acquire? || a.GetCart? || a.Resolve? || a.Commit? || a.Clear? || a.CallThrows?)
    requires a.call == 0
    ensures Checkout.Step(s, a) == s
  {}

  lemma OverAfterWrite(s: Checkout.State, req: Checkout.Request, w: World)
    requires Over(Written(s, req, w))
    ensures Stored(s, req, w) == Written(s, req, w)
  {
    OverStays(Written(s, req, w), Do(w, AtClear, Checkout.Clear(0)));
  }

  lemma {:induction false} OverAfterPrice(s: Checkout.State, req: Checkout.Request, w: World)
    requires Over(Priced(s, req, w))
    ensures Stored(s, req, w) == Priced(s, req, w)
  {
    OverStays(Priced(s, req, w), Do(w, AtCommit, Checkout.Commit(0, w.id)));
    OverAfterWrite(s, req, w);
  }

  lemma {:induction false} OverAfterFetch(s: Checkout.State, req: Checkout.Request, w: World)
    requires Over(Fetched(s, req, w))
    ensures Stored(s, req, w) == Fetched(s, req, w)
  {
    OverStays(Fetched(s, req, w), Do(w, AtResolve, Checkout.Resolve(0, w.answers)));
    OverAfterPrice(s, req, w);
  }

  lemma {:induction false} OverAfterEntry(s: Checkout.State, req: Checkout.Request, w: World)
    requires Over(Entered(s, req, w))
    ensures Stored(s, req, w) == Entered(s, req, w)
  {
    OverStays(Entered(s, req, w), Do(w, AtCart, Checkout.GetCart(0)));
    OverAfterFetch(s, req, w);
  }

  lemma {:induction false} OverAfterLock(s: Checkout.State, req: Checkout.Request, w: World)
    requires Over(Locked(s, req, w))
    ensures Stored(s, req, w) == Locked(s, req, w)
  {
    OverStays(Locked(s, req, w), Do(w, AtSecondLook, Checkout.Look(0)));
    OverAfterEntry(s, req, w);
  }

  lemma {:induction false} OverAfterLook(s: Checkout.State, req: Checkout.Request, w: World)
    requires Over(Looked(s, req, w))
    ensures Stored(s, req, w) == Looked(s, req, w)
  {
    OverStays(Looked(s, req, w), Do(w, AtAcquire, Checkout.Acquire(0)));
    OverAfterLock(s, req, w);
  }

  /** Two states with the same tables, locks and carts. */
  predicate Same(s: Checkout.State, t: Checkout.State) {
    s.db == t.db && s.locks == t.locks && s.carts == t.carts
  }

  /** After the schedule the call has this outcome and the shared state is that of after. */
  ghost predicate RanAlone(s: Checkout.State, req: Checkout.Request, w: World, after: Checkout.State,
      r: Result<PlaceResult>) {
    var t := Solo(s, req, w);
    Same(after, t) && 0 in t.calls && t.calls[0] == Checkout.Finished(req, r)
  }

  // ----- before the lock -----

  lemma ReturnedIgnoresRelease(m: Checkout.State, a: Checkout.Action)
    requires 0 in m.calls && m.calls[0].Finished? && (a == Checkout.Release(0) || a == Checkout.ReleaseFails(0))
    ensures Checkout.Step(m, a) == m
  {}

  /** The first lookup throws, or finds the key: the call ends there and changes nothing. */
  lemma {:induction false} SoloLooks(s: Checkout.State, req: Checkout.Request, w: World)
    requires 0 !in s.calls && (w.throw == AtLook || req.key in s.db.idem)
    ensures RanAlone(s, req, w, s, if w.throw == AtLook then Err(Upstream) else Ok(s.db.idem[req.key]))
  {
    var l := Looked(s, req, w);
    assert l.calls[0] == Checkout.Finished(req, if w.throw == AtLook then Err(Upstream) else Ok(s.db.idem[req.key]));
    OverAfterLook(s, req, w);
    ReturnedIgnoresRelease(l, if w.releaseThrows then Checkout.ReleaseFails(0) else Checkout.Release(0));
  }

  /** The acquire throws, or finds the user locked: the call fails, and the lock stays as it is. */
  lemma {:induction false} SoloLocked(s: Checkout.State, req: Checkout.Request, w: World)
    requires 0 !in s.calls && w.throw != AtLook && req.key !in s.db.idem
        && (w.throw == AtAcquire || req.user in s.locks)
    ensures RanAlone(s, req, w, s, Err(if w.throw == AtAcquire then Upstream else Unprocessable))
  {
    var l := Locked(s, req, w);
    assert l.calls[0] == Checkout.Finished(req, Err(if w.throw == AtAcquire then Upstream else Unprocessable));
    OverAfterLock(s, req, w);
    ReturnedIgnoresRelease(l, if w.releaseThrows then Checkout.ReleaseFails(0) else Checkout.Release(0));
  }

  // ----- inside the lock -----

  predicate GetsLock(s: Checkout.State, req: Checkout.Request, w: World) {
    0 !in s.calls && w.throw != AtLook && w.throw != AtAcquire && req.key !in s.db.idem && req.user !in s.locks
  }

  /** The state inside the lock, with call 0 about to make the call named. */
  function Inside(s: Checkout.State, req: Checkout.Request, call: Checkout.Call): Checkout.State {
    s.(calls := s.calls[0 := call], locks := s.locks + {req.user})
  }

  lemma Enters(s: Checkout.State, req: Checkout.Request, w: World)
    requires GetsLock(s, req, w)
    ensures Entered(s, req, w) == Inside(s, req,
      if w.throw == AtSecondLook then Checkout.Releasing(req, Err(Upstream)) else Checkout.GettingCart(req))
  {
    var next := if w.throw == AtSecondLook then Checkout.Releasing(req, Err(Upstream)) else Checkout.GettingCart(req);
    assert s.calls[0 := Checkout.SecondLookup(req)][0 := next] == s.calls[0 := next];
  }

  lemma Fetches(s: Checkout.State, req: Checkout.Request, w: World)
    requires GetsLock(s, req, w) && w.throw != AtSecondLook
    ensures var items := Checkout.CartOf(s, req.user);
      Fetched(s, req, w) == Inside(s, req,
        if w.throw == AtCart then Checkout.Releasing(req, Err(Upstream))
        else if items == [] then Checkout.Releasing(req, Err(Unprocessable))
        else Checkout.Resolving(req, items))
  {
    Enters(s, req, w);
    var next := Fetched(s, req, w).calls[0];
    assert s.calls[0 := Checkout.GettingCart(req)][0 := next] == s.calls[0 := next];
  }

  lemma PriceRefuses(items: seq<Checkout.CartLine>, answers: seq<Checkout.Resolved>)
    requires Checkout.Price(items, answers).Err?
    ensures Checkout.Price(items, answers).error == Unprocessable
  {}

  /** What resolving the lines, done or failed, leaves. */
  lemma Resolves(m: Checkout.State, req: Checkout.Request, items: seq<Checkout.CartLine>, w: World)
    requires 0 in m.calls && m.calls[0] == Checkout.Resolving(req, items)
    ensures var priced := Checkout.Price(items, w.answers);
      Checkout.Step(m, Do(w, AtResolve, Checkout.Resolve(0, w.answers))) == m.(calls := m.calls[0 :=
        if w.throw == AtResolve then Checkout.Releasing(req, Err(Upstream))
        else if priced.Err? then Checkout.Releasing(req, Err(Unprocessable))
        else Checkout.Committing(req, priced.value)])
  {
    if Checkout.Price(items, w.answers).Err? { PriceRefuses(items, w.answers); }
  }

  lemma PricesAll(s: Checkout.State, req: Checkout.Request, w: World)
    requires GetsLock(s, req, w) && w.throw != AtSecondLook && w.throw != AtCart
    requires Checkout.CartOf(s, req.user) != []
    ensures var priced := Checkout.Price(Checkout.CartOf(s, req.user), w.answers);
      Priced(s, req, w) == Inside(s, req,
        if w.throw == AtResolve then Checkout.Releasing(req, Err(Upstream))
        else if priced.Err? then Checkout.Releasing(req, Err(Unprocessable))
        else Checkout.Committing(req, priced.value))
  {
    var items := Checkout.CartOf(s, req.user);
    Fetches(s, req, w);
    Resolves(Fetched(s, req, w), req, items, w);
    var next := Priced(s, req, w).calls[0];
    assert s.calls[0 := Checkout.Resolving(req, items)][0 := next] == s.calls[0 := next];
  }

  /** The release, or its failure, of a call that is over inside the lock. */
  lemma Releases(m: Checkout.State, req: Checkout.Request, w: World, outcome: Result<PlaceResult>)
    requires 0 in m.calls && m.calls[0] == Checkout.Releasing(req, outcome)
    ensures var t := Checkout.Step(m, if w.releaseThrows then Checkout.ReleaseFails(0) else Checkout.Release(0));
      && t.db == m.db && t.carts == m.carts
      && t.locks == (if w.releaseThrows then m.locks else m.locks - {req.user})
      && 0 in t.calls && t.calls[0] == Checkout.Finished(req, if w.releaseThrows then Err(Upstream) else outcome)
  {}

  /** The locks after the call: the user's only if the release failed. */
  function LocksAfter(s: Checkout.State, req: Checkout.Request, w: World): set<UserId> {
    if w.releaseThrows then s.locks + {req.user} else s.locks
  }

  /** Up to the commit the call, if it fails, leaves tables and carts as they were. */
  function Refusal(items: seq<Checkout.CartLine>, w: World): (o: Option<Error>)
    ensures w.throw in {AtSecondLook, AtCart} ==> o == Some(Upstream)
  {
    if w.throw == AtSecondLook || w.throw == AtCart then Some(Upstream)
    else if items == [] then Some(Unprocessable)
    else if w.throw == AtResolve then Some(Upstream)
    else if Checkout.Price(items, w.answers).Err? then Some(Unprocessable)
    else if w.throw == AtCommit then Some(Upstream)
    else None
  }

  lemma ReleaseRestores(s: Checkout.State, req: Checkout.Request, w: World, call: Checkout.Call)
    requires req.user !in s.locks
    ensures Inside(s, req, call).locks - {req.user} == s.locks
  {}

  lemma {:induction false} SoloRefusedEarly(s: Checkout.State, req: Checkout.Request, w: World)
    requires GetsLock(s, req, w) && Refusal(Checkout.CartOf(s, req.user), w).Some?
    requires w.throw == AtSecondLook || w.throw == AtCart || Checkout.CartOf(s, req.user) == []
    ensures Stored(s, req, w) ==
      Inside(s, req, Checkout.Releasing(req, Err(Refusal(Checkout.CartOf(s, req.user), w).value)))
  {
    Enters(s, req, w);
    if w.throw == AtSecondLook {
      OverAfterEntry(s, req, w);
    } else {
      Fetches(s, req, w);
      OverAfterFetch(s, req, w);
    }
  }

  lemma SoloRefusedLate(s: Checkout.State, req: Checkout.Request, w: World)
    requires GetsLock(s, req, w) && Refusal(Checkout.CartOf(s, req.user), w).Some?
    requires w.throw != AtSecondLook && w.throw != AtCart && Checkout.CartOf(s, req.user) != []
    ensures Stored(s, req, w) ==
      Inside(s, req, Checkout.Releasing(req, Err(Refusal(Checkout.CartOf(s, req.user), w).value)))
  {
    PricesAll(s, req, w);
    var p := Priced(s, req, w);
    if Over(p) {
      OverAfterPrice(s, req, w);
    } else {
      WriteThrows(p, req, w);
      var r := Checkout.Releasing(req, Err(Upstream));
      assert s.calls[0 := p.calls[0]][0 := r] == s.calls[0 := r];
      OverAfterWrite(s, req, w);
    }
  }

  lemma WriteThrows(m: Checkout.State, req: Checkout.Request, w: World)
    requires 0 in m.calls && m.calls[0].Committing? && m.calls[0].req == req && w.throw == AtCommit
    ensures Checkout.Step(m, Do(w, AtCommit, Checkout.Commit(0, w.id)))
         == m.(calls := m.calls[0 := Checkout.Releasing(req, Err(Upstream))])
  {}

  /** An empty cart,
      an unavailable line or a call that throws before the commit leaves tables and carts as they were. */
  lemma {:induction false} SoloRefused(s: Checkout.State, req: Checkout.Request, w: World)
    requires GetsLock(s, req, w) && Refusal(Checkout.CartOf(s, req.user), w).Some?
    ensures RanAlone(s, req, w, s.(locks := LocksAfter(s, req, w)),
      Err(if w.releaseThrows then Upstream else Refusal(Checkout.CartOf(s, req.user), w).value))
  {
    var r := Err(Refusal(Checkout.CartOf(s, req.user), w).value);
    if w.throw == AtSecondLook || w.throw == AtCart || Checkout.CartOf(s, req.user) == [] {
      SoloRefusedEarly(s, req, w);
    } else {
      SoloRefusedLate(s, req, w);
    }
    Releases(Stored(s, req, w), req, w, r);
    ReleaseRestores(s, req, w, Checkout.Releasing(req, r));
  }

  /** What the transaction writes and answers. */
  function Tx(s: Checkout.State, req: Checkout.Request, w: World): (Db, PlaceResult)
    requires Checkout.Price(Checkout.CartOf(s, req.user), w.answers).Ok?
  {
    PlaceTx(s.db, Checkout.ToPlacement(req, Checkout.Price(Checkout.CartOf(s, req.user), w.answers).value), w.id)
  }

  lemma Writes(m: Checkout.State, req: Checkout.Request, lines: seq<Line>, w: World)
    requires 0 in m.calls && m.calls[0] == Checkout.Committing(req, lines)
    requires w.id !in m.db.orders && w.throw != AtCommit
    ensures var t, tx := Checkout.Step(m, Do(w, AtCommit, Checkout.Commit(0, w.id))),
        PlaceTx(m.db, Checkout.ToPlacement(req, lines), w.id);
      && t.db == tx.0 && t.locks == m.locks && t.carts == m.carts
      && 0 in t.calls && t.calls[0] == Checkout.Clearing(req, tx.1)
  {}

  lemma Commits(s: Checkout.State, req: Checkout.Request, w: World)
    requires GetsLock(s, req, w) && w.id !in s.db.orders && Refusal(Checkout.CartOf(s, req.user), w).None?
    ensures var t := Written(s, req, w);
      && t.db == Tx(s, req, w).0 && t.locks == s.locks + {req.user} && t.carts == s.carts
      && 0 in t.calls && t.calls[0] == Checkout.Clearing(req, Tx(s, req, w).1)
  {
    PricesAll(s, req, w);
    Writes(Priced(s, req, w), req, Checkout.Price(Checkout.CartOf(s, req.user), w.answers).value, w);
  }

  /** What the clear, done or failed, leaves. */
  lemma Clears(m: Checkout.State, req: Checkout.Request, w: World, res: PlaceResult)
    requires 0 in m.calls && m.calls[0] == Checkout.Clearing(req, res)
    ensures var t := Checkout.Step(m, Do(w, AtClear, Checkout.Clear(0)));
      && t.db == m.db && t.locks == m.locks
      && t.carts == (if w.throw == AtClear then m.carts else m.carts[req.user := []])
      && 0 in t.calls && t.calls[0] == Checkout.Releasing(req, if w.throw == AtClear then Err(Upstream) else Ok(res))
  {}

  /**
    From a free lock and a cart whose lines resolve the order is committed; the
    cart is emptied and the call succeeds unless the clear throws.
  */
  lemma {:induction false} SoloOrders(s: Checkout.State, req: Checkout.Request, w: World)
    requires GetsLock(s, req, w) && w.id !in s.db.orders && Refusal(Checkout.CartOf(s, req.user), w).None?
    ensures var tx := Tx(s, req, w);
      RanAlone(s, req, w,
        s.(db := tx.0, locks := LocksAfter(s, req, w),
           carts := if w.throw == AtClear then s.carts else s.carts[req.user := []]),
        if w.throw == AtClear || w.releaseThrows then Err(Upstream) else Ok(tx.1))
  {
    var tx := Tx(s, req, w);
    Commits(s, req, w);
    Clears(Written(s, req, w), req, w, tx.1);
    Releases(Stored(s, req, w), req, w, if w.throw == AtClear then Err(Upstream) else Ok(tx.1));
    ReleaseRestores(s, req, w, Checkout.Clearing(req, tx.1));
  }

  // ----- pricing line by line -----

  function Prepend(lines: seq<Line>, r: Result<seq<Line>>): Result<seq<Line>> {
    if r.Ok? then Ok(lines + r.value) else r
  }

  /** After i lines: those lines are priced, and the rest decides the outcome. */
  ghost predicate PricedUpTo(items: seq<Checkout.CartLine>, answers: seq<Checkout.Resolved>, i: nat, lines: seq<Line>) {
    && i <= |items| && i <= |answers|
    && Checkout.Price(items, answers) == Prepend(lines, Checkout.Price(items[i..], answers[i..]))
  }

  function LineFor(item: Checkout.CartLine, a: Checkout.Resolved): Line
    requires !a.Missing?
  {
    Line(item.productId, item.variantId, a.productName, a.variantLabel, a.unitPrice, item.quantity)
  }

  lemma PriceStarts(items: seq<Checkout.CartLine>, answers: seq<Checkout.Resolved>)
    ensures PricedUpTo(items, answers, 0, [])
  {
    assert items[0..] == items && answers[0..] == answers;
    var whole := Checkout.Price(items, answers);
    if whole.Ok? { assert [] + whole.value == whole.value; }
  }

  lemma PriceAdvances(items: seq<Checkout.CartLine>, answers: seq<Checkout.Resolved>, i: nat, lines: seq<Line>)
    requires PricedUpTo(items, answers, i, lines) && i < |items| && i < |answers|
    requires !answers[i].Missing? && answers[i].isActive
    ensures PricedUpTo(items, answers, i + 1, lines + [LineFor(items[i], answers[i])])
  {
    assert items[i..][1..] == items[i + 1..] && answers[i..][1..] == answers[i + 1..];
    var rest := Checkout.Price(items[i + 1..], answers[i + 1..]);
    var line := LineFor(items[i], answers[i]);
    if rest.Ok? { assert lines + ([line] + rest.value) == lines + [line] + rest.value; }
  }

  lemma PriceEnds(items: seq<Checkout.CartLine>, answers: seq<Checkout.Resolved>, lines: seq<Line>)
    requires PricedUpTo(items, answers, |items|, lines)
    ensures Checkout.Price(items, answers) == Ok(lines)
  {
    assert items[|items|..] == [];
    assert lines + [] == lines;
  }

  // ----- what a placed order holds -----

  /** The catalog has every line of the cart, and sells it. */
  ghost predicate AllSold(items: seq<Checkout.CartLine>, answers: seq<Checkout.Resolved>) {
    |items| <= |answers| && forall i :: 0 <= i < |items| ==> answers[i].Resolved? && answers[i].isActive
  }

  /** What was bought is the cart's, what it is called and costs is the catalog's. */
  ghost predicate LinesAsked(lines: seq<Line>, items: seq<Checkout.CartLine>, answers: seq<Checkout.Resolved>) {
    && AllSold(items, answers) && |lines| == |items|
    && forall i :: 0 <= i < |lines| ==>
      && lines[i].productId == items[i].productId && lines[i].variantId == items[i].variantId
      && lines[i].quantity == items[i].quantity
      && lines[i].productName == answers[i].productName && lines[i].variantLabel == answers[i].variantLabel
      && lines[i].unitPrice == answers[i].unitPrice
  }

  lemma {:induction false} PriceMeans(items: seq<Checkout.CartLine>, answers: seq<Checkout.Resolved>)
    ensures var r := Checkout.Price(items, answers);
      && (r.Ok? <==> AllSold(items, answers)) && (r.Ok? ==> LinesAsked(r.value, items, answers))
      && (r.Err? ==> r.error == Unprocessable)
  {
    if items == [] || answers == [] || answers[0].Missing? || !answers[0].isActive {
    } else {
      PriceMeans(items[1..], answers[1..]);
      var rest := Checkout.Price(items[1..], answers[1..]);
      assert items == [items[0]] + items[1..] && answers == [answers[0]] + answers[1..];
    }
  }

  /** Nothing before the clear throws, the key is new, the user not locked, and the cart can be bought as it is. */
  ghost predicate Accepts(s: Checkout.State, user: UserId, key: Key, w: World) {
    && (w.throw == Never || w.throw == AtClear) && key !in s.db.idem && user !in s.locks
    && user in s.carts && s.carts[user] != [] && AllSold(s.carts[user], w.answers)
  }

  /** A pending order of this user's cart, its total the exact sum of its lines within the stated bounds. */
  ghost predicate OrderAsked(o: Order, user: UserId, payment: PaymentType, items: seq<Checkout.CartLine>,
      answers: seq<Checkout.Resolved>) {
    && o.user == user && o.payment == payment && LinesAsked(o.lines, items, answers)
    && o.status == Pending && o.history == [Pending] && !o.softDeleted
    && (|o.lines| <= MAX_LINES && Exact(Checkout.PricedLines(o.lines)) <= MAX_TOTAL ==>
          o.total == Format2(Exact(Checkout.PricedLines(o.lines))))
  }

  /** The call stored one new order, as asked, or left the orders as they were. */
  ghost predicate Stores(s: Checkout.State, orders: map<OrderId, Order>, req: Checkout.Request, w: World) {
    if Accepts(s, req.user, req.key, w) then
      orders.Keys == s.db.orders.Keys + {w.id} && orders - {w.id} == s.db.orders
      && OrderAsked(orders[w.id], req.user, req.payment, s.carts[req.user], w.answers)
    else orders == s.db.orders
  }

  lemma RefusalMeans(s: Checkout.State, req: Checkout.Request, w: World)
    requires GetsLock(s, req, w)
    ensures Refusal(Checkout.CartOf(s, req.user), w).None? <==> Accepts(s, req.user, req.key, w)
    ensures Refusal(Checkout.CartOf(s, req.user), w) != Some(Invalid)
  {
    PriceMeans(Checkout.CartOf(s, req.user), w.answers);
  }

  lemma {:induction false} AcceptedStores(s: Checkout.State, req: Checkout.Request, w: World)
    requires GetsLock(s, req, w) && w.id !in s.db.orders && Refusal(Checkout.CartOf(s, req.user), w).None?
    ensures Stores(s, Tx(s, req, w).0.orders, req, w)
  {
    var items := Checkout.CartOf(s, req.user);
    PriceMeans(items, w.answers);
    RefusalMeans(s, req, w);
    var lines := Checkout.Price(items, w.answers).value;
    if |lines| <= MAX_LINES && Exact(Checkout.PricedLines(lines)) <= MAX_TOTAL {
      Binary64IsNearest();
      TotalIsExact(BINARY64, Checkout.PricedLines(lines));
    }
  }

  /** What the schedule in which the call runs alone stores, and that it never answers bad input. */
  lemma {:induction false} SoloStores(s: Checkout.State, req: Checkout.Request, w: World, after: Checkout.State,
      r: Result<PlaceResult>)
    requires 0 !in s.calls && w.id !in s.db.orders && RanAlone(s, req, w, after, r)
    ensures Stores(s, after.db.orders, req, w) && r != Err(Invalid)
    ensures Accepts(s, req.user, req.key, w) && r.Ok? ==> r.value.order == w.id
  {
    if w.throw == AtLook || req.key in s.db.idem {
      SoloLooks(s, req, w);
    } else if w.throw == AtAcquire || req.user in s.locks {
      SoloLocked(s, req, w);
    } else {
      RefusalMeans(s, req, w);
      if Refusal(Checkout.CartOf(s, req.user), w).Some? {
        SoloRefused(s, req, w);
      } else {
        SoloOrders(s, req, w);
        AcceptedStores(s, req, w);
      }
    }
  }

  // ----- the service -----

  class OrderService {
    const orders: OrderRepository
    const cart: CartGateway
    const lock: InMemoryCheckoutLock
    const events: EventLog

    constructor (orders: OrderRepository, cart: CartGateway, lock: InMemoryCheckoutLock, events: EventLog)
      ensures this.orders == orders && this.cart == cart && this.lock == lock && this.events == events
    {
      this.orders, this.cart, this.lock, this.events := orders, cart, lock, events;
    }

    /** The shared state, as the checkout protocol sees it. */
    function View(): Checkout.State
      reads orders, cart, lock
    {
      Checkout.State(orders.View(), map[], lock.locks, {}, cart.carts, [], multiset{})
    }

    /** Prices the cart line by line and adds up the total; answers are the catalog's, in order. */
    method PriceCart(items: seq<Checkout.CartLine>, answers: seq<Checkout.Resolved>)
      returns (r: Result<seq<Line>>, total: real)
      ensures r == Checkout.Price(items, answers)
      ensures r.Ok? ==> total == FloatSum(BINARY64, Checkout.PricedLines(r.value))
    {
      var lines := [];
      total := 0.0;
      var i := 0;
      PriceStarts(items, answers);
      while i < |items|
        invariant 0 <= i <= |items| && i <= |answers| && |lines| == i
        invariant PricedUpTo(items, answers, i, lines)
        invariant total == FloatSum(BINARY64, Checkout.PricedLines(lines))
      {
        var item := items[i];
        if i >= |answers| || answers[i].Missing? || !answers[i].isActive {
          return Err(Unprocessable), total;
        }
        var line := Line(item.productId, item.variantId, answers[i].productName, answers[i].variantLabel,
                         answers[i].unitPrice, item.quantity);
        PriceAdvances(items, answers, i, lines);
        OneMoreLine(lines, line);
        lines := lines + [line];
        total := BINARY64(total + FloatLine(BINARY64, Money.Priced(line.unitPrice, line.quantity)));
        i := i + 1;
      }
      PriceEnds(items, answers, lines);
      r := Ok(lines);
    }

    /** The try block of placeOrder: look again, read and price the cart, commit, clear; one of them may throw. */
    method PlaceLocked(req: Checkout.Request, w: World) returns (r: Result<PlaceResult>)
      requires w.id !in orders.orders
      modifies orders, cart
      ensures req.key in old(orders.idempotency) && w.throw != AtSecondLook ==>
        r == Ok(old(orders.idempotency)[req.key]) && orders.View() == old(orders.View())
            && cart.carts == old(cart.carts)
      ensures var why := Refusal(Checkout.CartOf(old(View()), req.user), w);
        why.Some? && (req.key !in old(orders.idempotency) || w.throw == AtSecondLook) ==>
        r == Err(why.value) && orders.View() == old(orders.View()) && cart.carts == old(cart.carts)
      ensures Refusal(Checkout.CartOf(old(View()), req.user), w).None? && req.key !in old(orders.idempotency) ==>
        var tx := Tx(old(View()), req, w);
        && r == (if w.throw == AtClear then Err(Upstream) else Ok(tx.1)) && orders.View() == tx.0
        && cart.carts == if w.throw == AtClear then old(cart.carts) else old(cart.carts)[req.user := []]
    {
      if w.throw == AtSecondLook { return Err(Upstream); }
      var again, stored := orders.FindIdempotency(req.key);
      if again {
        return Ok(stored);
      }
      if w.throw == AtCart { return Err(Upstream); }
      var items := cart.GetCart(req.user);
      if |items| == 0 {
        return Err(Unprocessable);
      }
      r := OrderCart(req, items, w);
    }

    /** The rest of the try block, for a cart with lines: price them, commit, clear. */
    method OrderCart(req: Checkout.Request, items: seq<Checkout.CartLine>, w: World) returns (r: Result<PlaceResult>)
      requires w.id !in orders.orders && req.key !in orders.idempotency
      requires items != [] && items == Checkout.CartOf(View(), req.user) && w.throw != AtSecondLook && w.throw != AtCart
      modifies orders, cart
      ensures var why := Refusal(items, w);
        why.Some? ==> r == Err(why.value) && orders.View() == old(orders.View()) && cart.carts == old(cart.carts)
      ensures Refusal(items, w).None? ==>
        var tx := Tx(old(View()), req, w);
        && r == (if w.throw == AtClear then Err(Upstream) else Ok(tx.1)) && orders.View() == tx.0
        && cart.carts == if w.throw == AtClear then old(cart.carts) else old(cart.carts)[req.user := []]
    {
      ghost var s := View();
      if w.throw == AtResolve { return Err(Upstream); }
      var priced, total := PriceCart(items, w.answers);
      if priced.Err? {
        PriceRefuses(items, w.answers);
        return Err(priced.error);
      }
      if w.throw == AtCommit { return Err(Upstream); }
      assert Refusal(items, w).None?;
      var p := Placement(req.user, req.payment, req.key, priced.value, Format2(ToFixed2(total)));
      assert p == Checkout.ToPlacement(req, priced.value);
      var res := orders.PlaceOrder(p, w.id);
      assert (orders.View(), res) == Tx(s, req, w);
      if w.throw == AtClear { return Err(Upstream); }
      cart.ClearCart(req.user);
      r := Ok(res);
    }

    /**
      placeOrder with no other call in flight, in a world that gives the catalog's
      answers, the UUID the transaction draws and the call that throws, if any.
      Bad input is refused before any call; otherwise the outcome, the tables,
      the locks and the carts are those of the protocol's schedule in which this
      call runs alone.
    */
    method PlaceOrder(user: UserId, paymentType: string, key: Key, w: World) returns (r: Result<PlaceResult>)
      requires w.id !in orders.orders
      modifies orders, cart, lock
      ensures r == Err(Invalid) <==> Blank(user) || Blank(key) || (paymentType != "COD" && paymentType != "Card")
      ensures r == Err(Invalid) ==> Same(View(), old(View()))
      ensures r != Err(Invalid) ==>
        var req := Checkout.Request(user, if paymentType == "COD" then Cod else Card, key);
        RanAlone(old(View()), req, w, View(), r) && Stores(old(View()), orders.orders, req, w)
      ensures r.Ok? && Accepts(old(View()), user, key, w) ==> r.value.order == w.id
    {
      if Blank(user) { return Err(Invalid); }
      if Blank(key) { return Err(Invalid); }
      var payment := ParsePaymentType(paymentType);
      if payment.Err? { return Err(Invalid); }
      var req := Checkout.Request(user, payment.value, key);
      ghost var s := View();
      r := PlaceValid(req, w);
      SoloStores(s, req, w, View(), r);
    }

    /** placeOrder from its first lookup on. */
    method PlaceValid(req: Checkout.Request, w: World) returns (r: Result<PlaceResult>)
      requires w.id !in orders.orders
      modifies orders, cart, lock
      ensures RanAlone(old(View()), req, w, View(), r)
    {
      ghost var s := View();
      if w.throw == AtLook {
        SoloLooks(s, req, w);
        return Err(Upstream);
      }
      var existing, stored := orders.FindIdempotency(req.key);
      if existing {
        SoloLooks(s, req, w);
        return Ok(stored);
      }
      if w.throw == AtAcquire {
        SoloLocked(s, req, w);
        return Err(Upstream);
      }
      var locked := lock.Acquire(req.user);
      if !locked {
        assert lock.locks == s.locks;
        SoloLocked(s, req, w);
        return Err(Unprocessable);
      }
      r := PlaceLocked(req, w);
      if w.releaseThrows {
        r := Err(Upstream);
      } else {
        lock.Release(req.user);
      }
      assert lock.locks == LocksAfter(s, req, w);
      if Refusal(Checkout.CartOf(s, req.user), w).Some? { SoloRefused(s, req, w); } else { SoloOrders(s, req, w); }
    }

    /**
      cancelOrder: who may cancel what, and what is announced.  A customer
      cancels only their own visible pending order; an admin any order, and
      cancelling a cancelled one again changes and announces nothing.
    */
    method CancelOrder(id: OrderId, user: UserId, asAdmin: bool) returns (r: Result<Order>)
      modifies orders, events
      ensures r.Err? ==> orders.View() == old(orders.View()) && events.events == old(events.events)
      ensures r.Ok? <==> id in old(orders.orders) && CancelAllowed(old(orders.orders)[id], user, asAdmin)
      ensures r == Err(NotFound) <==>
        id !in old(orders.orders) || (old(orders.orders)[id].softDeleted && !asAdmin)
      ensures r == Err(Forbidden) <==>
        id in old(orders.orders) && !asAdmin && !old(orders.orders)[id].softDeleted
            && old(orders.orders)[id].user != user
      ensures r.Err? ==> r.error in {NotFound, Forbidden, Unprocessable}
      ensures r.Ok? && old(orders.orders)[id].status == Cancelled ==>
        r.value == old(orders.orders)[id] && orders.View() == old(orders.View()) && events.events == old(events.events)
      ensures r.Ok? && old(orders.orders)[id].status != Cancelled ==>
        && (orders.View(), r) == CancelTx(old(orders.View()), id, asAdmin)
        && r.value.status == Cancelled && r.value.softDeleted == (asAdmin || old(orders.orders)[id].softDeleted)
        && events.events == old(events.events) + [StatusChanged(id, r.value.user, Cancelled)]
    {
      var found := orders.FindById(id);
      if found.Err? || (found.value.softDeleted && !asAdmin) {
        return Err(NotFound);
      }
      var order := found.value;
      if !asAdmin && order.user != user {
        return Err(Forbidden);
      }
      if !asAdmin && order.status != Pending {
        return Err(Unprocessable);
      }
      if order.status == Cancelled {
        return Ok(order);
      }
      r := orders.Cancel(id, asAdmin);
      events.Publish(StatusChanged(id, r.value.user, Cancelled));
    }

    /** finalizeOrder run as one atomic call. */
    method FinalizeOrder(id: OrderId)
      modifies orders, events
      ensures (orders.View(), events.events) == Finalize(old(orders.View()), old(events.events), id)
      ensures IsPending(old(orders.View()), id) ==>
        var o := old(orders.orders)[id];
        id in orders.orders && SettledAs(o, orders.orders[id], events.events[|old(events.events)|..], id)
      ensures !IsPending(old(orders.View()), id) ==>
        orders.View() == old(orders.View()) && events.events == old(events.events)
    {
      FinalizeMeans(orders.View(), events.events, id);
      var found := orders.FindById(id);
      if found.Err? || found.value.status != Pending {
        return;
      }
      var order := found.value;
      var paid := Charge(order.payment, order.total);
      var status := if paid then Paid else Failed;
      var updated := orders.MarkStatus(id, status);
      events.Publish(StatusChanged(id, updated.value.user, status));
      if status == Paid {
        events.Publish(OrderPaid(id, updated.value.user, updated.value.total));
      } else {
        events.Publish(OrderFailed(id, updated.value.user, updated.value.total));
      }
      assert events.events == old(events.events) + [StatusChanged(id, order.user, status), Verdict(id, order)];
    }

    /** CodPaymentProvider.charge. */
    method Charge(payment: PaymentType, total: string) returns (paid: bool)
      ensures paid <==> ChargeSucceeds(payment, total)
    {
      if payment == Cod {
        return true;
      }
      if EndsWith(total, ".13") {
        return false;
      }
      paid := true;
    }
  }

  lemma OneMoreLine(lines: seq<Line>, line: Line)
    ensures FloatSum(BINARY64, Checkout.PricedLines(lines + [line]))
         == BINARY64(FloatSum(BINARY64, Checkout.PricedLines(lines))
             + FloatLine(BINARY64, Money.Priced(line.unitPrice, line.quantity)))
  {
    var a, b := Checkout.PricedLines(lines), Checkout.PricedLines(lines + [line]);
    assert FloatLines(BINARY64, b)[..|lines|] == FloatLines(BINARY64, a);
  }

  predicate CancelAllowed(o: Order, user: UserId, asAdmin: bool) {
    asAdmin || (!o.softDeleted && o.user == user && o.status == Pending)
  }

  // ----- one order finalized -----

  /** A card payment whose total ends in .13 is declined. */
  predicate Declined(o: Order) {
    o.payment == Card && |o.total| >= 3 && o.total[|o.total| - 3..] == ".13"
  }

  /** The row settled by its own payment, and the two events that say so, in this order. */
  predicate SettledAs(o: Order, o': Order, added: seq<Event>, id: OrderId) {
    && o'.status == (if Declined(o) then Failed else Paid) && o'.history == o.history + [o'.status]
    && o' == o.(status := o'.status, history := o'.history)
    && added == [StatusChanged(id, o'.user, o'.status),
                 if o'.status == Paid then OrderPaid(id, o'.user, o'.total) else OrderFailed(id, o'.user, o'.total)]
  }

  lemma FinalizeMeans(db: Db, events: seq<Event>, id: OrderId)
    ensures var (db', events') := Finalize(db, events, id);
      if IsPending(db, id) then
        |events| <= |events'| && id in db'.orders && SettledAs(db.orders[id], db'.orders[id], events'[|events|..], id)
      else db' == db && events' == events
  {
    if IsPending(db, id) { DeclinedMeans(db.orders[id]); }
  }

  lemma DeclinedMeans(o: Order)
    ensures Succeeds(o) <==> !Declined(o)
  {}

  /**
    placeOrder and then finalizeOrder, for a cart within the exact bounds: an
    order placed with "Card" fails if and only if its total is 13 modulo 100 in
    paisa, and one placed with "COD" is paid.
  */
  method PlaceThenFinalize(service: OrderService, user: UserId, paymentType: string, key: Key, w: World)
    requires w.id !in service.orders.orders && !Blank(user) && !Blank(key) && paymentType in {"COD", "Card"}
    requires Accepts(service.View(), user, key, w)
    modifies service.orders, service.cart, service.lock, service.events
    ensures w.id in service.orders.orders
    ensures var o := service.orders.orders[w.id];
      && (o.status == Paid || o.status == Failed) && (paymentType == "COD" ==> o.status == Paid)
      && (paymentType == "Card" && |o.lines| <= MAX_LINES && Exact(Checkout.PricedLines(o.lines)) <= MAX_TOTAL ==>
            (o.status == Failed <==> Exact(Checkout.PricedLines(o.lines)) % 100 == 13))
  {
    ghost var items := service.cart.carts[user];
    var _ := service.PlaceOrder(user, paymentType, key, w);
    ghost var o := service.orders.orders[w.id];
    service.FinalizeOrder(w.id);
    if |o.lines| <= MAX_LINES && Exact(Checkout.PricedLines(o.lines)) <= MAX_TOTAL {
      EndsInThirteen(Exact(Checkout.PricedLines(o.lines)));
    }
  }

  // ----- confluence of finalization -----

  function Verdict(id: OrderId, o: Order): Event {
    if Succeeds(o) then OrderPaid(id, o.user, o.total) else OrderFailed(id, o.user, o.total)
  }

  /** One whole finalizeOrder call. */
  function Finalize(db: Db, events: seq<Event>, id: OrderId): (Db, seq<Event>) {
    if !IsPending(db, id) then (db, events)
    else
      var o := db.orders[id];
      (MarkTx(db, id, Settlement(Succeeds(o))).0,
       events + [StatusChanged(id, o.user, Settlement(Succeeds(o))), Verdict(id, o)])
  }

  /** The finalizer consuming messages one after another, duplicates and all. */
  function Consume(db: Db, events: seq<Event>, ids: seq<OrderId>): (Db, seq<Event>) {
    if ids == [] then (db, events)
    else
      var (d, e) := Consume(db, events, ids[..|ids| - 1]);
      Finalize(d, e, ids[|ids| - 1])
  }

  /** The row after some message for it was consumed, or none. */
  function Settled(o: Order, consumed: bool): Order {
    if consumed && o.status == Pending then Append(o, Settlement(Succeeds(o))) else o
  }

  predicate IsVerdict(e: Event, id: OrderId) {
    !e.StatusChanged? && e.order == id
  }

  function Verdicts(events: seq<Event>, id: OrderId): nat {
    if events == [] then 0
    else Verdicts(events[..|events| - 1], id) + (if IsVerdict(events[|events| - 1], id) then 1 else 0)
  }

  /** The order table depends only on which ids were consumed, not on order or duplicates. */
  lemma {:induction false} FinalizationIsConfluent(db: Db, events: seq<Event>, ids: seq<OrderId>)
    ensures Consume(db, events, ids).0
         == db.(orders := map id | id in db.orders :: Settled(db.orders[id], id in ids))
  {
    if ids == [] {
      assert db.orders == map id | id in db.orders :: Settled(db.orders[id], id in ids);
    } else {
      var init, last := ids[..|ids| - 1], ids[|ids| - 1];
      assert ids == init + [last];
      FinalizationIsConfluent(db, events, init);
      var d, e := Consume(db, events, init).0, Consume(db, events, init).1;
      var after := Finalize(d, e, last).0;
      forall id | id in db.orders
        ensures id in after.orders && after.orders[id] == Settled(db.orders[id], id in ids)
      {
        assert id in ids <==> id in init || id == last;
        assert d.orders[id] == Settled(db.orders[id], id in init);
      }
      assert after.orders == map id | id in db.orders :: Settled(db.orders[id], id in ids);
    }
  }

  lemma VerdictsAfter(events: seq<Event>, a: Event, b: Event, id: OrderId)
    ensures Verdicts(events + [a, b], id)
         == Verdicts(events, id) + (if IsVerdict(a, id) then 1 else 0) + (if IsVerdict(b, id) then 1 else 0)
  {
    assert (events + [a, b])[..|events| + 1] == events + [a];
    assert (events + [a])[..|events|] == events;
  }

  /** Each order gets exactly one Paid or Failed event if it was pending and consumed, else none. */
  lemma {:induction false} OneVerdictEach(db: Db, events: seq<Event>, ids: seq<OrderId>, id: OrderId)
    ensures Verdicts(Consume(db, events, ids).1, id)
         == Verdicts(events, id) + (if id in ids && IsPending(db, id) then 1 else 0)
  {
    if ids == [] {
    } else {
      var init, last := ids[..|ids| - 1], ids[|ids| - 1];
      assert ids == init + [last];
      assert id in ids <==> id in init || id == last;
      OneVerdictEach(db, events, init, id);
      FinalizationIsConfluent(db, events, init);
      var (d, e) := Consume(db, events, init);
      if IsPending(d, last) {
        var o := d.orders[last];
        VerdictsAfter(e, StatusChanged(last, o.user, Settlement(Succeeds(o))), Verdict(last, o), id);
      }
    }
  }

  /**
    The events finalizations add, taken two by two: a StatusChanged with the
    status its order's row has now, then OrderPaid if that is Paid and OrderFailed
    if it is Failed, with the row's user and total; one pair for each pending
    order consumed and no other.
  */
  lemma {:induction false} EventsAdded(db: Db, events: seq<Event>, ids: seq<OrderId>)
    returns (pairs: seq<(Event, Event)>)
    ensures Consume(db, events, ids).1 == events + InARow(pairs)
    ensures AllTell(Consume(db, events, ids).0, pairs) && OnePairEach(db, ids, pairs)
  {
    if ids == [] {
      pairs := [];
      assert events + InARow(pairs) == events;
    } else {
      var init, last := ids[..|ids| - 1], ids[|ids| - 1];
      assert ids == init + [last];
      pairs := EventsAdded(db, events, init);
      FinalizationIsConfluent(db, events, init);
      var (d, e) := Consume(db, events, init);
      assert IsPending(d, last) <==> IsPending(db, last) && last !in init;
      if IsPending(d, last) {
        var pair := PairFor(d, e, last);
        InARowThen(pairs, pair);
        OneMorePair(db, init, last, pairs, pair);
        TellsStill(d, Finalize(d, e, last).0, last, pairs, pair);
        assert events + InARow(pairs) + [pair.0, pair.1] == events + (InARow(pairs) + [pair.0, pair.1]);
        pairs := pairs + [pair];
      } else {
        SamePairs(db, init, last, pairs);
      }
    }
  }

  /** The two events one finalization adds, and that it changes no other row. */
  lemma PairFor(d: Db, e: seq<Event>, last: OrderId) returns (pair: (Event, Event))
    requires IsPending(d, last)
    ensures var (d', e') := Finalize(d, e, last);
      && e' == e + [pair.0, pair.1] && pair.0.order == last && Tells(d', pair)
      && d'.orders.Keys == d.orders.Keys && forall id :: id in d.orders && id != last ==> d'.orders[id] == d.orders[id]
  {
    var e' := Finalize(d, e, last).1;
    pair := (e'[|e|], e'[|e| + 1]);
  }

  function InARow(pairs: seq<(Event, Event)>): seq<Event> {
    if pairs == [] then [] else InARow(pairs[..|pairs| - 1]) + [pairs[|pairs| - 1].0, pairs[|pairs| - 1].1]
  }

  lemma InARowThen(pairs: seq<(Event, Event)>, pair: (Event, Event))
    ensures InARow(pairs + [pair]) == InARow(pairs) + [pair.0, pair.1]
  {
    assert (pairs + [pair])[..|pairs|] == pairs;
  }

  /** The pair tells the outcome of its order as the row has it. */
  predicate Tells(db: Db, pair: (Event, Event)) {
    && pair.0.StatusChanged? && pair.0.order in db.orders
    && var id, o := pair.0.order, db.orders[pair.0.order];
      && pair.0.user == o.user && pair.0.status == o.status
      && ((o.status == Paid && pair.1 == OrderPaid(id, o.user, o.total))
          || (o.status == Failed && pair.1 == OrderFailed(id, o.user, o.total)))
  }

  ghost predicate AllTell(db: Db, pairs: seq<(Event, Event)>) {
    forall k :: 0 <= k < |pairs| ==> Tells(db, pairs[k])
  }

  ghost predicate OnePairEach(db: Db, ids: seq<OrderId>, pairs: seq<(Event, Event)>) {
    && (forall k :: 0 <= k < |pairs| ==> pairs[k].0.order in ids && IsPending(db, pairs[k].0.order))
    && (forall j, k :: 0 <= j < k < |pairs| ==> pairs[j].0.order != pairs[k].0.order)
    && (forall id :: id in ids && IsPending(db, id) ==> HasPair(pairs, id))
  }

  ghost predicate HasPair(pairs: seq<(Event, Event)>, id: OrderId) {
    exists k :: 0 <= k < |pairs| && pairs[k].0.order == id
  }

  lemma TellsStill(d: Db, d': Db, last: OrderId, pairs: seq<(Event, Event)>, pair: (Event, Event))
    requires IsPending(d, last) && AllTell(d, pairs) && Tells(d', pair)
    requires d'.orders.Keys == d.orders.Keys && forall id :: id in d.orders && id != last ==>
      d'.orders[id] == d.orders[id]
    ensures AllTell(d', pairs + [pair])
  {
    forall k | 0 <= k < |pairs| ensures Tells(d', pairs[k]) { assert Tells(d, pairs[k]); }
  }

  lemma OneMorePair(db: Db, init: seq<OrderId>, last: OrderId, pairs: seq<(Event, Event)>, pair: (Event, Event))
    requires OnePairEach(db, init, pairs) && last !in init && IsPending(db, last) && pair.0.order == last
    ensures OnePairEach(db, init + [last], pairs + [pair])
  {
    var all := pairs + [pair];
    forall id | id in init + [last] && IsPending(db, id) ensures HasPair(all, id) {
      if id == last {
        assert all[|pairs|].0.order == id;
      } else {
        assert HasPair(pairs, id);
        var k :| 0 <= k < |pairs| && pairs[k].0.order == id;
        assert all[k].0.order == id;
      }
    }
  }

  lemma SamePairs(db: Db, init: seq<OrderId>, last: OrderId, pairs: seq<(Event, Event)>)
    requires OnePairEach(db, init, pairs) && !(IsPending(db, last) && last !in init)
    ensures OnePairEach(db, init + [last], pairs)
  {}

  /** An order fails exactly when it is paid by card and its total ends in .13. */
  lemma FailsOnThirteen(o: Order, n: nat)
    requires o.total == Format2(n)
    ensures Succeeds(o) <==> !(o.payment == Card && n % 100 == 13)
  {
    EndsInThirteen(n);
  }
}
