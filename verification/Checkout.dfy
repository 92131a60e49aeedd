/**
  Checkout as a protocol: any number of placeOrder calls in flight over the
  idempotency table, the per-user lock and the carts.  One Action is one awaited
  call, save that Resolve stands for the resolveLine calls of a whole cart, which
  touch nothing other calls see; LockExpires is the lapse of the lock's time to live.
  CallThrows is a call that fails without effect, AcquireUnheard and CommitUnheard
  are calls that take effect and then fail, their answer lost.
*/
module Checkout {
  import opened Runs
  import opened OrderModel
  import opened Common
  import opened Money

  datatype CartLine = CartLine(productId: string, variantId: string, variantLabel: string, unitPrice: nat,
      quantity: nat)

  /** What the catalog answers for one cart line. */
  datatype Resolved = Missing | Resolved(productName: string, variantLabel: string, unitPrice: nat, isActive: bool)

  datatype Request = Request(user: UserId, payment: PaymentType, key: Key)

  /** A placeOrder call, named by the call it makes next. */
  datatype Call =
    | FirstLookup(req: Request)
    | Acquiring(req: Request)
    | SecondLookup(req: Request)
    | GettingCart(req: Request)
    | Resolving(req: Request, items: seq<CartLine>)
    | Committing(req: Request, lines: seq<Line>)
    | Clearing(req: Request, res: PlaceResult)
    | Releasing(req: Request, outcome: Result<PlaceResult>)
    | Finished(req: Request, outcome: Result<PlaceResult>)
  {
    /** Between a successful acquire and the release: the try block and its finally. */
    predicate InCriticalSection() {
      !FirstLookup? && !Acquiring? && !Finished?
    }
  }

  /** One unit of one product variant in one user's hands. */
  datatype Unit = Unit(user: UserId, productId: string, variantId: string)

  datatype Event = Committed(user: UserId, order: OrderId, lines: seq<Line>) | Cleared(user: UserId)

  /**
    log lists order commits and cart clears as they happen; added holds every
    unit ever put into a cart; leaked the locks left behind: their release call
    failed, or the answer to their acquire was lost.
  */
  datatype State = State(db: Db, calls: map<nat, Call>, locks: set<UserId>, leaked: set<UserId>,
                         carts: map<UserId, seq<CartLine>>, log: seq<Event>, added: multiset<Unit>)

  const INIT := State(EMPTY, map[], {}, {}, map[], [], multiset{})

  datatype Action =
    | Arrive(call: nat, req: Request)
    | Look(call: nat)
    | Acquire(call: nat)
    | AcquireUnheard(call: nat)
    | GetCart(call: nat)
    | Resolve(call: nat, answers: seq<Resolved>)
    | Commit(call: nat, id: OrderId)
    | CommitUnheard(call: nat, id: OrderId)
    | Clear(call: nat)
    | Release(call: nat)
    | CallThrows(call: nat)
    | ReleaseFails(call: nat)
    | LockExpires(user: UserId)
    | EditCart(user: UserId, items: seq<CartLine>)
    | Other(a: DbAction)

  function CartOf(s: State, u: UserId): seq<CartLine> {
    if u in s.carts then s.carts[u] else []
  }

  // ----- pricing -----

  /** One catalog answer per cart line; any missing or inactive variant refuses the cart. */
  function Price(items: seq<CartLine>, answers: seq<Resolved>): (r: Result<seq<Line>>)
    ensures r.Ok? ==> |r.value| == |items|
    ensures r.Ok? ==> forall i :: 0 <= i < |items| ==>
      r.value[i].productId == items[i].productId && r.value[i].variantId == items[i].variantId
      && r.value[i].quantity == items[i].quantity
  {
    if items == [] then Ok([])
    else if answers == [] || answers[0].Missing? || !answers[0].isActive then Err(Unprocessable)
    else
      var rest := Price(items[1..], answers[1..]);
      if rest.Err? then rest
      else Ok([Line(items[0].productId, items[0].variantId, answers[0].productName, answers[0].variantLabel,
                    answers[0].unitPrice, items[0].quantity)] + rest.value)
  }

  function PricedLines(lines: seq<Line>): seq<Priced> {
    seq(|lines|, i requires 0 <= i < |lines| => Priced(lines[i].unitPrice, lines[i].quantity))
  }

  /** The printed binary64 total of the order's lines. */
  function TotalOf(lines: seq<Line>): string {
    Format2(ToFixed2(FloatSum(BINARY64, PricedLines(lines))))
  }

  function ToPlacement(req: Request, lines: seq<Line>): Placement {
    Placement(req.user, req.payment, req.key, lines, TotalOf(lines))
  }

  // ----- steps -----

  function At(s: State, c: nat, next: Call): State {
    s.(calls := s.calls[c := next])
  }

  function LookStep(s: State, c: nat, call: Call): State {
    var hit := call.req.key in s.db.idem;
    match call
    case FirstLookup(req) => At(s, c, if hit then Finished(req, Ok(s.db.idem[req.key])) else Acquiring(req))
    case SecondLookup(req) => At(s, c, if hit then Releasing(req, Ok(s.db.idem[req.key])) else GettingCart(req))
    case _ => s
  }

  function AcquireStep(s: State, c: nat, req: Request): State {
    if req.user in s.locks then At(s, c, Finished(req, Err(Unprocessable)))
    else At(s, c, SecondLookup(req)).(locks := s.locks + {req.user})
  }

  /** Unheard, the commit is done but reaches its caller as an error. */
  function CommitStep(s: State, c: nat, call: Call, id: OrderId, heard: bool): State
    requires call.Committing?
  {
    if id in s.db.orders then s
    else
      var p := ToPlacement(call.req, call.lines);
      var (db', res) := PlaceTx(s.db, p, id);
      At(s, c, if heard then Clearing(call.req, res) else Releasing(call.req, Err(Upstream))).(db := db',
        log := if p.key in s.db.idem then s.log else s.log + [Committed(p.user, id, p.lines)])
  }

  /** A throw inside the try block reaches the finally block; outside it ends the call. */
  function ThrowStep(s: State, c: nat, call: Call): State {
    if call.Finished? || call.Releasing? then s
    else if call.InCriticalSection() then At(s, c, Releasing(call.req, Err(Upstream)))
    else At(s, c, Finished(call.req, Err(Upstream)))
  }

  function CallStep(s: State, a: Action, c: nat): State
    requires c in s.calls
  {
    var call := s.calls[c];
    match a
    case Look(_) => LookStep(s, c, call)
    case Acquire(_) => if call.Acquiring? then AcquireStep(s, c, call.req) else s
    case AcquireUnheard(_) =>
      if !call.Acquiring? || call.req.user in s.locks then s
      else At(s, c, Finished(call.req, Err(Upstream))).(locks := s.locks + {call.req.user},
          leaked := s.leaked + {call.req.user})
    case GetCart(_) =>
      if !call.GettingCart? then s
      else if CartOf(s, call.req.user) == [] then At(s, c, Releasing(call.req, Err(Unprocessable)))
      else At(s, c, Resolving(call.req, CartOf(s, call.req.user)))
    case Resolve(_, answers) =>
      if !call.Resolving? then s
      else
        var r := Price(call.items, answers);
        At(s, c, if r.Ok? then Committing(call.req, r.value) else Releasing(call.req, Err(r.error)))
    case Commit(_, id) => if call.Committing? then CommitStep(s, c, call, id, true) else s
    case CommitUnheard(_, id) => if call.Committing? then CommitStep(s, c, call, id, false) else s
    case Clear(_) =>
      if !call.Clearing? then s
      else At(s, c, Releasing(call.req, Ok(call.res))).(
        carts := s.carts[call.req.user := []], log := s.log + [Cleared(call.req.user)])
    case Release(_) =>
      if !call.Releasing? then s
      else At(s, c, Finished(call.req, call.outcome)).(locks := s.locks - {call.req.user},
          leaked := s.leaked - {call.req.user})
    case ReleaseFails(_) =>
      if !call.Releasing? then s
      else At(s, c, Finished(call.req, Err(Upstream))).(leaked := s.leaked + ({call.req.user} * s.locks))
    case CallThrows(_) => ThrowStep(s, c, call)
    case _ => s
  }

  function Step(s: State, a: Action): State {
    match a
    case Arrive(c, req) => if c in s.calls then s else At(s, c, FirstLookup(req))
    case LockExpires(u) => s.(locks := s.locks - {u}, leaked := s.leaked - {u})
    case EditCart(u, items) =>
      s.(carts := s.carts[u := items], added := s.added + (Units(u, items) - Units(u, CartOf(s, u))))
    case Other(d) => if d.Place? then s else s.(db := Apply(s.db, d))
    case _ => if a.call in s.calls then CallStep(s, a, a.call) else s
  }

  function Run(s: State, acts: seq<Action>): State {
    Fold(Step, s, acts)
  }

  // ----- units -----

  /** The units a cart holds. */
  function Units(u: UserId, items: seq<CartLine>): multiset<Unit> {
    if items == [] then multiset{}
    else Units(u, items[..|items| - 1]) + multiset{}[Unit(u, items[|items| - 1].productId,
        items[|items| - 1].variantId) := items[|items| - 1].quantity]
  }

  function OrderUnits(u: UserId, lines: seq<Line>): multiset<Unit> {
    if lines == [] then multiset{}
    else OrderUnits(u, lines[..|lines| - 1]) + multiset{}[Unit(u, lines[|lines| - 1].productId,
        lines[|lines| - 1].variantId) := lines[|lines| - 1].quantity]
  }

  /** The units of all orders committed so far. */
  function Bought(log: seq<Event>): multiset<Unit> {
    if log == [] then multiset{}
    else
      var e := log[|log| - 1];
      Bought(log[..|log| - 1]) + (if e.Committed? then OrderUnits(e.user, e.lines) else multiset{})
  }

  // ----- idempotency, in every run: locks may lapse, clears may fail -----

  predicate Recorded(db: Db, key: Key, res: PlaceResult) {
    key in db.idem && db.idem[key] == res
  }

  /** A result held by a call is the one recorded under its key. */
  predicate CallOk(db: Db, call: Call) {
    && (call.Clearing? ==> Recorded(db, call.req.key, call.res))
    && (call.Releasing? && call.outcome.Ok? ==> Recorded(db, call.req.key, call.outcome.value))
    && (call.Finished? && call.outcome.Ok? ==> Recorded(db, call.req.key, call.outcome.value))
  }

  ghost predicate Idempotent(s: State) {
    Bijection(s.db) && forall c :: c in s.calls ==> CallOk(s.db, s.calls[c])
  }

  predicate Commits(a: Action) {
    a.Commit? || a.CommitUnheard?
  }

  /** The transaction a step performs on the database. */
  function Effect(s: State, a: Action): Db {
    if a.Other? then (if a.a.Place? then s.db else Apply(s.db, a.a))
    else if Commits(a) && a.call in s.calls && s.calls[a.call].Committing? then
      Apply(s.db, Place(ToPlacement(s.calls[a.call].req, s.calls[a.call].lines), a.id))
    else s.db
  }

  lemma StepEffect(s: State, a: Action)
    ensures Step(s, a).db == Effect(s, a)
  {}

  lemma {:induction false} EffectKeepsKeys(s: State, a: Action)
    requires Bijection(s.db)
    ensures Bijection(Effect(s, a)) && KeysFixed(s.db, Effect(s, a))
  {
    if a.Other? {
      StepKeepsBijection(s.db, a.a);
    } else if Commits(a) && a.call in s.calls && s.calls[a.call].Committing? {
      StepKeepsBijection(s.db, Place(ToPlacement(s.calls[a.call].req, s.calls[a.call].lines), a.id));
    }
  }

  lemma CallAfter(s: State, a: Action, c: nat)
    requires c in s.calls && CallOk(s.db, s.calls[c]) && !Commits(a)
    requires !a.Arrive? && !a.LockExpires? && !a.EditCart? && !a.Other?
    ensures c in CallStep(s, a, c).calls && CallOk(s.db, CallStep(s, a, c).calls[c])
    ensures forall d :: d in CallStep(s, a, c).calls ==>
      d == c || (d in s.calls && CallStep(s, a, c).calls[d] == s.calls[d])
  {}

  lemma CommitAfter(s: State, a: Action, c: nat)
    requires Commits(a) && a.call == c && c in s.calls && CallOk(s.db, s.calls[c])
    ensures c in CallStep(s, a, c).calls && CallOk(Effect(s, a), CallStep(s, a, c).calls[c])
    ensures forall d :: d in CallStep(s, a, c).calls ==>
      d == c || (d in s.calls && CallStep(s, a, c).calls[d] == s.calls[d])
  {
    if s.calls[c].Committing? {
      assert CallStep(s, a, c) == CommitStep(s, c, s.calls[c], a.id, a.Commit?);
    } else {
      assert CallStep(s, a, c) == s && Effect(s, a) == s.db;
    }
  }

  lemma {:induction false} StepKeepsIdempotent(s: State, a: Action)
    requires Idempotent(s)
    ensures Idempotent(Step(s, a))
  {
    var s' := Step(s, a);
    StepEffect(s, a);
    EffectKeepsKeys(s, a);
    forall c | c in s'.calls
      ensures CallOk(s'.db, s'.calls[c])
    {
      if Commits(a) {
        if a.call in s.calls { CommitAfter(s, a, a.call); }
      } else if !a.Arrive? && !a.LockExpires? && !a.EditCart? && !a.Other? {
        if a.call in s.calls { CallAfter(s, a, a.call); }
      }
    }
  }

  lemma {:induction false} AlwaysIdempotent(acts: seq<Action>)
    ensures Idempotent(Run(INIT, acts))
  {
    if acts == [] {
    } else {
      AlwaysIdempotent(acts[..|acts| - 1]);
      StepKeepsIdempotent(Run(INIT, acts[..|acts| - 1]), acts[|acts| - 1]);
    }
  }

  /**
    In every interleaving, even when a lock lapses and two callers are inside:
    two successful calls agree exactly when they used the same key.
  */
  lemma OneOrderPerKey(acts: seq<Action>, c: nat, d: nat)
    requires var calls := Run(INIT, acts).calls;
      && c in calls && calls[c].Finished? && calls[c].outcome.Ok?
      && d in calls && calls[d].Finished? && calls[d].outcome.Ok?
    ensures var calls := Run(INIT, acts).calls;
      && (calls[c].req.key == calls[d].req.key <==> calls[c].outcome == calls[d].outcome)
      && (calls[c].req.key == calls[d].req.key <==> calls[c].outcome.value.order == calls[d].outcome.value.order)
      && calls[c].outcome.value.order in Run(INIT, acts).db.orders
  {
    AlwaysIdempotent(acts);
    var s := Run(INIT, acts);
    assert CallOk(s.db, s.calls[c]) && CallOk(s.db, s.calls[d]);
  }

  lemma StepKeepsRecorded(s: State, a: Action, key: Key, res: PlaceResult)
    requires Idempotent(s) && Recorded(s.db, key, res)
    ensures Recorded(Step(s, a).db, key, res)
  {
    StepEffect(s, a);
    EffectKeepsKeys(s, a);
  }

  lemma OneMoreKeepsRecorded(acts: seq<Action>, a: Action, key: Key, res: PlaceResult)
    requires Recorded(Run(INIT, acts).db, key, res)
    ensures Recorded(Run(INIT, acts + [a]).db, key, res)
  {
    assert (acts + [a])[..|acts + [a]| - 1] == acts;
    AlwaysIdempotent(acts);
    StepKeepsRecorded(Run(INIT, acts), a, key, res);
  }

  /** A key's result never changes, whatever runs afterwards. */
  lemma {:induction false} ResultIsFixed(acts: seq<Action>, more: seq<Action>, key: Key)
    requires key in Run(INIT, acts).db.idem
    ensures Recorded(Run(INIT, acts + more).db, key, Run(INIT, acts).db.idem[key])
  {
    if more == [] {
      assert acts + more == acts;
    } else {
      var init, last := more[..|more| - 1], more[|more| - 1];
      ResultIsFixed(acts, init, key);
      assert acts + more == (acts + init) + [last];
      OneMoreKeepsRecorded(acts + init, last, key, Run(INIT, acts).db.idem[key]);
    }
  }

  // ----- the commit log and the order table, in every run -----

  predicate Logs(e: Event, db: Db) {
    e.Committed? ==> e.order in db.orders && db.orders[e.order].user == e.user && db.orders[e.order].lines == e.lines
  }

  ghost predicate InLog(log: seq<Event>, id: OrderId) {
    exists i :: 0 <= i < |log| && log[i].Committed? && log[i].order == id
  }

  /** One commit event per order, with its user and lines; totals are those of the lines. */
  ghost predicate LogIsTable(s: State) {
    LogNames(s) && TotalsRight(s.db)
  }

  ghost predicate LogNames(s: State) {
    && (forall i :: 0 <= i < |s.log| ==> Logs(s.log[i], s.db))
    && (forall i, j | 0 <= i < j < |s.log| && s.log[i].Committed?
        && s.log[j].Committed? :: s.log[i].order != s.log[j].order)
    && (forall id :: id in s.db.orders ==> InLog(s.log, id))
  }

  ghost predicate TotalsRight(db: Db) {
    forall id :: id in db.orders ==> db.orders[id].total == TotalOf(db.orders[id].lines)
  }

  /** The placed parts of the orders are the same. */
  ghost predicate SamePlaced(db: Db, db': Db) {
    && db'.orders.Keys == db.orders.Keys
    && forall id :: id in db.orders ==>
      var o, o' := db.orders[id], db'.orders[id];
      o'.user == o.user && o'.lines == o.lines && o'.total == o.total
  }

  /** Cancels, settlements and outbox marks leave the placed part of every order alone. */
  lemma OtherKeepsOrders(db: Db, d: DbAction)
    requires !d.Place?
    ensures SamePlaced(db, Apply(db, d))
  {}

  lemma NewCommitKeepsNames(s: State, s': State, p: Placement, id: OrderId)
    requires LogNames(s) && id !in s.db.orders
    requires s'.db.orders == s.db.orders[id := NewOrder(p)]
    requires s'.log == s.log + [Committed(p.user, id, p.lines)]
    ensures LogNames(s')
  {
    var n := |s.log|;
    forall i | 0 <= i < n
      ensures Logs(s'.log[i], s'.db) && (s'.log[i].Committed? ==> s'.log[i].order != id)
    {
      assert s'.log[i] == s.log[i] && Logs(s.log[i], s.db);
    }
    forall o | o in s'.db.orders ensures InLog(s'.log, o) {
      if o == id {
        assert s'.log[n].Committed? && s'.log[n].order == id;
      } else {
        var i :| 0 <= i < n && s.log[i].Committed? && s.log[i].order == o;
        assert s'.log[i] == s.log[i];
      }
    }
  }

  /** What a step adds to the log. */
  function Logged(s: State, a: Action): Option<Event> {
    if Commits(a) && a.call in s.calls && s.calls[a.call].Committing? && a.id !in s.db.orders
      && s.calls[a.call].req.key !in s.db.idem
    then Some(Committed(s.calls[a.call].req.user, a.id, s.calls[a.call].lines))
    else if a.Clear? && a.call in s.calls && s.calls[a.call].Clearing? then Some(Cleared(s.calls[a.call].req.user))
    else None
  }

  lemma {:induction false} LogAfter(s: State, a: Action)
    ensures Step(s, a).log == s.log + (if Logged(s, a).Some? then [Logged(s, a).value] else [])
  {}

  /** A commit that is logged writes its order; every other step keeps the placed part of every order. */
  lemma {:induction false} OrdersAfter(s: State, a: Action)
    ensures var e, db' := Logged(s, a), Step(s, a).db;
      if e.Some? && e.value.Committed? then
        e.value.order !in s.db.orders
        && db'.orders == s.db.orders[e.value.order := NewOrder(ToPlacement(s.calls[a.call].req, e.value.lines))]
      else
        SamePlaced(s.db, db')
  {
    StepEffect(s, a);
    if a.Other? && !a.a.Place? { OtherKeepsOrders(s.db, a.a); }
  }

  /** Nothing but perhaps a clear is logged, and no order placed. */
  lemma SameOrdersKeepNames(s: State, s': State, e: Option<Event>)
    requires LogNames(s) && SamePlaced(s.db, s'.db) && (e.Some? ==> e.value.Cleared?)
    requires s'.log == s.log + (if e.Some? then [e.value] else [])
    ensures LogNames(s')
  {
    forall i | 0 <= i < |s'.log| ensures Logs(s'.log[i], s'.db) {
      assert i < |s.log| ==> Logs(s.log[i], s.db);
    }
    forall id | id in s'.db.orders ensures InLog(s'.log, id) {
      var i :| 0 <= i < |s.log| && s.log[i].Committed? && s.log[i].order == id;
      assert s'.log[i] == s.log[i];
    }
  }

  lemma {:induction false} StepKeepsTable(s: State, a: Action)
    requires LogIsTable(s)
    ensures LogIsTable(Step(s, a))
  {
    var s' := Step(s, a);
    LogAfter(s, a);
    OrdersAfter(s, a);
    var e := Logged(s, a);
    if e.Some? && e.value.Committed? {
      NewCommitKeepsNames(s, s', ToPlacement(s.calls[a.call].req, e.value.lines), e.value.order);
    } else {
      SameOrdersKeepNames(s, s', e);
    }
  }

  lemma {:induction false} LogAlwaysTable(acts: seq<Action>)
    ensures LogIsTable(Run(INIT, acts))
  {
    if acts == [] {
    } else {
      LogAlwaysTable(acts[..|acts| - 1]);
      StepKeepsTable(Run(INIT, acts[..|acts| - 1]), acts[|acts| - 1]);
    }
  }

  /** Every order's stored total is the exact sum of its lines, printed with two digits. */
  lemma {:induction false} OrderTotalExact(acts: seq<Action>, id: OrderId)
    requires id in Run(INIT, acts).db.orders
    requires var lines := PricedLines(Run(INIT, acts).db.orders[id].lines);
      |lines| <= MAX_LINES && Exact(lines) <= MAX_TOTAL
    ensures var o := Run(INIT, acts).db.orders[id];
      o.total == Format2(Exact(PricedLines(o.lines)))
  {
    LogAlwaysTable(acts);
    Binary64IsNearest();
    TotalIsExact(BINARY64, PricedLines(Run(INIT, acts).db.orders[id].lines));
  }

  // ----- one user's lock -----

  /** Call c of user u is between a successful acquire and the release. */
  predicate InSection(s: State, c: nat, u: UserId) {
    c in s.calls && s.calls[c].InCriticalSection() && s.calls[c].req.user == u
  }

  ghost predicate Inside(s: State, u: UserId) {
    exists c :: InSection(s, c, u)
  }

  ghost predicate Exclusive(s: State, u: UserId) {
    forall c, d | InSection(s, c, u) && InSection(s, d, u) :: c == d
  }

  /** The lock's time to live runs out on a caller inside. */
  ghost predicate Lapses(s: State, a: Action, u: UserId) {
    a == LockExpires(u) && Inside(s, u)
  }

  ghost predicate LapseFree(acts: seq<Action>, u: UserId) {
    acts == [] || (LapseFree(acts[..|acts| - 1], u) && !Lapses(Run(INIT, acts[..|acts| - 1]), acts[|acts| - 1], u))
  }

  /** The user is locked while inside, or after a release that failed. */
  ghost predicate LocksExact(s: State, u: UserId) {
    && Exclusive(s, u)
    && (u in s.locks <==> Inside(s, u) || u in s.leaked)
    && (u in s.leaked ==> !Inside(s, u))
  }

  lemma SameSections(s: State, s': State, u: UserId)
    requires LocksExact(s, u)
    requires (u in s'.locks <==> u in s.locks) && (u in s'.leaked <==> u in s.leaked)
    requires forall c :: InSection(s', c, u) <==> InSection(s, c, u)
    ensures LocksExact(s', u)
  {}

  lemma EnteredSection(s: State, s': State, c: nat, u: UserId)
    requires LocksExact(s, u) && u !in s.locks && u in s'.locks && u !in s'.leaked
    requires forall d :: InSection(s', d, u) <==> d == c || InSection(s, d, u)
    ensures LocksExact(s', u)
  {
    assert InSection(s', c, u);
    forall d | InSection(s', d, u) ensures d == c {
      if d != c { assert Inside(s, u); }
    }
  }

  lemma LeftSection(s: State, s': State, c: nat, u: UserId)
    requires LocksExact(s, u) && InSection(s, c, u)
    requires u in s'.locks <==> u in s'.leaked
    requires forall d :: InSection(s', d, u) <==> d != c && InSection(s, d, u)
    ensures LocksExact(s', u)
  {}

  lemma OthersSections(s: State, a: Action, c: nat, u: UserId)
    requires c in s.calls && s.calls[c].req.user != u
    ensures var s' := CallStep(s, a, c);
      && (u in s'.locks <==> u in s.locks) && (u in s'.leaked <==> u in s.leaked)
      && forall d :: InSection(s', d, u) <==> InSection(s, d, u)
  {}

  lemma {:induction false} CallKeepsLocks(s: State, a: Action, c: nat, u: UserId)
    requires LocksExact(s, u) && c in s.calls
    ensures LocksExact(CallStep(s, a, c), u)
  {
    var s' := CallStep(s, a, c);
    if s.calls[c].req.user != u {
      OthersSections(s, a, c, u);
      SameSections(s, s', u);
    } else if a.Acquire? && s.calls[c].Acquiring? && u !in s.locks {
      EnteredSection(s, s', c, u);
    } else if a.AcquireUnheard? && s.calls[c].Acquiring? && u !in s.locks {
      assert forall d :: InSection(s', d, u) <==> InSection(s, d, u);
    } else if (a.Release? || a.ReleaseFails?) && s.calls[c].Releasing? {
      assert InSection(s, c, u) && Inside(s, u);
      LeftSection(s, s', c, u);
    } else {
      SameSections(s, s', u);
    }
  }

  lemma {:induction false} StepKeepsLocks(s: State, a: Action, u: UserId)
    requires LocksExact(s, u) && !Lapses(s, a, u)
    ensures LocksExact(Step(s, a), u)
  {
    if a.LockExpires? || a.Arrive? || a.EditCart? || a.Other? {
      var s' := Step(s, a);
      assert forall c :: InSection(s', c, u) <==> InSection(s, c, u);
      if a != LockExpires(u) { SameSections(s, s', u); }
    } else if a.call in s.calls {
      CallKeepsLocks(s, a, a.call, u);
    }
  }

  /**
    While no lock of the user lapses, at every step and on every error exit: the
    user is locked exactly while a call of theirs is inside or after a failed release.
  */
  lemma {:induction false} LockIsCriticalSection(acts: seq<Action>, u: UserId)
    requires LapseFree(acts, u)
    ensures var s := Run(INIT, acts); u in s.locks <==> Inside(s, u) || u in s.leaked
    ensures LocksExact(Run(INIT, acts), u)
  {
    if acts == [] {
    } else {
      LockIsCriticalSection(acts[..|acts| - 1], u);
      StepKeepsLocks(Run(INIT, acts[..|acts| - 1]), acts[|acts| - 1], u);
    }
  }

  // ----- a clear between any two commits of one user -----

  predicate Pends(s: State, c: nat, u: UserId) {
    c in s.calls && s.calls[c].Clearing? && s.calls[c].req.user == u
  }

  ghost predicate ClearPending(s: State, u: UserId) {
    exists c :: Pends(s, c, u)
  }

  predicate CommitOf(e: Event, u: UserId) {
    e.Committed? && e.user == u
  }

  /** The user's last commit has not been followed by a clear. */
  predicate Open(log: seq<Event>, u: UserId) {
    log != [] &&
    (if log[|log| - 1].user == u then log[|log| - 1].Committed? else Open(log[..|log| - 1], u))
  }

  /** Between any two orders of the user their cart was cleared. */
  ghost predicate Alternates(log: seq<Event>, u: UserId) {
    forall i, j | 0 <= i < j < |log| && CommitOf(log[i], u) && CommitOf(log[j], u) ::
      exists k :: i < k < j && log[k] == Cleared(u)
  }

  lemma OpenAfter(log: seq<Event>, e: Event, u: UserId)
    ensures Open(log + [e], u) <==> if e.user == u then e.Committed? else Open(log, u)
  {
    assert (log + [e])[..|log|] == log;
  }

  lemma {:induction false} ClosedMeansCleared(log: seq<Event>, u: UserId, i: nat)
    requires !Open(log, u) && i < |log| && CommitOf(log[i], u)
    ensures exists k :: i < k < |log| && log[k] == Cleared(u)
  {
    var n := |log| - 1;
    if log[n].user == u {
      assert log[n] == Cleared(u);
    } else {
      ClosedMeansCleared(log[..n], u, i);
      var k :| i < k < n && log[..n][k] == Cleared(u);
      assert log[k] == Cleared(u);
    }
  }

  /** An open log ends in a commit of the user that no clear follows. */
  lemma {:induction false} OpenCommit(log: seq<Event>, u: UserId) returns (i: nat)
    requires Open(log, u)
    ensures i < |log| && CommitOf(log[i], u)
    ensures forall k :: i < k < |log| ==> log[k] != Cleared(u)
  {
    var n := |log| - 1;
    if log[n].user == u {
      i := n;
    } else {
      i := OpenCommit(log[..n], u);
      assert forall k :: i < k < n ==> log[..n][k] == log[k];
    }
  }

  lemma PrefixAlternates(log: seq<Event>, e: Event, u: UserId)
    requires Alternates(log + [e], u)
    ensures Alternates(log, u)
  {
    var log' := log + [e];
    forall i, j | 0 <= i < j < |log| && CommitOf(log[i], u) && CommitOf(log[j], u)
      ensures exists k :: i < k < j && log[k] == Cleared(u)
    {
      assert CommitOf(log'[i], u) && CommitOf(log'[j], u);
      var k :| i < k < j && log'[k] == Cleared(u);
      assert log[k] == Cleared(u);
    }
  }

  lemma CommitAlternates(log: seq<Event>, e: Event, u: UserId)
    requires Alternates(log, u) && !(CommitOf(e, u) && Open(log, u))
    ensures Alternates(log + [e], u)
  {
    var log' := log + [e];
    forall i, j | 0 <= i < j < |log'| && CommitOf(log'[i], u) && CommitOf(log'[j], u)
      ensures exists k :: i < k < j && log'[k] == Cleared(u)
    {
      assert CommitOf(log[i], u);
      if j < |log| {
        assert CommitOf(log[j], u);
        var k :| i < k < j && log[k] == Cleared(u);
        assert log'[k] == Cleared(u);
      } else {
        ClosedMeansCleared(log, u, i);
        var k :| i < k < |log| && log[k] == Cleared(u);
        assert log'[k] == Cleared(u);
      }
    }
  }

  /** One more event keeps clears between the user's commits exactly unless it is a commit and the log is open. */
  lemma {:induction false} AlternatesAfter(log: seq<Event>, e: Event, u: UserId)
    ensures Alternates(log + [e], u) <==> Alternates(log, u) && !(CommitOf(e, u) && Open(log, u))
  {
    var log' := log + [e];
    if Alternates(log', u) { PrefixAlternates(log, e, u); }
    if CommitOf(e, u) && Open(log, u) {
      var i := OpenCommit(log, u);
      assert CommitOf(log'[i], u) && CommitOf(log'[|log|], u);
      assert forall k :: i < k < |log| ==> log'[k] != Cleared(u);
    } else if Alternates(log, u) {
      CommitAlternates(log, e, u);
    }
  }

  /** Clearing the user's cart throws, or is not attempted since the answer to the commit is lost. */
  predicate FailsToClear(s: State, a: Action, u: UserId) {
    (a.CallThrows? && Pends(s, a.call, u))
    || (a.CommitUnheard? && Logged(s, a).Some? && CommitOf(Logged(s, a).value, u))
  }

  ghost predicate ClearsSucceed(acts: seq<Action>, u: UserId) {
    acts == []
    || (ClearsSucceed(acts[..|acts| - 1], u) && !FailsToClear(Run(INIT, acts[..|acts| - 1]), acts[|acts| - 1], u))
  }

  ghost predicate ClearsFollow(s: State, u: UserId) {
    Alternates(s.log, u) && (Open(s.log, u) ==> ClearPending(s, u))
  }

  /** A pending clear stays pending through every step but the one it waits for. */
  lemma {:induction false} StaysPending(s: State, a: Action, u: UserId)
    requires ClearPending(s, u) && !FailsToClear(s, a, u) && !(a.Clear? && Pends(s, a.call, u))
    ensures ClearPending(Step(s, a), u)
  {
    var c: nat :| Pends(s, c, u);
    assert Pends(Step(s, a), c, u);
  }

  /** One more event: a commit of the user must find no clear pending and leave one. */
  lemma LoggedKeepsClears(s: State, s': State, e: Event, u: UserId)
    requires ClearsFollow(s, u) && s'.log == s.log + [e]
    requires CommitOf(e, u) ==> !ClearPending(s, u) && ClearPending(s', u)
    requires e.user != u && ClearPending(s, u) ==> ClearPending(s', u)
    ensures ClearsFollow(s', u)
  {
    AlternatesAfter(s.log, e, u);
    OpenAfter(s.log, e, u);
  }

  lemma {:induction false} StepKeepsClears(s: State, a: Action, u: UserId)
    requires ClearsFollow(s, u) && Exclusive(s, u) && !FailsToClear(s, a, u)
    ensures ClearsFollow(Step(s, a), u)
  {
    var s', e := Step(s, a), Logged(s, a);
    LogAfter(s, a);
    if e.Some? && CommitOf(e.value, u) {
      AloneSeesNoClear(s, a.call, u);
      CommitPends(s, a, u);
    } else if ClearPending(s, u) && !(a.Clear? && Pends(s, a.call, u)) {
      StaysPending(s, a, u);
    }
    if e.Some? {
      LoggedKeepsClears(s, s', e.value, u);
    } else {
      assert s'.log == s.log;
    }
  }

  /** A call alone inside and not at its own clear finds no clear pending. */
  lemma AloneSeesNoClear(s: State, c: nat, u: UserId)
    requires Exclusive(s, u) && InSection(s, c, u) && !s.calls[c].Clearing?
    ensures !ClearPending(s, u)
  {
    if ClearPending(s, u) {
      var d: nat :| Pends(s, d, u);
      assert InSection(s, d, u);
      assert false;
    }
  }

  /** While a user's locks hold and every clear is made, between any two of their orders the cart was cleared. */
  lemma {:induction false} CommitsAlternateWithClears(acts: seq<Action>, u: UserId)
    requires LapseFree(acts, u) && ClearsSucceed(acts, u)
    ensures ClearsFollow(Run(INIT, acts), u)
  {
    if acts == [] {
    } else {
      CommitsAlternateWithClears(acts[..|acts| - 1], u);
      LockIsCriticalSection(acts[..|acts| - 1], u);
      StepKeepsClears(Run(INIT, acts[..|acts| - 1]), acts[|acts| - 1], u);
    }
  }

  // ----- conservation of units -----

  lemma {:induction false} PricedUnits(u: UserId, items: seq<CartLine>, lines: seq<Line>)
    requires |lines| == |items|
    requires forall i :: 0 <= i < |items| ==>
      lines[i].productId == items[i].productId && lines[i].variantId == items[i].variantId
      && lines[i].quantity == items[i].quantity
    ensures OrderUnits(u, lines) == Units(u, items)
  {
    if items == [] {
    } else {
      PricedUnits(u, items[..|items| - 1], lines[..|lines| - 1]);
    }
  }

  lemma BoughtAfter(log: seq<Event>, e: Event)
    ensures Bought(log + [e]) == Bought(log) + (if e.Committed? then OrderUnits(e.user, e.lines) else multiset{})
  {
    assert (log + [e])[..|log|] == log;
  }

  /** What a call still has to order of unit x: its snapshot of the cart, or its priced lines. */
  function InHand(call: Call, x: Unit): nat {
    if call.req.user != x.user then 0
    else if call.Resolving? then Units(x.user, call.items)[x]
    else if call.Committing? then OrderUnits(x.user, call.lines)[x]
    else 0
  }

  function HandOf(s: State, c: nat, x: Unit): nat {
    if c in s.calls then InHand(s.calls[c], x) else 0
  }

  /** Units in orders, plus those in the cart or in a call's hand, were all once added. */
  ghost predicate Conserved(s: State, x: Unit) {
    && Bought(s.log)[x] <= s.added[x]
    && (!ClearPending(s, x.user) ==> Bought(s.log)[x] + Units(x.user, CartOf(s, x.user))[x] <= s.added[x])
    && (forall c :: Bought(s.log)[x] + HandOf(s, c, x) <= s.added[x])
  }

  /** A cart holds only its own user's units. */
  lemma {:induction false} OwnUnits(u: UserId, items: seq<CartLine>, x: Unit)
    ensures x.user != u ==> Units(u, items)[x] == 0
  {
    if items == [] {
    } else {
      OwnUnits(u, items[..|items| - 1], x);
    }
  }

  lemma {:induction false} OwnOrderUnits(u: UserId, lines: seq<Line>, x: Unit)
    ensures x.user != u ==> OrderUnits(u, lines)[x] == 0
  {
    if lines == [] {
    } else {
      OwnOrderUnits(u, lines[..|lines| - 1], x);
    }
  }

  /** A step that orders nothing of x, leaves the cart, and takes nothing new in hand but from the cart. */
  lemma QuietKeepsUnits(s: State, s': State, x: Unit)
    requires Conserved(s, x) && (ClearPending(s, x.user) ==> ClearPending(s', x.user))
    requires Bought(s'.log)[x] == Bought(s.log)[x] && s'.added[x] == s.added[x]
    requires CartOf(s', x.user) == CartOf(s, x.user)
    requires forall c ::
      HandOf(s', c, x) <= HandOf(s, c, x)
      || (!ClearPending(s, x.user) && HandOf(s', c, x) == Units(x.user, CartOf(s, x.user))[x])
    ensures Conserved(s', x)
  {
    forall c ensures Bought(s'.log)[x] + HandOf(s', c, x) <= s'.added[x] {
      assert Bought(s.log)[x] + HandOf(s, c, x) <= s.added[x];
    }
  }

  /** Units go into or out of one user's cart, and what goes in is counted. */
  lemma {:induction false} EditedKeepsUnits(s: State, s': State, x: Unit)
    requires Conserved(s, x) && s'.log == s.log && s'.calls == s.calls
    requires var had, has := Units(x.user, CartOf(s, x.user))[x], Units(x.user, CartOf(s', x.user))[x];
      s'.added[x] == s.added[x] + if has > had then has - had else 0
    ensures Conserved(s', x)
  {
    assert forall c :: Pends(s', c, x.user) <==> Pends(s, c, x.user);
    forall c ensures Bought(s'.log)[x] + HandOf(s', c, x) <= s'.added[x] {
      assert Bought(s.log)[x] + HandOf(s, c, x) <= s.added[x];
    }
  }

  lemma {:induction false} EditKeepsUnits(s: State, a: Action, x: Unit)
    requires Conserved(s, x) && a.EditCart?
    ensures Conserved(Step(s, a), x)
  {
    OwnUnits(a.user, a.items, x);
    OwnUnits(a.user, CartOf(s, a.user), x);
    EditedKeepsUnits(s, Step(s, a), x);
  }

  /** A commit that logs its order: the lines move from the call's hand into the log. */
  lemma {:induction false} LoggedKeepsUnits(s: State, a: Action, x: Unit)
    requires Conserved(s, x) && Exclusive(s, x.user) && Logged(s, a).Some? && Logged(s, a).value.Committed?
    requires !FailsToClear(s, a, x.user)
    ensures Conserved(Step(s, a), x)
  {
    var s', e := Step(s, a), Logged(s, a).value;
    LogAfter(s, a);
    BoughtCommitted(s.log, e, x);
    HandsAfterCommit(s, a, x);
    if x.user == e.user {
      CommitPends(s, a, x.user);
      MovedKeepsUnits(s, s', a.call, x);
    } else {
      if ClearPending(s, x.user) { StaysPending(s, a, x.user); }
      QuietKeepsUnits(s, s', x);
    }
  }

  lemma BoughtCommitted(log: seq<Event>, e: Event, x: Unit)
    requires e.Committed?
    ensures Bought(log + [e])[x] == Bought(log)[x] + if e.user == x.user then OrderUnits(x.user, e.lines)[x] else 0
  {
    BoughtAfter(log, e);
    OwnOrderUnits(e.user, e.lines, x);
  }

  lemma CommitPends(s: State, a: Action, u: UserId)
    requires Logged(s, a).Some? && CommitOf(Logged(s, a).value, u) && !FailsToClear(s, a, u)
    ensures Pends(Step(s, a), a.call, u)
  {}

  lemma MovedKeepsUnits(s: State, s': State, c: nat, x: Unit)
    requires Conserved(s, x) && s'.added == s.added && Bought(s'.log)[x] == Bought(s.log)[x] + HandOf(s, c, x)
    requires ClearPending(s', x.user) && forall d :: HandOf(s', d, x) == 0
    ensures Conserved(s', x)
  {
    assert Bought(s.log)[x] + HandOf(s, c, x) <= s.added[x];
  }

  /** The call that commits holds everything its user's calls have in hand. */
  lemma {:induction false} HandsAfterCommit(s: State, a: Action, x: Unit)
    requires Exclusive(s, x.user) && Logged(s, a).Some? && Logged(s, a).value.Committed?
    ensures var s' := Step(s, a);
      && s'.added == s.added && CartOf(s', x.user) == CartOf(s, x.user)
      && (forall c :: HandOf(s', c, x) <= HandOf(s, c, x))
      && (x.user == Logged(s, a).value.user ==> forall c :: HandOf(s', c, x) == 0)
  {
    if x.user == Logged(s, a).value.user {
      assert InSection(s, a.call, x.user);
      forall c ensures HandOf(Step(s, a), c, x) == 0 {
        assert InSection(s, c, x.user) ==> c == a.call;
      }
    }
  }

  /** The clear empties the user's cart and logs it; nobody else's is touched. */
  lemma {:induction false} ClearKeepsUnits(s: State, a: Action, x: Unit)
    requires Conserved(s, x) && a.Clear? && a.call in s.calls && s.calls[a.call].Clearing?
    ensures Conserved(Step(s, a), x)
  {
    LogAfter(s, a);
    BoughtCleared(s.log, s.calls[a.call].req.user, x);
    ClearMovesNothing(s, a, x);
    if x.user != s.calls[a.call].req.user && ClearPending(s, x.user) { StaysPending(s, a, x.user); }
    ClearedKeepsUnits(s, Step(s, a), s.calls[a.call].req.user, x);
  }

  lemma BoughtCleared(log: seq<Event>, u: UserId, x: Unit)
    ensures Bought(log + [Cleared(u)])[x] == Bought(log)[x]
  {
    BoughtAfter(log, Cleared(u));
  }

  lemma ClearedKeepsUnits(s: State, s': State, u: UserId, x: Unit)
    requires Conserved(s, x) && s'.added == s.added && Bought(s'.log)[x] == Bought(s.log)[x]
    requires forall c :: HandOf(s', c, x) == HandOf(s, c, x)
    requires CartOf(s', x.user) == if x.user == u then [] else CartOf(s, x.user)
    requires x.user != u && ClearPending(s, x.user) ==> ClearPending(s', x.user)
    ensures Conserved(s', x)
  {
    if x.user == u {
      forall c ensures Bought(s'.log)[x] + HandOf(s', c, x) <= s'.added[x] {
        assert Bought(s.log)[x] + HandOf(s, c, x) <= s.added[x];
      }
    } else {
      QuietKeepsUnits(s, s', x);
    }
  }

  lemma {:induction false} ClearMovesNothing(s: State, a: Action, x: Unit)
    requires a.Clear? && a.call in s.calls && s.calls[a.call].Clearing?
    ensures var s' := Step(s, a);
      && s'.added == s.added && (forall c :: HandOf(s', c, x) == HandOf(s, c, x))
      && CartOf(s', x.user) == if x.user == s.calls[a.call].req.user then [] else CartOf(s, x.user)
  {}

  /** A call's own step takes nothing new in hand, except when it reads the cart. */
  lemma {:induction false} OwnHandAfter(s: State, a: Action, c: nat, x: Unit)
    requires c in s.calls && !(a.GetCart? && s.calls[c].GettingCart?) && !(a.Resolve? && s.calls[c].Resolving?)
    ensures var s' := CallStep(s, a, c);
      c in s'.calls && InHand(s'.calls[c], x) <= InHand(s.calls[c], x)
  {}

  lemma OthersHandsAfter(s: State, a: Action, c: nat, x: Unit)
    requires a.Arrive? || a.EditCart? || a.LockExpires? || a.Other? || a.call != c
    ensures HandOf(Step(s, a), c, x) <= HandOf(s, c, x)
  {}

  lemma {:induction false} ResolvedHand(s: State, a: Action, c: nat, x: Unit)
    requires c in s.calls && a.Resolve? && s.calls[c].Resolving?
    ensures var s' := CallStep(s, a, c);
      c in s'.calls && InHand(s'.calls[c], x) <= InHand(s.calls[c], x)
  {
    var r := Price(s.calls[c].items, a.answers);
    if r.Ok? { PricedUnits(x.user, s.calls[c].items, r.value); }
  }

  lemma CartHand(s: State, a: Action, c: nat, x: Unit)
    requires Exclusive(s, x.user) && c in s.calls && a.GetCart? && s.calls[c].GettingCart?
    ensures var s' := CallStep(s, a, c);
      c in s'.calls && (InHand(s'.calls[c], x) == 0
        || (!ClearPending(s, x.user) && InHand(s'.calls[c], x) == Units(x.user, CartOf(s, x.user))[x]))
  {
    if s.calls[c].req.user == x.user { AloneSeesNoClear(s, c, x.user); }
  }

  /** The remaining steps take nothing in hand but the cart itself, and only with no clear pending. */
  lemma {:induction false} HandsAfter(s: State, a: Action, x: Unit, c: nat)
    requires Exclusive(s, x.user) && !a.EditCart?
    ensures var s' := Step(s, a);
      HandOf(s', c, x) <= HandOf(s, c, x)
      || (!ClearPending(s, x.user) && HandOf(s', c, x) == Units(x.user, CartOf(s, x.user))[x])
  {
    if a.Arrive? || a.LockExpires? || a.Other? || a.call != c {
      OthersHandsAfter(s, a, c, x);
    } else if c in s.calls {
      assert Step(s, a) == CallStep(s, a, c);
      if a.GetCart? && s.calls[c].GettingCart? {
        CartHand(s, a, c, x);
      } else if a.Resolve? && s.calls[c].Resolving? {
        ResolvedHand(s, a, c, x);
      } else {
        OwnHandAfter(s, a, c, x);
      }
    }
  }

  lemma {:induction false} StepKeepsUnits(s: State, a: Action, x: Unit)
    requires Conserved(s, x) && Exclusive(s, x.user) && !FailsToClear(s, a, x.user)
    ensures Conserved(Step(s, a), x)
  {
    if a.EditCart? {
      EditKeepsUnits(s, a, x);
    } else if Logged(s, a).Some? && Logged(s, a).value.Committed? {
      LoggedKeepsUnits(s, a, x);
    } else if Logged(s, a).Some? {
      ClearKeepsUnits(s, a, x);
    } else {
      QuietStepKeepsUnits(s, a, x);
    }
  }

  lemma {:induction false} QuietStepKeepsUnits(s: State, a: Action, x: Unit)
    requires Conserved(s, x) && Exclusive(s, x.user) && !FailsToClear(s, a, x.user)
    requires !a.EditCart? && Logged(s, a).None?
    ensures Conserved(Step(s, a), x)
  {
    var s' := Step(s, a);
    LogAfter(s, a);
    assert s.log + [] == s.log;
    if ClearPending(s, x.user) { StaysPending(s, a, x.user); }
    forall c
      ensures HandOf(s', c, x) <= HandOf(s, c, x)
        || (!ClearPending(s, x.user) && HandOf(s', c, x) == Units(x.user, CartOf(s, x.user))[x])
    {
      HandsAfter(s, a, x, c);
    }
    CartKept(s, a, x);
    QuietKeepsUnits(s, s', x);
  }

  lemma CartKept(s: State, a: Action, x: Unit)
    requires !a.EditCart? && Logged(s, a).None?
    ensures Step(s, a).added == s.added && CartOf(Step(s, a), x.user) == CartOf(s, x.user)
  {}

  /** No unit is ordered twice: a user's orders hold no more units of a variant than their carts were ever given. */
  lemma {:induction false} UnitsOrderedOnce(acts: seq<Action>, x: Unit)
    requires LapseFree(acts, x.user) && ClearsSucceed(acts, x.user)
    ensures Bought(Run(INIT, acts).log)[x] <= Run(INIT, acts).added[x]
    ensures Conserved(Run(INIT, acts), x)
  {
    if acts == [] {
    } else {
      UnitsOrderedOnce(acts[..|acts| - 1], x);
      LockIsCriticalSection(acts[..|acts| - 1], x.user);
      StepKeepsUnits(Run(INIT, acts[..|acts| - 1]), acts[|acts| - 1], x);
    }
  }
}
