/**
  The order pipeline as a protocol: placers and cancellers writing the database,
  any number of overlapping relay ticks, an at-least-once order.created topic,
  and finalizers.  One Action is one repository, provider or publish call, so a
  sequence of actions is one interleaving of any number of in-flight calls.
*/
module OrderPipeline {
  import opened OrderModel
  import opened Runs
  import opened Money
  import opened Common

  /** A relay tick: the claimed rows and how many of them it has published. */
  datatype Tick = Tick(batch: seq<nat>, sent: nat)

  /** A finalizeOrder call, named by the call it makes next. */
  datatype Final =
    | Reading(order: OrderId)
    | Charging(order: OrderId, payment: PaymentType, total: string)
    | Settling(order: OrderId, paid: bool)
    | Announcing(order: OrderId, paid: bool, left: nat)

  /** What finalizeOrder publishes: order.status.changed, then order.paid or order.failed. */
  datatype Event = StatusChanged(order: OrderId, paid: bool) | Verdict(order: OrderId, paid: bool)

  /**
    log lists the rows published, in order; topic holds the messages not yet
    taken; dropped the orders whose finalization threw before markStatus;
    charged and wasted count charges, and charges whose outcome was never recorded;
    events lists what finalizers published.
  */
  datatype State = State(db: Db, ticks: map<nat, Tick>, log: seq<nat>, topic: multiset<OrderId>,
                         finals: map<nat, Final>, dropped: set<OrderId>,
                         charged: multiset<OrderId>, wasted: multiset<OrderId>, events: seq<Event>)

  const INIT := State(EMPTY, map[], [], multiset{}, map[], {}, multiset{}, multiset{}, [])

  datatype Action =
    | PlaceOrder(r: Placement, id: OrderId)
    | CancelOrder(order: OrderId, softDelete: bool)
    | ClaimBatch(tick: nat)
    | SendNext(tick: nat)
    | TickFails(tick: nat)
    | MarkBatch(tick: nat)
    | Redeliver(row: nat)
    | Take(fin: nat, order: OrderId)
    | FindOrder(fin: nat)
    | Charge(fin: nat)
    | MarkStatus(fin: nat)
    | PublishStatus(fin: nat)
    | FinalizerFails(fin: nat)

  // ----- steps; an action whose caller is not at that point does nothing -----

  function RelayStep(s: State, a: Action): State {
    match a
    case ClaimBatch(t) =>
      if t in s.ticks then s
      else s.(ticks := s.ticks[t := Tick(Claim(s.db.outbox, 0, BATCH), 0)])
    case SendNext(t) =>
      if t in s.ticks && s.ticks[t].sent < |s.ticks[t].batch| && s.ticks[t].batch[s.ticks[t].sent] < |s.db.outbox| then
        var k := s.ticks[t];
        var row := k.batch[k.sent];
        s.(ticks := s.ticks[t := k.(sent := k.sent + 1)], log := s.log + [row],
           topic := s.topic + multiset{s.db.outbox[row].order})
      else s
    case TickFails(t) => s.(ticks := Without(s.ticks, t))
    case MarkBatch(t) =>
      if t in s.ticks && s.ticks[t].sent == |s.ticks[t].batch| then
        s.(db := Apply(s.db, Published(s.ticks[t].batch)), ticks := Without(s.ticks, t))
      else s
    case Redeliver(row) =>
      if row in s.log && row < |s.db.outbox| then s.(topic := s.topic + multiset{s.db.outbox[row].order}) else s
    case _ => s
  }

  function FinalStep(s: State, a: Action): State {
    match a
    case Take(f, o) =>
      if f !in s.finals && o in s.topic && (forall g :: g in s.finals ==> s.finals[g].order != o) then
        s.(finals := s.finals[f := Reading(o)], topic := s.topic - multiset{o})
      else s
    case FindOrder(f) =>
      if f in s.finals && s.finals[f].Reading? then
        var o := s.finals[f].order;
        if IsPending(s.db, o) then
          s.(finals := s.finals[f := Charging(o, s.db.orders[o].payment, s.db.orders[o].total)])
        else s.(finals := Without(s.finals, f))
      else s
    case Charge(f) =>
      if f in s.finals && s.finals[f].Charging? then
        var c := s.finals[f];
        s.(finals := s.finals[f := Settling(c.order, ChargeSucceeds(c.payment, c.total))],
           charged := s.charged + multiset{c.order})
      else s
    case MarkStatus(f) =>
      if f in s.finals && s.finals[f].Settling? && s.finals[f].order in s.db.orders then
        var c := s.finals[f];
        s.(db := Apply(s.db, Mark(c.order, c.paid)), finals := s.finals[f := Announcing(c.order, c.paid, 2)])
      else s
    case PublishStatus(f) =>
      if f in s.finals && s.finals[f].Announcing? then
        var c := s.finals[f];
        s.(finals := if c.left <= 1 then Without(s.finals, f) else s.finals[f := c.(left := c.left - 1)],
           events := s.events + [if c.left <= 1 then Verdict(c.order, c.paid) else StatusChanged(c.order, c.paid)])
      else s
    case FinalizerFails(f) =>
      if f in s.finals then
        var c := s.finals[f];
        s.(finals := Without(s.finals, f),
           dropped := if c.Announcing? then s.dropped else s.dropped + {c.order},
           wasted := if c.Settling? then s.wasted + multiset{c.order} else s.wasted)
      else s
    case _ => s
  }

  function Step(s: State, a: Action): State {
    match a
    case PlaceOrder(r, id) => s.(db := Apply(s.db, Place(r, id)))
    case CancelOrder(o, soft) => s.(db := Apply(s.db, Cancel(o, soft)))
    case _ => if IsFinal(a) then FinalStep(s, a) else RelayStep(s, a)
  }

  predicate IsFinal(a: Action) {
    a.Take? || a.FindOrder? || a.Charge? || a.MarkStatus? || a.PublishStatus? || a.FinalizerFails?
  }

  function Run(s: State, acts: seq<Action>): State {
    Fold(Step, s, acts)
  }

  // ----- the database side -----

  /** The transaction an action performs, if any. */
  function Effect(s: State, a: Action): seq<DbAction> {
    match a
    case PlaceOrder(r, id) => [Place(r, id)]
    case CancelOrder(o, soft) => [Cancel(o, soft)]
    case MarkBatch(t) =>
      if t in s.ticks && s.ticks[t].sent == |s.ticks[t].batch| then [Published(s.ticks[t].batch)] else []
    case MarkStatus(f) =>
      if f in s.finals && s.finals[f].Settling? && s.finals[f].order in s.db.orders then
        [Mark(s.finals[f].order, s.finals[f].paid)] else []
    case _ => []
  }

  /** Every step is at most one database transaction. */
  lemma StepEffect(s: State, a: Action)
    ensures Step(s, a).db == ApplyAll(s.db, Effect(s, a))
  {
    var e := Effect(s, a);
    if e == [] {
    } else {
      assert e[..0] == [];
      assert ApplyAll(s.db, e) == Apply(ApplyAll(s.db, e[..0]), e[0]);
    }
  }

  ghost predicate DbOk(db: Db) {
    LifeCycles(db) && Bijection(db)
  }

  lemma {:induction false} StepKeepsDb(s: State, a: Action)
    requires DbOk(s.db)
    ensures DbOk(Step(s, a).db)
    ensures DbEvolves(s.db, Step(s, a).db) && KeysFixed(s.db, Step(s, a).db)
  {
    StepEffect(s, a);
    LifeCycleHolds(s.db, Effect(s, a));
    BijectionHolds(s.db, Effect(s, a));
  }

  // ----- relay: published only after it was sent -----

  ghost predicate RelayOk(s: State) {
    && (forall i :: i in s.log ==> i < |s.db.outbox|)
    && (forall i :: 0 <= i < |s.db.outbox| && s.db.outbox[i].published ==> i in s.log)
    && (forall t :: t in s.ticks ==> TickOk(s, s.ticks[t]))
  }

  ghost predicate TickOk(s: State, k: Tick) {
    && k.sent <= |k.batch|
    && (forall j :: 0 <= j < |k.batch| ==> k.batch[j] < |s.db.outbox|)
    && (forall j :: 0 <= j < k.sent ==> k.batch[j] in s.log)
  }

  lemma SendKeepsRelay(s: State, a: Action)
    requires RelayOk(s) && a.SendNext?
    ensures RelayOk(Step(s, a))
  {
    var s' := Step(s, a);
    forall t | t in s'.ticks ensures TickOk(s', s'.ticks[t]) {
      assert TickOk(s, s.ticks[t]);
    }
  }

  lemma MarkKeepsRelay(s: State, a: Action)
    requires RelayOk(s) && a.MarkBatch?
    ensures RelayOk(Step(s, a))
  {
    var s' := Step(s, a);
    if a.tick in s.ticks { assert TickOk(s, s.ticks[a.tick]); }
    forall t | t in s'.ticks ensures TickOk(s', s'.ticks[t]) {
    }
  }

  lemma PlaceKeepsRelay(s: State, r: Placement, id: OrderId)
    requires RelayOk(s)
    ensures RelayOk(Step(s, PlaceOrder(r, id)))
  {
    OutboxGrows(s.db, Place(r, id));
  }

  lemma CancelKeepsRelay(s: State, o: OrderId, soft: bool)
    requires RelayOk(s)
    ensures RelayOk(Step(s, CancelOrder(o, soft)))
  {
    OutboxGrows(s.db, Cancel(o, soft));
  }

  lemma FinalKeepsRelay(s: State, a: Action)
    requires RelayOk(s) && IsFinal(a)
    ensures RelayOk(FinalStep(s, a))
  {
  }

  /** Claims, failed ticks and redeliveries. */
  lemma TickKeepsRelay(s: State, a: Action)
    requires RelayOk(s) && (a.ClaimBatch? || a.TickFails? || a.Redeliver?)
    ensures RelayOk(RelayStep(s, a))
  {
  }

  lemma {:induction false} StepKeepsRelay(s: State, a: Action)
    requires RelayOk(s)
    ensures RelayOk(Step(s, a))
  {
    match a {
      case PlaceOrder(r, id) => PlaceKeepsRelay(s, r, id);
      case CancelOrder(o, soft) => CancelKeepsRelay(s, o, soft);
      case SendNext(_) => SendKeepsRelay(s, a);
      case MarkBatch(_) => MarkKeepsRelay(s, a);
      case ClaimBatch(_) => TickKeepsRelay(s, a);
      case TickFails(_) => TickKeepsRelay(s, a);
      case Redeliver(_) => TickKeepsRelay(s, a);
      case _ => FinalKeepsRelay(s, a);
    }
  }

  // ----- no lost order -----

  ghost predicate Finalizing(s: State, o: OrderId) {
    exists f :: f in s.finals && s.finals[f].order == o && !s.finals[f].Announcing?
  }

  /** Past the relay, a pending order is still on its way or was dropped by a failed finalizer. */
  ghost predicate Handled(s: State, o: OrderId) {
    !IsPending(s.db, o) || o in s.topic || Finalizing(s, o) || o in s.dropped
  }

  ghost predicate LogHandled(s: State) {
    forall i :: i in s.log && i < |s.db.outbox| ==> Handled(s, s.db.outbox[i].order)
  }

  lemma TakeHandles(s: State, a: Action, o: OrderId)
    requires a.Take? && Handled(s, o)
    ensures Handled(FinalStep(s, a), o)
  {
    var s' := FinalStep(s, a);
    if s' != s && a.order == o { assert s'.finals[a.fin] == Reading(o); }
    if Finalizing(s, o) {
      var f :| f in s.finals && s.finals[f].order == o && !s.finals[f].Announcing?;
      assert f in s'.finals && s'.finals[f] == s.finals[f];
    }
  }

  lemma MoveHandles(s: State, a: Action, o: OrderId)
    requires (a.FindOrder? || a.Charge? || a.PublishStatus? || a.FinalizerFails?) && Handled(s, o)
    ensures Handled(FinalStep(s, a), o)
  {
    var s' := FinalStep(s, a);
    if IsPending(s.db, o) && Finalizing(s, o) {
      var f :| f in s.finals && s.finals[f].order == o && !s.finals[f].Announcing?;
      if f in s'.finals { assert s'.finals[f].order == o && !s'.finals[f].Announcing?; }
    }
  }

  /** Once markStatus has run, the order is no longer pending. */
  lemma MarkStatusHandles(s: State, a: Action, o: OrderId)
    requires a.MarkStatus? && Handled(s, o)
    ensures Handled(FinalStep(s, a), o)
  {
    var s' := FinalStep(s, a);
    if IsPending(s'.db, o) && o !in s.topic && o !in s.dropped {
      assert IsPending(s.db, o);
      var f :| f in s.finals && s.finals[f].order == o && !s.finals[f].Announcing?;
      assert f in s'.finals && s'.finals[f] == s.finals[f];
    }
  }

  lemma HandledStays(s: State, a: Action, o: OrderId)
    requires o in s.db.orders && Handled(s, o)
    ensures Handled(Step(s, a), o)
  {
    if a.MarkStatus? {
      MarkStatusHandles(s, a, o);
    } else if a.Take? {
      TakeHandles(s, a, o);
    } else if IsFinal(a) {
      MoveHandles(s, a, o);
    } else {
    }
  }

  lemma RowsKeepOrders(s: State, a: Action)
    ensures |s.db.outbox| <= |Step(s, a).db.outbox|
    ensures forall i :: 0 <= i < |s.db.outbox| ==> Step(s, a).db.outbox[i].order == s.db.outbox[i].order
  {}

  lemma StepKeepsLogHandled(s: State, a: Action)
    requires RowsNameOrders(s.db) && RelayOk(s) && LogHandled(s)
    ensures LogHandled(Step(s, a))
  {
    var s' := Step(s, a);
    forall i | i in s'.log && i < |s'.db.outbox|
      ensures Handled(s', s'.db.outbox[i].order)
    {
      RowsKeepOrders(s, a);
      if i in s.log {
        HandledStays(s, a, s.db.outbox[i].order);
      } else {
      }
    }
  }

  // ----- finalizers and charges -----

  ghost predicate FinalOk(db: Db, c: Final) {
    && (c.Charging? ==>
          c.order in db.orders && c.payment == db.orders[c.order].payment && c.total == db.orders[c.order].total)
    && (c.Settling? ==> c.order in db.orders && c.paid == Succeeds(db.orders[c.order]))
  }

  /** An order that was Paid or Failed got the outcome of its own charge. */
  predicate Truthful(o: Order) {
    (Paid in o.history ==> Succeeds(o)) && (Failed in o.history ==> !Succeeds(o))
  }

  ghost predicate FinalsOk(s: State) {
    && (forall f :: f in s.finals ==> FinalOk(s.db, s.finals[f]))
    && OnePerOrder(s.finals)
    && (forall o :: o in s.db.orders ==> Truthful(s.db.orders[o]))
  }

  lemma FinalOkStays(db: Db, db': Db, c: Final)
    requires DbEvolves(db, db') && FinalOk(db, c)
    ensures FinalOk(db', c)
  {
    if !c.Reading? && !c.Announcing? { assert Evolves(db.orders[c.order], db'.orders[c.order]); }
  }

  lemma StepKeepsTruth(s: State, a: Action, o: OrderId)
    requires FinalsOk(s) && o in Step(s, a).db.orders
    ensures Truthful(Step(s, a).db.orders[o])
  {
    StepEffect(s, a);
    var e := Effect(s, a);
    if e == [] {
    } else {
      assert e[..0] == [] && ApplyAll(s.db, e) == Apply(s.db, e[0]);
      if a.MarkStatus? { assert FinalOk(s.db, s.finals[a.fin]); }
    }
  }

  /** One finalizer per order: messages of one order are consumed one at a time. */
  ghost predicate OnePerOrder(m: map<nat, Final>) {
    forall f, g :: f in m && g in m && m[f].order == m[g].order ==> f == g
  }

  lemma StepKeepsOnePerOrder(s: State, a: Action)
    requires OnePerOrder(s.finals)
    ensures OnePerOrder(Step(s, a).finals)
  {
    if IsFinal(a) { FinalStepOnePerOrder(s, a); } else { OutsideFinalizers(s, a); }
  }

  /** A new finalizer takes an order no other has; the others keep their orders. */
  lemma FinalsKeepOrders(s: State, a: Action, f: nat)
    requires IsFinal(a) && f in FinalStep(s, a).finals
    ensures f in s.finals ==> FinalStep(s, a).finals[f].order == s.finals[f].order
    ensures f !in s.finals ==> forall g :: g in s.finals ==> s.finals[g].order != FinalStep(s, a).finals[f].order
    ensures f !in s.finals ==> a.Take? && a.fin == f
  {}

  lemma FinalStepOnePerOrder(s: State, a: Action)
    requires OnePerOrder(s.finals) && IsFinal(a)
    ensures OnePerOrder(FinalStep(s, a).finals)
  {
    var m := FinalStep(s, a).finals;
    forall f, g | f in m && g in m && m[f].order == m[g].order ensures f == g {
      FinalsKeepOrders(s, a, f);
      FinalsKeepOrders(s, a, g);
    }
  }

  /** What a step leaves at a finalizer: its old state, or one that fits the database. */
  lemma FinalAfter(s: State, a: Action, f: nat)
    requires IsFinal(a) && f in FinalStep(s, a).finals
    requires f in s.finals ==> FinalOk(s.db, s.finals[f])
    ensures FinalOk(s.db, FinalStep(s, a).finals[f])
  {}

  lemma {:induction false} StepKeepsFinals(s: State, a: Action)
    requires DbOk(s.db) && FinalsOk(s)
    ensures FinalsOk(Step(s, a))
  {
    var s' := Step(s, a);
    StepKeepsDb(s, a);
    StepKeepsOnePerOrder(s, a);
    forall f | f in s'.finals
      ensures FinalOk(s'.db, s'.finals[f])
    {
      if IsFinal(a) { FinalAfter(s, a, f); }
      FinalOkStays(s.db, s'.db, s'.finals[f]);
    }
    forall o | o in s'.db.orders
      ensures Truthful(s'.db.orders[o])
    {
      StepKeepsTruth(s, a, o);
    }
  }

  ghost predicate BeingSettled(s: State, o: OrderId) {
    exists f :: f in s.finals && s.finals[f].Settling? && s.finals[f].order == o
  }

  /** At most one charge of an order is not wasted; none while a charge is still possible. */
  ghost predicate ChargeOk(s: State, o: OrderId) {
    && s.charged[o] <= s.wasted[o] + 1
    && (IsPending(s.db, o) && !BeingSettled(s, o) ==> s.charged[o] <= s.wasted[o])
    && (o !in s.db.orders ==> s.charged[o] <= s.wasted[o])
    && (forall f :: f in s.finals && s.finals[f].Charging? && s.finals[f].order == o ==> s.charged[o] <= s.wasted[o])
  }

  /** A step that charges nothing and settles nothing. */
  lemma ChargeOkStays(s: State, s': State, o: OrderId)
    requires ChargeOk(s, o)
    requires s'.charged == s.charged && s.wasted[o] <= s'.wasted[o]
    requires o in s.db.orders ==> o in s'.db.orders
    requires IsPending(s'.db, o) && !BeingSettled(s', o) ==>
      s'.wasted[o] > s.wasted[o] || (IsPending(s.db, o) && !BeingSettled(s, o)) || o !in s.db.orders
    requires forall f :: f in s'.finals && s'.finals[f].Charging? && s'.finals[f].order == o ==>
      (f in s.finals && s'.finals[f] == s.finals[f]) || (IsPending(s.db, o) && !BeingSettled(s, o))
    ensures ChargeOk(s', o)
  {}

  lemma ChargeKeepsCharges(s: State, a: Action, o: OrderId)
    requires FinalsOk(s) && ChargeOk(s, o) && a.Charge?
    ensures ChargeOk(FinalStep(s, a), o)
  {
    var s' := FinalStep(s, a);
    if s'.charged != s.charged {
      var c := s.finals[a.fin];
      assert FinalOk(s.db, c);
      if c.order == o {
        assert s'.finals[a.fin].Settling? && s'.finals[a.fin].order == o;
      } else {
        assert s'.charged[o] == s.charged[o];
        if BeingSettled(s, o) {
          var f :| f in s.finals && s.finals[f].Settling? && s.finals[f].order == o;
          assert s'.finals[f] == s.finals[f];
        }
      }
    }
  }

  /** Take and publish touch no finalizer that charges or settles. */
  lemma EdgeKeepsCharges(s: State, a: Action, o: OrderId)
    requires ChargeOk(s, o) && (a.Take? || a.PublishStatus?)
    ensures ChargeOk(FinalStep(s, a), o)
  {
    var s' := FinalStep(s, a);
    if BeingSettled(s, o) {
      var f :| f in s.finals && s.finals[f].Settling? && s.finals[f].order == o;
      assert f in s'.finals && s'.finals[f] == s.finals[f];
    }
    ChargeOkStays(s, s', o);
  }

  /** A finalizer about to charge holds an order that is pending and not being settled. */
  lemma FindKeepsCharges(s: State, a: Action, o: OrderId)
    requires FinalsOk(s) && ChargeOk(s, o) && a.FindOrder?
    ensures ChargeOk(FinalStep(s, a), o)
  {
    var s' := FinalStep(s, a);
    if BeingSettled(s, o) {
      var f :| f in s.finals && s.finals[f].Settling? && s.finals[f].order == o;
      assert f in s'.finals && s'.finals[f] == s.finals[f];
    }
    ChargeOkStays(s, s', o);
  }

  lemma FailKeepsCharges(s: State, a: Action, o: OrderId)
    requires FinalsOk(s) && ChargeOk(s, o) && a.FinalizerFails?
    ensures ChargeOk(FinalStep(s, a), o)
  {
    var s' := FinalStep(s, a);
    if BeingSettled(s, o) {
      var f :| f in s.finals && s.finals[f].Settling? && s.finals[f].order == o;
      if f in s'.finals {
        assert s'.finals[f] == s.finals[f];
      } else {
        assert s'.wasted[o] == s.wasted[o] + 1;
      }
    }
    ChargeOkStays(s, s', o);
  }

  lemma MarkKeepsCharges(s: State, a: Action, o: OrderId)
    requires ChargeOk(s, o) && a.MarkStatus?
    ensures ChargeOk(FinalStep(s, a), o)
  {
    var s' := FinalStep(s, a);
    if IsPending(s'.db, o) && BeingSettled(s, o) {
      var f :| f in s.finals && s.finals[f].Settling? && s.finals[f].order == o;
      assert f in s'.finals && s'.finals[f] == s.finals[f];
    }
    ChargeOkStays(s, s', o);
  }

  /** Placers, cancellers and the relay leave finalizers and charges alone. */
  lemma OutsideFinalizers(s: State, a: Action)
    requires !IsFinal(a)
    ensures Step(s, a).finals == s.finals && Step(s, a).charged == s.charged && Step(s, a).wasted == s.wasted
    ensures forall o :: o in s.db.orders ==> o in Step(s, a).db.orders
    ensures forall o :: o in s.db.orders && IsPending(Step(s, a).db, o) ==> IsPending(s.db, o)
  {}

  lemma StepKeepsCharges(s: State, a: Action, o: OrderId)
    requires DbOk(s.db) && FinalsOk(s) && ChargeOk(s, o)
    ensures ChargeOk(Step(s, a), o)
  {
    if IsFinal(a) {
      FinalKeepsCharges(s, a, o);
    } else {
      OutsideFinalizers(s, a);
    }
  }

  lemma FinalKeepsCharges(s: State, a: Action, o: OrderId)
    requires FinalsOk(s) && ChargeOk(s, o) && IsFinal(a)
    ensures ChargeOk(FinalStep(s, a), o)
  {
    match a {
      case Charge(_) => ChargeKeepsCharges(s, a, o);
      case MarkStatus(_) => MarkKeepsCharges(s, a, o);
      case FindOrder(_) => FindKeepsCharges(s, a, o);
      case FinalizerFails(_) => FailKeepsCharges(s, a, o);
      case Take(_, _) => EdgeKeepsCharges(s, a, o);
      case PublishStatus(_) => EdgeKeepsCharges(s, a, o);
    }
  }

  // ----- all of it, over every run -----

  ghost predicate Inv(s: State) {
    && DbOk(s.db) && RelayOk(s) && LogHandled(s) && FinalsOk(s)
    && forall o: OrderId :: ChargeOk(s, o)
  }

  lemma StepKeepsInv(s: State, a: Action)
    requires Inv(s)
    ensures Inv(Step(s, a))
  {
    StepKeepsDb(s, a);
    StepKeepsRelay(s, a);
    StepKeepsLogHandled(s, a);
    StepKeepsFinals(s, a);
    forall o: OrderId ensures ChargeOk(Step(s, a), o) { StepKeepsCharges(s, a, o); }
  }

  lemma {:induction false} Reachable(s: State, acts: seq<Action>)
    requires Inv(s)
    ensures Inv(Run(s, acts))
  {
    if acts == [] {
    } else {
      Reachable(s, acts[..|acts| - 1]);
      StepKeepsInv(Run(s, acts[..|acts| - 1]), acts[|acts| - 1]);
    }
  }

  lemma InitInv()
    ensures Inv(INIT)
  {}

  ghost predicate NoneCancelled(db: Db) {
    forall o :: o in db.orders ==> db.orders[o].status != Cancelled
  }

  lemma StepCancelsNone(s: State, a: Action)
    requires NoneCancelled(s.db) && !a.CancelOrder?
    ensures NoneCancelled(Step(s, a).db)
  {
    forall o | o in Step(s, a).db.orders
      ensures Step(s, a).db.orders[o].status != Cancelled
    {
      if o in s.db.orders { assert s.db.orders[o].status != Cancelled; }
    }
  }

  lemma {:induction false} UncancelledStay(acts: seq<Action>)
    requires forall i :: 0 <= i < |acts| ==> !acts[i].CancelOrder?
    ensures NoneCancelled(Run(INIT, acts).db)
  {
    if acts == [] {
    } else {
      UncancelledStay(acts[..|acts| - 1]);
      StepCancelsNone(Run(INIT, acts[..|acts| - 1]), acts[|acts| - 1]);
    }
  }

  /** An order that left Pending and was never cancelled has exactly two history entries. */
  lemma SettledHistory(o: Order)
    requires OrderOk(o) && o.status in {Paid, Failed}
    ensures o.history == [Pending, o.status] && !o.softDeleted
  {}

  /** The row an order ends with, as a function of what was placed. */
  predicate Finished(o: Order) {
    o.status == Settlement(Succeeds(o)) && o.history == [Pending, o.status] && !o.softDeleted
  }

  /** At-least-once relay: in every run, a row marked published was published. */
  lemma {:induction false} MarkedWasPublished(acts: seq<Action>, i: nat)
    requires i < |Run(INIT, acts).db.outbox| && Run(INIT, acts).db.outbox[i].published
    ensures i in Run(INIT, acts).log
  {
    InitInv();
    Reachable(INIT, acts);
  }

  /** Every run keeps one order per key and every life cycle. */
  lemma {:induction false} PipelineDb(acts: seq<Action>)
    ensures Bijection(Run(INIT, acts).db) && LifeCycles(Run(INIT, acts).db)
  {
    InitInv();
    Reachable(INIT, acts);
  }

  // ----- one order placed, relayed and marked: the start of the runs that show limits -----

  function Placed(r: Placement): Db {
    Db(map[0 := NewOrder(r)], [OutboxRow(0, false)], map[r.key := PlaceResult(0, Pending, r.total)])
  }

  function Sent(r: Placement): State {
    INIT.(db := Placed(r), ticks := map[0 := Tick([0], 1)], log := [0], topic := multiset{0})
  }

  /** A run that places an order, claims its row and sends it. */
  lemma ReachesSent(r: Placement) returns (acts: seq<Action>)
    ensures Run(INIT, acts) == Sent(r)
  {
    acts := [] + [PlaceOrder(r, 0)];
    FoldThen(Step, INIT, [], PlaceOrder(r, 0));
    assert Run(INIT, acts) == INIT.(db := Placed(r));
    FoldThen(Step, INIT, acts, ClaimBatch(0));
    ClaimsOne(r);
    FoldThen(Step, INIT, acts + [ClaimBatch(0)], SendNext(0));
    acts := acts + [ClaimBatch(0)] + [SendNext(0)];
  }

  lemma ClaimsOne(r: Placement)
    ensures Step(INIT.(db := Placed(r)), ClaimBatch(0)) == INIT.(db := Placed(r), ticks := map[0 := Tick([0], 0)])
  {
    assert Claim(Placed(r).outbox, 0, BATCH) == [0] by { assert Claim(Placed(r).outbox, 1, BATCH - 1) == []; }
  }

  function Marked(r: Placement): State {
    Sent(r).(db := Placed(r).(outbox := [OutboxRow(0, true)]), ticks := map[])
  }

  /** The same run with the row marked. */
  lemma ReachesMarked(r: Placement) returns (acts: seq<Action>)
    ensures Run(INIT, acts) == Marked(r)
  {
    var sent := ReachesSent(r);
    FoldThen(Step, INIT, sent, MarkBatch(0));
    acts := sent + [MarkBatch(0)];
  }

  lemma ChargesOne(s: State, r: Placement)
    requires s.finals == map[0 := Charging(0, r.payment, r.total)]
    ensures Step(s, Charge(0)) ==
      s.(finals := map[0 := Settling(0, ChargeSucceeds(r.payment, r.total))], charged := s.charged + multiset{0})
  {}

  /** The finalizer throws before markStatus. */
  lemma FailsOne(s: State)
    requires s.finals.Keys == {0} && !s.finals[0].Announcing?
    ensures var s' := Step(s, FinalizerFails(0));
      s' == s.(finals := map[], dropped := s'.dropped, wasted := s'.wasted)
  {
    assert Without(s.finals, 0) == map[];
  }
}
