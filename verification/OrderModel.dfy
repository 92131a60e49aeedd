/**
  The order database: the rows written by the order repository and the atomic
  transactions over them.  One DbAction is one dataSource.transaction block (or
  one UPDATE statement); Apply gives the table contents after it.
*/
module OrderModel {
  import opened Money
  import opened Common

  type OrderId = nat
  type UserId = string
  type Key = string

  datatype Status = Pending | Paid | Failed | Cancelled
  datatype PaymentType = Cod | Card

  /** A priced order line: the snapshot the order keeps for ever. */
  datatype Line = Line(productId: string, variantId: string, productName: string, variantLabel: string,
                       unitPrice: nat, quantity: nat)

  datatype Order = Order(user: UserId, total: string, payment: PaymentType, lines: seq<Line>,
                         status: Status, softDeleted: bool, history: seq<Status>)

  /** An outbox row; its id is its position, its event is always order.created. */
  datatype OutboxRow = OutboxRow(order: OrderId, published: bool)

  datatype PlaceResult = PlaceResult(order: OrderId, status: Status, total: string)

  datatype Placement = Placement(user: UserId, payment: PaymentType, key: Key, lines: seq<Line>, total: string)

  datatype Db = Db(orders: map<OrderId, Order>, outbox: seq<OutboxRow>, idem: map<Key, PlaceResult>)

  datatype Error = NotFound | Forbidden | Invalid | Unprocessable | Upstream
  type Result<+T> = Either<T, Error>

  const EMPTY := Db(map[], [], map[])

  // ----- the transactions -----

  function NewOrder(r: Placement): Order {
    Order(r.user, r.total, r.payment, r.lines, Pending, false, [Pending])
  }

  /** Order, outbox row and idempotency row in one transaction; id is the fresh UUID. */
  function PlaceTx(db: Db, r: Placement, id: OrderId): (Db, PlaceResult) {
    if r.key in db.idem then (db, db.idem[r.key])
    else
      var res := PlaceResult(id, Pending, r.total);
      (Db(db.orders[id := NewOrder(r)], db.outbox + [OutboxRow(id, false)], db.idem[r.key := res]), res)
  }

  function Append(o: Order, st: Status): Order {
    o.(status := st, history := o.history + [st])
  }

  function CancelTx(db: Db, id: OrderId, softDelete: bool): (Db, Result<Order>) {
    if id !in db.orders then (db, Err(NotFound))
    else if db.orders[id].status in {Paid, Failed} && !softDelete then (db, Err(Unprocessable))
    else
      var o := db.orders[id];
      var o' := Append(o, Cancelled).(softDeleted := o.softDeleted || softDelete);
      (db.(orders := db.orders[id := o']), Ok(o'))
  }

  function MarkTx(db: Db, id: OrderId, st: Status): (Db, Result<Order>) {
    if id !in db.orders then (db, Err(NotFound))
    else if db.orders[id].status != Pending then (db, Ok(db.orders[id]))
    else
      var o' := Append(db.orders[id], st);
      (db.(orders := db.orders[id := o']), Ok(o'))
  }

  function Publish(outbox: seq<OutboxRow>, ids: seq<nat>): (r: seq<OutboxRow>)
    ensures |r| == |outbox|
    ensures forall i :: 0 <= i < |r| ==> r[i] == if i in ids then outbox[i].(published := true) else outbox[i]
  {
    seq(|outbox|, i requires 0 <= i < |outbox| =>
      if i in ids then outbox[i].(published := true) else outbox[i])
  }

  const BATCH: nat := 50

  /** The first unpublished rows from position i on, at most limit of them. */
  function Claim(outbox: seq<OutboxRow>, i: nat, limit: nat): (r: seq<nat>)
    requires i <= |outbox|
    ensures |r| <= limit
    ensures forall j :: 0 <= j < |r| ==> i <= r[j] < |outbox| && !outbox[r[j]].published
    decreases |outbox| - i
  {
    if i == |outbox| || limit == 0 then []
    else if outbox[i].published then Claim(outbox, i + 1, limit)
    else [i] + Claim(outbox, i + 1, limit - 1)
  }

  predicate IsPending(db: Db, o: OrderId) {
    o in db.orders && db.orders[o].status == Pending
  }

  // ----- payment -----

  /** CodPaymentProvider.charge: only a card total ending in .13 fails. */
  predicate ChargeSucceeds(payment: PaymentType, total: string) {
    payment == Cod || !EndsWith(total, ".13")
  }

  /** The outcome an order's payment has, whenever it is charged. */
  predicate Succeeds(o: Order) {
    ChargeSucceeds(o.payment, o.total)
  }

  datatype DbAction =
    | Place(r: Placement, id: OrderId)
    | Cancel(order: OrderId, softDelete: bool)
    | Mark(order: OrderId, paid: bool)
    | Published(rows: seq<nat>)

  function Settlement(paid: bool): Status {
    if paid then Paid else Failed
  }

  /** A UUID already in use is never drawn, so such a Place does nothing. */
  function Apply(db: Db, a: DbAction): Db {
    match a
    case Place(r, id) => if id in db.orders then db else PlaceTx(db, r, id).0
    case Cancel(o, soft) => CancelTx(db, o, soft).0
    case Mark(o, paid) => MarkTx(db, o, Settlement(paid)).0
    case Published(rows) => db.(outbox := Publish(db.outbox, rows))
  }

  function ApplyAll(db: Db, acts: seq<DbAction>): Db {
    if acts == [] then db else Apply(ApplyAll(db, acts[..|acts| - 1]), acts[|acts| - 1])
  }

  // ----- life cycle of one order -----

  predicate AllCancelled(h: seq<Status>) {
    forall i :: 0 <= i < |h| ==> h[i] == Cancelled
  }

  /** The order was Paid or Failed at some point. */
  predicate Settled(o: Order) {
    Paid in o.history || Failed in o.history
  }

  /** Pending, then at most one of Paid and Failed, then any number of Cancelled. */
  predicate LegalHistory(h: seq<Status>) {
    && |h| > 0 && h[0] == Pending
    && (AllCancelled(h[1..]) || (|h| > 1 && h[1] in {Paid, Failed} && AllCancelled(h[2..])))
  }

  predicate OrderOk(o: Order) {
    && LegalHistory(o.history)
    && o.status == o.history[|o.history| - 1]
    && (o.softDeleted ==> o.status == Cancelled)
    && (Settled(o) && o.status == Cancelled ==> o.softDeleted)
  }

  /** o' is o at some later time. */
  predicate Evolves(o: Order, o': Order) {
    && o' == o.(status := o'.status, softDeleted := o'.softDeleted, history := o'.history)
    && o.history <= o'.history
    && (o.status == Cancelled ==> o'.status == Cancelled)
    && (o.softDeleted ==> o'.softDeleted)
    && (o.status in {Paid, Failed} && o'.status == Cancelled ==> o'.softDeleted)
  }

  lemma CancelledOk(o: Order, soft: bool)
    requires OrderOk(o) && (o.status in {Paid, Failed} ==> soft)
    ensures OrderOk(Append(o, Cancelled).(softDeleted := o.softDeleted || soft))
    ensures Evolves(o, Append(o, Cancelled).(softDeleted := o.softDeleted || soft))
  {
    var h, h' := o.history, o.history + [Cancelled];
    assert Paid in h' <==> Paid in h;
    assert Failed in h' <==> Failed in h;
    assert h'[1..] == h[1..] + [Cancelled];
    if |h| > 1 { assert h'[2..] == h[2..] + [Cancelled]; }
    assert LegalHistory(h');
  }

  ghost predicate LifeCycles(db: Db) {
    forall id :: id in db.orders ==> OrderOk(db.orders[id])
  }

  ghost predicate DbEvolves(db: Db, db': Db) {
    forall id :: id in db.orders ==> id in db'.orders && Evolves(db.orders[id], db'.orders[id])
  }

  /** What one transaction does to one order. */
  lemma StepKeepsOrder(db: Db, a: DbAction, id: OrderId)
    requires id in db.orders && OrderOk(db.orders[id])
    ensures id in Apply(db, a).orders
    ensures OrderOk(Apply(db, a).orders[id]) && Evolves(db.orders[id], Apply(db, a).orders[id])
  {
    var o := db.orders[id];
    if a.Cancel? && a.order == id && (o.status in {Paid, Failed} ==> a.softDelete) {
      CancelledOk(o, a.softDelete);
    } else if a.Mark? && a.order == id && o.status == Pending {
    } else {
      assert Apply(db, a).orders[id] == o;
    }
  }

  lemma NewOrderOk(r: Placement)
    ensures OrderOk(NewOrder(r))
  {}

  /** Every transaction keeps every life cycle, and moves orders only forward. */
  lemma {:induction false} StepKeepsLifeCycles(db: Db, a: DbAction)
    requires LifeCycles(db)
    ensures LifeCycles(Apply(db, a)) && DbEvolves(db, Apply(db, a))
  {
    forall id | id in Apply(db, a).orders
      ensures OrderOk(Apply(db, a).orders[id])
      ensures id in db.orders ==> Evolves(db.orders[id], Apply(db, a).orders[id])
    {
      if id in db.orders { StepKeepsOrder(db, a, id); } else { NewOrderOk(a.r); }
    }
    forall id | id in db.orders
      ensures id in Apply(db, a).orders
    {
      StepKeepsOrder(db, a, id);
    }
  }

  /**
    The life cycle over every run: from any good database, after any sequence
    of transactions of any number of callers, every history is legal and every
    order has moved only forward.
  */
  lemma {:induction false} LifeCycleHolds(db: Db, acts: seq<DbAction>)
    requires LifeCycles(db)
    ensures LifeCycles(ApplyAll(db, acts)) && DbEvolves(db, ApplyAll(db, acts))
  {
    if acts == [] {
    } else {
      var mid, last := ApplyAll(db, acts[..|acts| - 1]), acts[|acts| - 1];
      LifeCycleHolds(db, acts[..|acts| - 1]);
      StepKeepsLifeCycles(mid, last);
      forall id | id in db.orders
        ensures Evolves(db.orders[id], ApplyAll(db, acts).orders[id])
      {
      }
    }
  }

  // ----- one order per key -----

  /** Every idempotency row names an order and records its result; no two name the same one. */
  ghost predicate KeysNameOrders(db: Db) {
    && (forall k :: k in db.idem ==> db.idem[k].order in db.orders)
    && (forall k :: k in db.idem ==>
          db.idem[k] == PlaceResult(db.idem[k].order, Pending, db.orders[db.idem[k].order].total))
    && (forall k, l :: k in db.idem && l in db.idem && db.idem[k].order == db.idem[l].order ==> k == l)
  }

  /** Every outbox row announces an order; no two announce the same one. */
  ghost predicate RowsNameOrders(db: Db) {
    && (forall i :: 0 <= i < |db.outbox| ==> db.outbox[i].order in db.orders)
    && (forall i, j :: 0 <= i < j < |db.outbox| ==> db.outbox[i].order != db.outbox[j].order)
  }

  ghost predicate HasKey(db: Db, id: OrderId) {
    exists k :: k in db.idem && db.idem[k].order == id
  }

  ghost predicate HasRow(db: Db, id: OrderId) {
    exists i :: 0 <= i < |db.outbox| && db.outbox[i].order == id
  }

  /** Orders, idempotency rows and outbox rows are in bijection. */
  ghost predicate Bijection(db: Db) {
    && KeysNameOrders(db) && RowsNameOrders(db)
    && forall id :: id in db.orders ==> HasKey(db, id) && HasRow(db, id)
  }

  /** An idempotency row, once written, never changes. */
  ghost predicate KeysFixed(db: Db, db': Db) {
    forall k :: k in db.idem ==> k in db'.idem && db'.idem[k] == db.idem[k]
  }

  lemma NamesPersist(db: Db, a: DbAction, id: OrderId)
    requires HasKey(db, id) && HasRow(db, id)
    ensures HasKey(Apply(db, a), id) && HasRow(Apply(db, a), id)
    ensures KeysFixed(db, Apply(db, a))
  {
    var db' := Apply(db, a);
    var k :| k in db.idem && db.idem[k].order == id;
    assert k in db'.idem && db'.idem[k].order == id;
    var i :| 0 <= i < |db.outbox| && db.outbox[i].order == id;
    assert i < |db'.outbox| && db'.outbox[i].order == id;
  }

  lemma KeysStayNamed(db: Db, a: DbAction)
    requires KeysNameOrders(db) && RowsNameOrders(db)
    ensures KeysNameOrders(Apply(db, a)) && RowsNameOrders(Apply(db, a))
    ensures KeysFixed(db, Apply(db, a))
  {
    if a.Place? { PlaceKeepsNames(db, a.r, a.id); }
  }

  lemma PlaceKeepsNames(db: Db, p: Placement, id: OrderId)
    requires KeysNameOrders(db) && RowsNameOrders(db)
    ensures var db' := Apply(db, Place(p, id));
      KeysNameOrders(db') && RowsNameOrders(db') && KeysFixed(db, db')
  {}

  lemma StepKeepsBijection(db: Db, a: DbAction)
    requires Bijection(db)
    ensures Bijection(Apply(db, a)) && KeysFixed(db, Apply(db, a))
  {
    var db' := Apply(db, a);
    KeysStayNamed(db, a);
    forall id | id in db'.orders
      ensures HasKey(db', id) && HasRow(db', id)
    {
      if id in db.orders {
        NamesPersist(db, a, id);
      } else {
        assert db'.idem[a.r.key].order == id;
        assert db'.outbox[|db.outbox|].order == id;
      }
    }
  }

  lemma {:induction false} BijectionHolds(db: Db, acts: seq<DbAction>)
    requires Bijection(db)
    ensures Bijection(ApplyAll(db, acts)) && KeysFixed(db, ApplyAll(db, acts))
  {
    if acts == [] {
    } else {
      BijectionHolds(db, acts[..|acts| - 1]);
      StepKeepsBijection(ApplyAll(db, acts[..|acts| - 1]), acts[|acts| - 1]);
    }
  }

  /** The outbox only grows, keeps every row's order, and only Published marks rows. */
  lemma OutboxGrows(db: Db, a: DbAction)
    ensures |db.outbox| <= |Apply(db, a).outbox|
    ensures forall i :: 0 <= i < |db.outbox| ==> Apply(db, a).outbox[i].order == db.outbox[i].order
    ensures !a.Published? ==> db.outbox <= Apply(db, a).outbox
    ensures !a.Published? ==>
      forall i :: |db.outbox| <= i < |Apply(db, a).outbox| ==> !Apply(db, a).outbox[i].published
  {}
}
