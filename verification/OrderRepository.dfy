/** The order repository as an object: tables updated in place, one method per transaction. */
module OrderRepositories {
  import opened OrderModel
  import opened Common

  class OrderRepository {
    var orders: map<OrderId, Order>
    var outbox: seq<OutboxRow>
    var idempotency: map<Key, PlaceResult>

    function View(): Db
      reads this
    {
      Db(orders, outbox, idempotency)
    }

    constructor ()
      ensures View() == EMPTY
    {
      orders, outbox, idempotency := map[], [], map[];
    }

    method FindIdempotency(key: Key) returns (found: bool, res: PlaceResult)
      ensures found <==> key in idempotency
      ensures found ==> res == idempotency[key]
    {
      found := key in idempotency;
      res := if found then idempotency[key] else PlaceResult(0, Pending, "");
    }

    /** id is the UUID drawn inside the transaction. */
    method PlaceOrder(p: Placement, id: OrderId) returns (res: PlaceResult)
      requires id !in orders
      modifies this
      ensures (View(), res) == PlaceTx(old(View()), p, id)
    {
      if p.key in idempotency {
        return idempotency[p.key];
      }
      orders := orders[id := Order(p.user, p.total, p.payment, p.lines, Pending, false, [Pending])];
      outbox := outbox + [OutboxRow(id, false)];
      res := PlaceResult(id, Pending, p.total);
      idempotency := idempotency[p.key := res];
    }

    method FindById(id: OrderId) returns (r: Result<Order>)
      ensures r == if id in orders then Ok(orders[id]) else Err(NotFound)
    {
      if id in orders { r := Ok(orders[id]); } else { r := Err(NotFound); }
    }

    method Cancel(id: OrderId, softDelete: bool) returns (r: Result<Order>)
      modifies this
      ensures (View(), r) == CancelTx(old(View()), id, softDelete)
    {
      if id !in orders {
        return Err(NotFound);
      }
      var order := orders[id];
      if order.status != Pending && order.status != Cancelled {
        if !softDelete {
          return Err(Unprocessable);
        }
      }
      order := order.(status := Cancelled);
      if softDelete {
        order := order.(softDeleted := true);
      }
      order := order.(history := order.history + [Cancelled]);
      orders := orders[id := order];
      r := Ok(order);
    }

    method MarkStatus(id: OrderId, status: Status) returns (r: Result<Order>)
      modifies this
      ensures (View(), r) == MarkTx(old(View()), id, status)
    {
      if id !in orders {
        return Err(NotFound);
      }
      var order := orders[id];
      if order.status != Pending {
        return Ok(order);
      }
      order := order.(status := status, history := order.history + [status]);
      orders := orders[id := order];
      r := Ok(order);
    }

    /** SELECT ... WHERE published_at IS NULL ORDER BY created_at LIMIT limit. */
    method ClaimOutboxBatch(limit: nat) returns (batch: seq<nat>)
      ensures batch == Claim(outbox, 0, limit)
    {
      batch := [];
      var i := 0;
      while i < |outbox| && |batch| < limit
        invariant 0 <= i <= |outbox| && |batch| <= limit
        invariant Claim(outbox, 0, limit) == batch + Claim(outbox, i, limit - |batch|)
      {
        if !outbox[i].published {
          batch := batch + [i];
        }
        i := i + 1;
      }
    }

    /** UPDATE ... SET published_at = now() WHERE id IN (ids). */
    method MarkOutboxPublished(ids: seq<nat>)
      modifies this
      ensures View() == old(View()).(outbox := Publish(old(outbox), ids))
    {
      var k := 0;
      while k < |ids|
        invariant 0 <= k <= |ids|
        invariant orders == old(orders) && idempotency == old(idempotency)
        invariant outbox == Publish(old(outbox), ids[..k])
      {
        assert ids[..k + 1] == ids[..k] + [ids[k]];
        if ids[k] < |outbox| {
          outbox := outbox[ids[k] := outbox[ids[k]].(published := true)];
        }
        k := k + 1;
      }
      assert ids[..k] == ids;
    }
  }
}
