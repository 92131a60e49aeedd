/** The polling outbox relay: one tick as the program runs it, and a sequence of ticks. */
module OutboxRelays {
  import opened OrderModel
  import opened Common
  import opened OrderRepositories

  /** One order.created message: the row it came from and the order it names. */
  datatype Message = Message(row: nat, order: OrderId)

  /** The publisher's log; send number failAt, if it comes to that, throws. */
  class Publisher {
    var published: seq<Message>

    constructor ()
      ensures published == []
    {
      published := [];
    }

    method Publish(m: Message)
      modifies this
      ensures published == old(published) + [m]
    {
      published := published + [m];
    }
  }

  /** What announces these rows: each message carries its row's order. */
  function Messages(outbox: seq<OutboxRow>, rows: seq<nat>): (ms: seq<Message>)
    requires forall i :: 0 <= i < |rows| ==> rows[i] < |outbox|
    ensures |ms| == |rows|
    ensures forall i :: 0 <= i < |ms| ==> ms[i].row == rows[i] && ms[i].order == outbox[rows[i]].order
  {
    seq(|rows|, i requires 0 <= i < |rows| => Message(rows[i], outbox[rows[i]].order))
  }

  class OutboxRelay {
    const orders: OrderRepository
    const publisher: Publisher

    constructor (orders: OrderRepository, publisher: Publisher)
      ensures this.orders == orders && this.publisher == publisher
    {
      this.orders, this.publisher := orders, publisher;
    }

    /**
      One tick.  Publish call number failAt throws, and so may the claim and the
      mark; a tick that fails keeps what it sent and marks nothing.
    */
    method Tick(claimThrows: bool, failAt: nat, markThrows: bool) returns (r: Result<nat>)
      modifies orders, publisher
      ensures var batch := if claimThrows then [] else Claim(old(orders.outbox), 0, BATCH);
        var sent := if failAt < |batch| then batch[..failAt] else batch;
        && (r.Err? <==> claimThrows || failAt < |batch| || (batch != [] && markThrows))
        && r == (if r.Err? then Err(Upstream) else Ok(|batch|))
        && publisher.published == old(publisher.published) + Messages(old(orders.outbox), sent)
        && orders.View() == if r.Err? then old(orders.View())
                            else old(orders.View()).(outbox := OrderModel.Publish(old(orders.outbox), batch))
    {
      if claimThrows {
        return Err(Upstream);
      }
      var batch := orders.ClaimOutboxBatch(BATCH);
      if |batch| == 0 {
        assert OrderModel.Publish(orders.outbox, batch) == orders.outbox;
        return Ok(0);
      }
      var k := 0;
      while k < |batch|
        invariant 0 <= k <= |batch| && k <= failAt
        invariant orders.View() == old(orders.View())
        invariant publisher.published == old(publisher.published) + Messages(orders.outbox, batch[..k])
      {
        if k == failAt {
          return Err(Upstream);
        }
        publisher.Publish(Message(batch[k], orders.outbox[batch[k]].order));
        assert batch[..k + 1] == batch[..k] + [batch[k]];
        k := k + 1;
      }
      assert batch[..k] == batch;
      if markThrows {
        return Err(Upstream);
      }
      orders.MarkOutboxPublished(batch);
      r := Ok(|batch|);
    }
  }

  // ----- draining -----

  /** All unpublished rows, oldest first. */
  function Unpublished(outbox: seq<OutboxRow>): seq<nat> {
    Claim(outbox, 0, |outbox|)
  }

  /** The outbox and the rows sent after k successful ticks that do not overlap. */
  function Ticks(outbox: seq<OutboxRow>, k: nat): (r: (seq<OutboxRow>, seq<nat>)) {
    if k == 0 then (outbox, [])
    else
      var (o, sent) := Ticks(outbox, k - 1);
      var batch := Claim(o, 0, BATCH);
      (OrderModel.Publish(o, batch), sent + batch)
  }

  /** A claim with a larger limit extends one with a smaller limit. */
  lemma {:induction false} ClaimPrefix(outbox: seq<OutboxRow>, i: nat, limit: nat, more: nat)
    requires i <= |outbox| && |outbox| - i <= more
    ensures Claim(outbox, i, limit) == Claim(outbox, i, more)[..Min(limit, |Claim(outbox, i, more)|)]
    decreases |outbox| - i
  {
    if i < |outbox| && limit > 0 {
      if outbox[i].published {
        ClaimPrefix(outbox, i + 1, limit, more);
        ClaimWidth(outbox, i + 1, more);
      } else {
        ClaimPrefix(outbox, i + 1, limit - 1, more - 1);
      }
    }
  }

  lemma {:induction false} ClaimWidth(outbox: seq<OutboxRow>, i: nat, more: nat)
    requires i <= |outbox| && |outbox| - i <= more
    ensures Claim(outbox, i, more) == Claim(outbox, i, |outbox| - i)
    decreases |outbox| - i
  {
    if i < |outbox| {
      ClaimWidth(outbox, i + 1, if outbox[i].published then more else more - 1);
      if outbox[i].published { ClaimWidth(outbox, i + 1, |outbox| - i); }
    }
  }

  /** From position i on, o is the outbox with the rows of batch published. */
  ghost predicate PublishedFrom(outbox: seq<OutboxRow>, o: seq<OutboxRow>, i: nat, batch: seq<nat>) {
    |o| == |outbox| && forall j :: i <= j < |o| ==> o[j].published == (outbox[j].published || j in batch)
  }

  /** Publishing the first rows of a claim leaves the others, in the same order. */
  lemma {:induction false} ClaimAfterPublish(outbox: seq<OutboxRow>, o: seq<OutboxRow>, i: nat, limit: nat)
    requires i <= |outbox| && PublishedFrom(outbox, o, i, Claim(outbox, i, limit))
    ensures var all := Claim(outbox, i, |outbox| - i);
      |Claim(outbox, i, limit)| <= |all| && Claim(o, i, |o| - i) == all[|Claim(outbox, i, limit)|..]
    decreases |outbox| - i
  {
    var n := |outbox| - i;
    if n == 0 || limit == 0 {
      assert Claim(outbox, i, limit) == [];
      ClaimSame(outbox, o, i, n);
    } else if outbox[i].published {
      ClaimAfterPublish(outbox, o, i + 1, limit);
      SkipHead(outbox, o, i, limit);
    } else {
      ClaimAfterPublish(outbox, o, i + 1, limit - 1);
      DropHead(outbox, o, i, limit);
    }
  }

  lemma DropHead(outbox: seq<OutboxRow>, o: seq<OutboxRow>, i: nat, limit: nat)
    requires i < |outbox| == |o| && limit > 0 && !outbox[i].published && o[i].published
    requires var n := |outbox| - i - 1;
      var k := |Claim(outbox, i + 1, limit - 1)|;
      k <= |Claim(outbox, i + 1, n)| && Claim(o, i + 1, n) == Claim(outbox, i + 1, n)[k..]
    ensures var all := Claim(outbox, i, |outbox| - i);
      |Claim(outbox, i, limit)| <= |all| && Claim(o, i, |o| - i) == all[|Claim(outbox, i, limit)|..]
  {
    SkipPublished(o, i);
    var n := |outbox| - i;
  }

  lemma SkipPublished(outbox: seq<OutboxRow>, i: nat)
    requires i < |outbox| && outbox[i].published
    ensures Claim(outbox, i, |outbox| - i) == Claim(outbox, i + 1, |outbox| - i - 1)
  {
    ClaimWidth(outbox, i + 1, |outbox| - i);
  }

  lemma SkipHead(outbox: seq<OutboxRow>, o: seq<OutboxRow>, i: nat, limit: nat)
    requires i < |outbox| == |o| && limit > 0 && outbox[i].published && o[i].published
    requires var n := |outbox| - i - 1;
      var k := |Claim(outbox, i + 1, limit)|;
      k <= |Claim(outbox, i + 1, n)| && Claim(o, i + 1, n) == Claim(outbox, i + 1, n)[k..]
    ensures var all := Claim(outbox, i, |outbox| - i);
      |Claim(outbox, i, limit)| <= |all| && Claim(o, i, |o| - i) == all[|Claim(outbox, i, limit)|..]
  {
    SkipPublished(outbox, i);
    SkipPublished(o, i);
  }

  lemma {:induction false} ClaimSame(a: seq<OutboxRow>, b: seq<OutboxRow>, i: nat, limit: nat)
    requires |a| == |b| && i <= |a| && forall j :: i <= j < |a| ==> a[j].published == b[j].published
    ensures Claim(a, i, limit) == Claim(b, i, limit)
    decreases |a| - i
  {
    if i < |a| && limit > 0 {
      ClaimSame(a, b, i + 1, if a[i].published then limit else limit - 1);
    }
  }

  /** One tick takes the oldest rows off the front of the unpublished ones. */
  lemma {:induction false} TickTakesFront(outbox: seq<OutboxRow>)
    ensures var batch := Claim(outbox, 0, BATCH);
      var n := Min(BATCH, |Unpublished(outbox)|);
      batch == Unpublished(outbox)[..n]
      && Unpublished(OrderModel.Publish(outbox, batch)) == Unpublished(outbox)[n..]
  {
    ClaimPrefix(outbox, 0, BATCH, |outbox|);
    ClaimAfterPublish(outbox, OrderModel.Publish(outbox, Claim(outbox, 0, BATCH)), 0, BATCH);
  }

  /** k ticks sent the rows they could, in order, and the others are what is left. */
  ghost predicate Drained(outbox: seq<OutboxRow>, k: nat) {
    var m := Share(outbox, k);
    Ticks(outbox, k).1 == Unpublished(outbox)[..m] && Unpublished(Ticks(outbox, k).0) == Unpublished(outbox)[m..]
  }

  /**
    With ticks that neither overlap nor fail and no new rows, k ticks send the
    first of the unpublished rows, fifty a tick, each once and in creation order.
  */
  lemma {:induction false} DrainsInOrder(outbox: seq<OutboxRow>, k: nat)
    ensures Drained(outbox, k)
  {
    var i := 0;
    DrainsStep(outbox, 0);
    while i < k
      invariant i <= k && Drained(outbox, i)
    {
      i := i + 1;
      DrainsStep(outbox, i);
    }
  }

  lemma DrainsStep(outbox: seq<OutboxRow>, k: nat)
    requires k > 0 ==> Drained(outbox, k - 1)
    ensures Drained(outbox, k)
  {
    if k == 0 {
      assert Unpublished(outbox)[..0] == [] && Unpublished(outbox)[0..] == Unpublished(outbox);
    } else {
      OneMoreTick(outbox, k);
    }
  }

  /** How many rows k ticks can send. */
  function Share(outbox: seq<OutboxRow>, k: nat): (m: nat)
    ensures m <= |Unpublished(outbox)|
  {
    if k == 0 then 0 else Min(Share(outbox, k - 1) + BATCH, |Unpublished(outbox)|)
  }

  lemma {:induction false} ShareIsFifties(outbox: seq<OutboxRow>, k: nat)
    ensures Share(outbox, k) == Min(BATCH * k, |Unpublished(outbox)|)
  {
    if k == 0 {
    } else {
      ShareIsFifties(outbox, k - 1);
    }
  }

  lemma OneMoreTick(outbox: seq<OutboxRow>, k: nat)
    requires k > 0 && Drained(outbox, k - 1)
    ensures Drained(outbox, k)
  {
    TickExtends(Ticks(outbox, k - 1).0, Ticks(outbox, k - 1).1, Unpublished(outbox), Share(outbox, k - 1));
  }

  /** If the first m of the rows u were sent and the others are left, a tick sends the next fifty. */
  lemma TickExtends(o: seq<OutboxRow>, sent: seq<nat>, u: seq<nat>, m: nat)
    requires m <= |u| && sent == u[..m] && Unpublished(o) == u[m..]
    ensures var n := Min(m + BATCH, |u|);
      var batch := Claim(o, 0, BATCH);
      sent + batch == u[..n] && Unpublished(OrderModel.Publish(o, batch)) == u[n..]
  {
    TickTakesFront(o);
  }

  /** The outbox is empty after k ticks exactly when k is at least ceil(n / 50). */
  lemma DrainTime(outbox: seq<OutboxRow>, k: nat)
    ensures Unpublished(Ticks(outbox, k).0) == [] <==> k >= (|Unpublished(outbox)| + BATCH - 1) / BATCH
  {
    DrainsInOrder(outbox, k);
    ShareIsFifties(outbox, k);
  }

  /** r lists exactly the unpublished rows from i on, ascending. */
  ghost predicate Lists(outbox: seq<OutboxRow>, i: nat, r: seq<nat>) {
    && (forall j :: j in r <==> i <= j < |outbox| && !outbox[j].published)
    && forall a, b :: 0 <= a < b < |r| ==> r[a] < r[b]
  }

  /** The rows a claim lists are exactly the unpublished ones, ascending, so each appears once. */
  lemma ClaimIsUnpublished(outbox: seq<OutboxRow>)
    ensures Lists(outbox, 0, Unpublished(outbox))
  {
    var i := |outbox|;
    while i > 0
      invariant 0 <= i <= |outbox| && Lists(outbox, i, Claim(outbox, i, |outbox| - i))
    {
      i := i - 1;
      ClaimListsOneMore(outbox, i);
    }
  }

  lemma ClaimListsOneMore(outbox: seq<OutboxRow>, i: nat)
    requires i < |outbox| && Lists(outbox, i + 1, Claim(outbox, i + 1, |outbox| - i - 1))
    ensures Lists(outbox, i, Claim(outbox, i, |outbox| - i))
  {
    ClaimHead(outbox, i);
    ListsStep(outbox, i, Claim(outbox, i + 1, |outbox| - i - 1), Claim(outbox, i, |outbox| - i));
  }

  lemma ClaimHead(outbox: seq<OutboxRow>, i: nat)
    requires i < |outbox|
    ensures var rest := Claim(outbox, i + 1, |outbox| - i - 1);
      Claim(outbox, i, |outbox| - i) == if outbox[i].published then rest else [i] + rest
  {
    ClaimWidth(outbox, i + 1, |outbox| - i);
  }

  lemma ListsStep(outbox: seq<OutboxRow>, i: nat, rest: seq<nat>, r: seq<nat>)
    requires i < |outbox| && Lists(outbox, i + 1, rest)
    requires r == if outbox[i].published then rest else [i] + rest
    ensures Lists(outbox, i, r)
  {
    forall a, b | 0 <= a < b < |[i] + rest| ensures ([i] + rest)[a] < ([i] + rest)[b] {
      if a == 0 { assert rest[b - 1] in rest; } else { assert rest[a - 1] < rest[b - 1]; }
    }
  }
}
