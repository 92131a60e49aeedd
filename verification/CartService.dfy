/** The cart service over the Redis hash store and the Postgres snapshot. */
module CartServices {
  import opened Money
  import opened CartModel
  import opened Text
  import opened Common

  datatype Value = Item(item: CartItem) | Total(text: string)
  type Hash = map<string, Value>

  datatype Error = NotFound | Invalid | Unprocessable
  /** The cart returned, or the refusal. */
  datatype Cart = Cart(items: seq<CartItem>, total: string)
  type Result = Either<Cart, Error>

  datatype Snapshot = Snapshot(items: seq<CartItem>, total: string)

  /** The line fields of the hash. */
  function LineFields(items: seq<CartItem>): Hash {
    map k | k in Fields(items) :: Item(Fields(items)[k])
  }

  /** The hash saveItems writes. */
  function HashOf(items: seq<CartItem>, total: string): Hash {
    LineFields(items)["total" := Total(total)]
  }

  /** The lines a hash holds. */
  function LinesIn(h: Hash): Lines {
    map k | k in h && k != "total" && k != "itemCount" && h[k].Item? :: h[k].item
  }

  /** Every field but the totals holds a line under its own key. */
  predicate WellFormed(h: Hash) {
    forall k :: k in h && k != "total" && k != "itemCount" ==> h[k].Item? && KeyOf(h[k].item) == k
  }

  lemma {:induction false} FieldsUnderKeys(items: seq<CartItem>)
    ensures forall k :: k in Fields(items) ==> KeyOf(Fields(items)[k]) == k && ':' in k
  {
    if items == [] {
    } else {
      FieldsUnderKeys(items[..|items| - 1]);
      var i := items[|items| - 1];
      assert KeyOf(i)[|i.productId|] == ':';
    }
  }

  lemma TotalsAreNoLines(items: seq<CartItem>)
    ensures "total" !in Fields(items) && "itemCount" !in Fields(items)
  {
    FieldsUnderKeys(items);
  }

  /** Loading what was saved gives the same lines: the total's field is never a line's. */
  lemma SaveThenLoad(items: seq<CartItem>, total: string)
    ensures LinesIn(HashOf(items, total)) == Fields(items)
    ensures WellFormed(HashOf(items, total))
    ensures "total" in HashOf(items, total) && HashOf(items, total)["total"] == Total(total)
  {
    TotalsAreNoLines(items);
    var h := HashOf(items, total);
    forall k | k in Fields(items) ensures k in h && h[k] == Item(Fields(items)[k]) && KeyOf(Fields(items)[k]) == k {
      FieldsUnderKeys(items);
    }
    assert LinesIn(h).Keys == Fields(items).Keys;
  }

  class RedisCartStore {
    var carts: map<UserId, Hash>

    constructor ()
      ensures carts == map[]
    {
      carts := map[];
    }

    /** The key's time to live ran out. */
    method Expire(u: UserId)
      modifies this
      ensures carts == old(carts) - {u}
    {
      carts := carts - {u};
    }

    /** HGETALL, then every field but the totals, in whatever order the fields come. */
    method GetItems(u: UserId) returns (items: seq<CartItem>)
      requires u in carts ==> WellFormed(carts[u])
      ensures Keyed(items) && Fields(items) == if u in carts then LinesIn(carts[u]) else map[]
    {
      items := [];
      if u !in carts {
        return;
      }
      var raw := carts[u];
      var rest := raw.Keys;
      while rest != {}
        invariant rest <= raw.Keys && Keyed(items)
        invariant Fields(items) == LinesIn(raw) - rest
      {
        var field :| field in rest;
        ghost var before := rest;
        rest := rest - {field};
        if field == "total" || field == "itemCount" {
          assert LinesIn(raw) - rest == LinesIn(raw) - before;
        } else {
          var item := raw[field].item;
          KeyedAppend(items, item);
          FieldsAppend(items, item);
          LineTaken(raw, before, field);
          items := items + [item];
        }
      }
    }

    /** DEL, one HSET per line, the total, EXPIRE: one pipeline. */
    method SaveItems(u: UserId, items: seq<CartItem>)
      modifies this
      ensures carts == old(carts)[u := HashOf(items, ComputeTotal(items))]
    {
      var h := HsetLines(items);
      h := h["total" := Total(ComputeTotal(items))];
      carts := carts[u := h];
    }

    method HsetLines(items: seq<CartItem>) returns (h: Hash)
      ensures h == LineFields(items)
    {
      h := map[];
      var i := 0;
      while i < |items|
        invariant 0 <= i <= |items|
        invariant h == LineFields(items[..i])
      {
        assert items[..i + 1] == items[..i] + [items[i]];
        FieldsAppend(items[..i], items[i]);
        h := h[ItemKey(items[i].productId, items[i].variantId) := Item(items[i])];
        i := i + 1;
      }
      assert items[..i] == items;
    }

    method Clear(u: UserId)
      modifies this
      ensures carts == old(carts) - {u}
    {
      carts := carts - {u};
    }
  }

  /** Reading one more field that holds a line. */
  lemma LineTaken(h: Hash, before: set<string>, field: string)
    requires WellFormed(h) && before <= h.Keys && field in before && field != "total" && field != "itemCount"
    ensures LinesIn(h) - (before - {field}) == (LinesIn(h) - before)[field := h[field].item]
  {}

  lemma KeyedAppend(items: seq<CartItem>, x: CartItem)
    requires Keyed(items) && KeyOf(x) !in Fields(items)
    ensures Keyed(items + [x])
  {
    FieldsOfKeyed(items);
  }

  class CartSnapshotRepository {
    var rows: map<UserId, Snapshot>

    constructor ()
      ensures rows == map[]
    {
      rows := map[];
    }

    method Upsert(u: UserId, items: seq<CartItem>, total: string)
      modifies this
      ensures rows == old(rows)[u := Snapshot(items, total)]
    {
      rows := rows[u := Snapshot(items, total)];
    }

    method Delete(u: UserId)
      modifies this
      ensures rows == old(rows) - {u}
    {
      rows := rows - {u};
    }
  }

  /**
    While a cart has not expired its hash is the snapshot's lines, each key once,
    and the hash total, the snapshot total and computeTotal are the same string.
  */
  ghost predicate Agree(carts: map<UserId, Hash>, rows: map<UserId, Snapshot>) {
    forall u :: u in carts ==> u in rows && Agreed(carts[u], rows[u])
  }

  ghost predicate Agreed(h: Hash, row: Snapshot) {
    Keyed(row.items) && h == HashOf(row.items, row.total) && row.total == ComputeTotal(row.items)
  }

  /** The cart fits the range in which binary64 totals print exactly. */
  predicate Printable(items: seq<CartItem>) {
    |items| <= MAX_LINES && Exact(PricedItems(items)) <= MAX_TOTAL
  }

  function LinesOf(carts: map<UserId, Hash>, u: UserId): Lines {
    if u in carts then LinesIn(carts[u]) else map[]
  }

  /** One user's hash is not another's. */
  lemma OthersLines(carts: map<UserId, Hash>, u: UserId, h: Hash)
    ensures forall v :: v != u ==> LinesOf(carts[u := h], v) == LinesOf(carts, v)
  {}

  /** Lines read back in any order add up to the stored total. */
  lemma StoredTotal(h: Hash, row: Snapshot, items: seq<CartItem>)
    requires Agreed(h, row) && Keyed(items) && Fields(items) == LinesIn(h)
    ensures Printable(row.items) ==> ComputeTotal(items) == row.total
  {
    SaveThenLoad(row.items, row.total);
    if Printable(row.items) { TotalIgnoresOrder(row.items, items); }
  }

  lemma NoFieldsNoLines(items: seq<CartItem>)
    requires Fields(items) == map[]
    ensures items == []
  {
    if items == [] {
    } else {
      LinesHaveFields(items);
    }
  }

  lemma LinesHaveFields(items: seq<CartItem>)
    requires items != []
    ensures Fields(items) != map[]
  {
    assert KeyOf(items[|items| - 1]) in Fields(items);
  }

  class CartService {
    const store: RedisCartStore
    const snapshot: CartSnapshotRepository

    constructor (store: RedisCartStore, snapshot: CartSnapshotRepository)
      ensures this.store == store && this.snapshot == snapshot
    {
      this.store, this.snapshot := store, snapshot;
    }

    ghost predicate Valid()
      reads store, snapshot
    {
      Agree(store.carts, snapshot.rows)
    }

    ghost predicate Unchanged(carts: map<UserId, Hash>, rows: map<UserId, Snapshot>)
      reads store, snapshot
    {
      store.carts == carts && snapshot.rows == rows
    }

    /** The user's lines are m, as returned, everybody else's are as before, and all totals agree. */
    ghost predicate Now(carts: map<UserId, Hash>, u: UserId, m: Lines, items: seq<CartItem>, total: string)
      reads store, snapshot
    {
      && Valid() && u in store.carts
      && LinesOf(store.carts, u) == m && Keyed(items) && Fields(items) == m
      && (forall v :: v != u ==> LinesOf(store.carts, v) == LinesOf(carts, v))
      && "total" in store.carts[u] && store.carts[u]["total"] == Total(total) && snapshot.rows[u].total == total
      && PrintsExactly(items, total)
    }

    /** The key's time to live runs out; the snapshot stays. */
    method KeyExpires(u: UserId)
      requires Valid()
      modifies store
      ensures Valid() && LinesOf(store.carts, u) == map[] && store.carts == old(store.carts) - {u}
    {
      store.Expire(u);
    }

    /** The lines shown are those stored and so is the total, in whatever order the lines come back. */
    method GetCart(u: UserId) returns (r: Result)
      requires Valid()
      ensures r.Err? <==> Blank(u)
      ensures r.Ok? ==> Keyed(r.value.items) && Fields(r.value.items) == LinesOf(store.carts, u)
      ensures r.Ok? ==> r.value.total == ComputeTotal(r.value.items) && PrintsExactly(r.value.items, r.value.total)
      ensures r.Ok? && u !in store.carts ==> r == Ok(Cart([], ComputeTotal([])))
      ensures r.Ok? && u in store.carts && Printable(snapshot.rows[u].items) ==> r.value.total == snapshot.rows[u].total
    {
      if Blank(u) {
        return Err(Invalid);
      }
      var items := Load(u);
      TotalPrints(items);
      if u !in store.carts {
        NoFieldsNoLines(items);
        return Ok(Cart([], ComputeTotal([])));
      }
      StoredTotal(store.carts[u], snapshot.rows[u], items);
      r := Ok(Cart(items, ComputeTotal(items)));
    }

    method Load(u: UserId) returns (items: seq<CartItem>)
      requires Valid()
      ensures Keyed(items) && Fields(items) == LinesOf(store.carts, u)
    {
      if u in store.carts {
        assert Agreed(store.carts[u], snapshot.rows[u]);
        SaveThenLoad(snapshot.rows[u].items, snapshot.rows[u].total);
      }
      items := store.GetItems(u);
    }

    method Persist(u: UserId, items: seq<CartItem>) returns (r: Result)
      requires Valid() && Keyed(items)
      modifies store, snapshot
      ensures r == Ok(Cart(items, ComputeTotal(items)))
          && Now(old(store.carts), u, Fields(items), items, ComputeTotal(items))
    {
      var total := ComputeTotal(items);
      TotalPrints(items);
      SaveThenLoad(items, total);
      store.SaveItems(u, items);
      OthersLines(old(store.carts), u, HashOf(items, total));
      snapshot.Upsert(u, items, total);
      r := Ok(Cart(items, total));
    }

    /** price is the catalog's answer for this product and variant. */
    method AddItem(u: UserId, p: string, v: string, quantity: int, price: Price) returns (r: Result)
      requires Valid()
      modifies store, snapshot
      ensures r.Err? ==> Unchanged(old(store.carts), old(snapshot.rows))
      ensures r.Ok? <==> !Blank(u) && quantity >= 1 && price.Price?
      ensures r == Err(Invalid) <==> Blank(u) || quantity < 1
      ensures r.Ok? ==> Now(old(store.carts), u, Add(LinesOf(old(store.carts), u), p, v, price, quantity),
          r.value.items, r.value.total)
      ensures r.Ok? ==>
        var key, m, m' := p + ":" + v, LinesOf(old(store.carts), u), LinesOf(store.carts, u);
        && m'.Keys == m.Keys + {key} && m' - {key} == m - {key}
        && SoldAs(m'[key], if key in m then m[key] else CartItem(p, v, "", 0, 0), price,
                  if key in m then m[key].quantity + quantity else quantity)
    {
      if Blank(u) || quantity < 1 {
        return Err(Invalid);
      }
      if price.Unavailable? {
        return Err(Unprocessable);
      }
      var items := Load(u);
      AddSells(LinesOf(store.carts, u), p, v, price, quantity);
      items := AddTo(items, p, v, quantity, price);
      r := Persist(u, items);
    }

    /** Adds to the existing line at the new price, or pushes a new line. */
    method AddTo(items: seq<CartItem>, p: string, v: string, quantity: nat, price: Price) returns (r: seq<CartItem>)
      requires Keyed(items) && price.Price?
      ensures Keyed(r) && Fields(r) == Add(Fields(items), p, v, price, quantity)
    {
      var j := Find(items, ItemKey(p, v));
      if j < |items| {
        var item := items[j].(quantity := items[j].quantity + quantity, unitPrice := price.unitPrice,
                              variantLabel := price.variantLabel);
        FieldsOfKeyed(items);
        FieldsUpdate(items, j, item);
        r := items[j := item];
      } else {
        var item := CartItem(p, v, price.variantLabel, price.unitPrice, quantity);
        NotFoundNotField(items, ItemKey(p, v));
        KeyedAppend(items, item);
        FieldsAppend(items, item);
        r := items + [item];
      }
    }

    /** items.find by key: its position, or the length. */
    method Find(items: seq<CartItem>, key: string) returns (j: nat)
      ensures j <= |items| && (j < |items| ==> KeyOf(items[j]) == key)
      ensures forall i :: 0 <= i < j ==> KeyOf(items[i]) != key
    {
      j := 0;
      while j < |items|
        invariant j <= |items| && forall i :: 0 <= i < j ==> KeyOf(items[i]) != key
      {
        if KeyOf(items[j]) == key {
          return;
        }
        j := j + 1;
      }
    }

    method UpdateItem(u: UserId, p: string, v: string, quantity: int, price: Price) returns (r: Result)
      requires Valid()
      modifies store, snapshot
      ensures r.Err? ==> Unchanged(old(store.carts), old(snapshot.rows))
      ensures var m := LinesOf(old(store.carts), u);
        && (r.Ok? <==> !Blank(u) && quantity >= 1 && ItemKey(p, v) in m && price.Price?)
        && (r == Err(Invalid) <==> Blank(u) || quantity < 1)
        && (r == Err(NotFound) <==> !Blank(u) && quantity >= 1 && ItemKey(p, v) !in m)
        && (r.Ok? ==> Now(old(store.carts), u,
              m[ItemKey(p, v) := Repriced(m[ItemKey(p, v)], price).(quantity := quantity)], r.value.items,
                  r.value.total))
      ensures r.Ok? ==>
        var key, m, m' := p + ":" + v, LinesOf(old(store.carts), u), LinesOf(store.carts, u);
        key in m && m'.Keys == m.Keys && m' - {key} == m - {key} && SoldAs(m'[key], m[key], price, quantity)
    {
      if Blank(u) || quantity < 1 {
        return Err(Invalid);
      }
      var items := Load(u);
      var j := Find(items, ItemKey(p, v));
      if j == |items| {
        NotFoundNotField(items, ItemKey(p, v));
        return Err(NotFound);
      }
      FieldsOfKeyed(items);
      if price.Unavailable? {
        return Err(Unprocessable);
      }
      UpdateSells(LinesOf(store.carts, u), ItemKey(p, v), price, quantity);
      r := PutLine(u, items, j, Repriced(items[j], price).(quantity := quantity));
    }

    method PutLine(u: UserId, items: seq<CartItem>, j: nat, item: CartItem) returns (r: Result)
      requires Valid() && Keyed(items) && j < |items| && KeyOf(item) == KeyOf(items[j])
      modifies store, snapshot
      ensures r.Ok? && Now(old(store.carts), u, Fields(items)[KeyOf(item) := item], r.value.items, r.value.total)
    {
      FieldsUpdate(items, j, item);
      r := Persist(u, items[j := item]);
    }

    method RemoveItem(u: UserId, p: string, v: string) returns (r: Result)
      requires Valid()
      modifies store, snapshot
      ensures r.Err? ==> Unchanged(old(store.carts), old(snapshot.rows))
      ensures var m := LinesOf(old(store.carts), u);
        && (r.Ok? <==> !Blank(u) && ItemKey(p, v) in m)
        && (r == Err(NotFound) <==> !Blank(u) && ItemKey(p, v) !in m)
        && (r.Ok? ==> Now(old(store.carts), u, m - {p + ":" + v}, r.value.items, r.value.total))
    {
      if Blank(u) {
        return Err(Invalid);
      }
      var items := Load(u);
      var j := Find(items, ItemKey(p, v));
      if j == |items| {
        NotFoundNotField(items, ItemKey(p, v));
        return Err(NotFound);
      }
      FieldsOfKeyed(items);
      FieldsDrop(items, j);
      r := Persist(u, Drop(items, j));
    }

    method ClearCart(u: UserId) returns (r: Result)
      requires Valid()
      modifies store, snapshot
      ensures r.Ok? <==> !Blank(u)
      ensures r.Err? ==> Unchanged(old(store.carts), old(snapshot.rows))
      ensures r.Ok? ==> Valid() && store.carts == old(store.carts) - {u} && snapshot.rows == old(snapshot.rows) - {u}
      ensures r.Ok? ==> r == Ok(Cart([], ComputeTotal([])))
    {
      if Blank(u) {
        return Err(Invalid);
      }
      store.Clear(u);
      snapshot.Delete(u);
      r := Ok(Cart([], ComputeTotal([])));
    }

    /** Re-prices every line, or refuses and changes nothing. */
    method PriceCart(u: UserId, cat: Catalog) returns (r: Result)
      requires Valid()
      modifies store, snapshot
      ensures r.Err? ==> Unchanged(old(store.carts), old(snapshot.rows))
      ensures r.Ok? <==> !Blank(u) && AllAvailable(LinesOf(old(store.carts), u), cat)
      ensures r.Ok? ==> Now(old(store.carts), u, PriceAll(LinesOf(old(store.carts), u), cat), r.value.items,
          r.value.total)
      ensures r.Ok? ==>
        var m, m' := LinesOf(old(store.carts), u), LinesOf(store.carts, u);
        m'.Keys == m.Keys
        && forall k :: k in m ==> SoldAs(m'[k], m[k], cat(m[k].productId, m[k].variantId), m[k].quantity)
      ensures r.Ok? ==> forall i :: 0 <= i < |r.value.items| ==>
        var line := r.value.items[i];
        KeyOf(line) in LinesOf(old(store.carts), u)
        && SoldAs(line, line, cat(line.productId, line.variantId), line.quantity)
    {
      if Blank(u) {
        return Err(Invalid);
      }
      var items := Load(u);
      var available, priced := Reprice(items, cat);
      if !available {
        return Err(Unprocessable);
      }
      PriceSells(LinesOf(store.carts, u), cat);
      FieldsOfKeyed(priced);
      r := Persist(u, priced);
    }

    /** The price loop: stops at the first line the catalog refuses. */
    method Reprice(items: seq<CartItem>, cat: Catalog) returns (available: bool, priced: seq<CartItem>)
      requires Keyed(items)
      ensures available <==> AllAvailable(Fields(items), cat)
      ensures available ==> Keyed(priced) && Fields(priced) == PriceAll(Fields(items), cat)
    {
      FieldsOfKeyed(items);
      priced := [];
      var i := 0;
      while i < |items|
        invariant 0 <= i <= |items| && RepricedTo(items[..i], priced, cat)
      {
        var price := cat(items[i].productId, items[i].variantId);
        if price.Unavailable? {
          return false, [];
        }
        assert items[..i + 1] == items[..i] + [items[i]];
        priced := priced + [Repriced(items[i], price)];
        i := i + 1;
      }
      assert items[..i] == items;
      RepricedFields(items, priced, cat);
      available := true;
    }
  }

  lemma {:induction false} NotFoundNotField(items: seq<CartItem>, key: string)
    requires Keyed(items) && forall i :: 0 <= i < |items| ==> KeyOf(items[i]) != key
    ensures key !in Fields(items)
  {
    FieldsOfKeyed(items);
  }

  ghost predicate RepricedTo(items: seq<CartItem>, priced: seq<CartItem>, cat: Catalog) {
    |priced| == |items| && forall i :: 0 <= i < |items| ==>
      cat(items[i].productId, items[i].variantId).Price?
      && priced[i] == Repriced(items[i], cat(items[i].productId, items[i].variantId))
  }

  lemma {:induction false} RepricedFields(items: seq<CartItem>, priced: seq<CartItem>, cat: Catalog)
    requires Keyed(items) && RepricedTo(items, priced, cat)
    ensures Keyed(priced) && AllAvailable(Fields(items), cat) && Fields(priced) == PriceAll(Fields(items), cat)
  {
    if items == [] {
    } else {
      RepricedFields(items[..|items| - 1], priced[..|priced| - 1], cat);
    }
  }
}
