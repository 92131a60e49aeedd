/**
  The cart as the program stores it: lines keyed by "product:variant" in a hash,
  read back in any order, with a total computed in binary64.
*/
module CartModel {
  import opened Money

  type UserId = string

  datatype CartItem = CartItem(productId: string, variantId: string, variantLabel: string, unitPrice: nat,
      quantity: nat)

  function ItemKey(productId: string, variantId: string): string {
    productId + ":" + variantId
  }

  function KeyOf(i: CartItem): string {
    ItemKey(i.productId, i.variantId)
  }

  predicate NoColon(id: string) {
    ':' !in id
  }

  /** The first ':' of a key ends the product id. */
  lemma ShorterKeyDiffers(p: string, v: string, q: string, w: string)
    requires |p| < |q| && NoColon(q)
    ensures ItemKey(p, v) != ItemKey(q, w)
  {
    assert ItemKey(p, v)[|p|] == ':' && ItemKey(q, w)[|p|] == q[|p|];
  }

  /** For product ids without ':', a key names one product and variant. */
  lemma ItemKeyInjective(p: string, v: string, q: string, w: string)
    requires NoColon(p) && NoColon(q)
    ensures ItemKey(p, v) == ItemKey(q, w) <==> p == q && v == w
  {
    var k, l := ItemKey(p, v), ItemKey(q, w);
    if |p| < |q| {
      ShorterKeyDiffers(p, v, q, w);
    } else if |q| < |p| {
      ShorterKeyDiffers(q, w, p, v);
    } else {
      assert p == k[..|p|] && q == l[..|p|] && v == k[|p| + 1..] && w == l[|p| + 1..];
    }
  }

  /** A line of p can share a key with a line of q if and only if p is q, or one continues the other past a ':'. */
  lemma ItemKeyCollides(p: string, q: string)
    ensures (exists v, w :: ItemKey(p, v) == ItemKey(q, w)) <==> p == q || p + ":" <= q || q + ":" <= p
  {
    if v, w :| ItemKey(p, v) == ItemKey(q, w) {
      var k := ItemKey(p, v);
      assert p + ":" == k[..|p| + 1] && q + ":" == k[..|q| + 1];
      if |p| < |q| {
        assert p + ":" == q[..|p| + 1];
      } else if |q| < |p| {
        assert q + ":" == p[..|q| + 1];
      } else {
        assert p == k[..|p|] && q == k[..|q|];
      }
    }
    if p == q {
      assert ItemKey(p, "") == ItemKey(q, "");
    } else if p + ":" <= q {
      assert q == (p + ":") + q[|p| + 1..];
      assert ItemKey(p, q[|p| + 1..] + ":") == ItemKey(q, "");
    } else if q + ":" <= p {
      assert p == (q + ":") + p[|q| + 1..];
      assert ItemKey(p, "") == ItemKey(q, p[|q| + 1..] + ":");
    }
  }

  /**
    Ids from outside, as updateItem and removeItem take them unchecked, name a
    line whose own ids have no ':' only by being those ids.
  */
  lemma ForeignIdsMiss(p: string, v: string, q: string, w: string)
    requires NoColon(p) && NoColon(v)
    ensures ItemKey(q, w) == ItemKey(p, v) <==> q == p && w == v
  {
    if ItemKey(q, w) == ItemKey(p, v) {
      var k := ItemKey(p, v);
      assert k[|p|] == ':' && k[|q|] == ':';
      assert forall i :: 0 <= i < |k| && i != |p| ==> k[i] in p || k[i] in v;
      assert q == k[..|q|] && p == k[..|p|] && w == k[|q| + 1..] && v == k[|p| + 1..];
    }
  }

  function PricedItems(items: seq<CartItem>): seq<Priced> {
    seq(|items|, i requires 0 <= i < |items| => Priced(items[i].unitPrice, items[i].quantity))
  }

  function ComputeTotal(items: seq<CartItem>): string {
    Format2(ToFixed2(FloatSum(BINARY64, PricedItems(items))))
  }

  /** What the lines cost, in paisa. */
  function Paisa(items: seq<CartItem>): nat {
    if items == [] then 0
    else Paisa(items[..|items| - 1]) + items[|items| - 1].unitPrice * items[|items| - 1].quantity
  }

  lemma {:induction false} ExactIsPaisa(items: seq<CartItem>)
    ensures Exact(PricedItems(items)) == Paisa(items)
  {
    if items == [] {
    } else {
      var init := items[..|items| - 1];
      ExactIsPaisa(init);
      assert Amounts(PricedItems(items))[..|init|] == Amounts(PricedItems(init));
    }
  }

  /** The total prints what the lines cost, for up to 4000 lines within numeric(12,2). */
  predicate PrintsExactly(items: seq<CartItem>, total: string) {
    |items| <= MAX_LINES && Paisa(items) <= MAX_TOTAL ==> total == Format2(Paisa(items))
  }

  lemma TotalPrints(items: seq<CartItem>)
    ensures PrintsExactly(items, ComputeTotal(items))
  {
    ExactIsPaisa(items);
    if |items| <= MAX_LINES && Paisa(items) <= MAX_TOTAL {
      Binary64IsNearest();
      TotalIsExact(BINARY64, PricedItems(items));
    }
  }

  // ----- lines as a map -----

  /** The lines by key; a later line with the same key replaces an earlier one. */
  function Fields(items: seq<CartItem>): map<string, CartItem> {
    if items == [] then map[] else Fields(items[..|items| - 1])[KeyOf(items[|items| - 1]) := items[|items| - 1]]
  }

  /** No two lines share a key. */
  ghost predicate Keyed(items: seq<CartItem>) {
    forall i, j :: 0 <= i < j < |items| ==> KeyOf(items[i]) != KeyOf(items[j])
  }

  /** f holds exactly the given lines, each under its key. */
  ghost predicate Maps(items: seq<CartItem>, f: map<string, CartItem>) {
    && (forall i :: 0 <= i < |items| ==> KeyOf(items[i]) in f && f[KeyOf(items[i])] == items[i])
    && (forall k :: k in f ==> exists i :: 0 <= i < |items| && KeyOf(items[i]) == k)
  }

  lemma {:induction false} FieldsOfKeyed(items: seq<CartItem>)
    requires Keyed(items)
    ensures Maps(items, Fields(items))
  {
    if items == [] {
    } else {
      var n := |items| - 1;
      var init := items[..n];
      FieldsOfKeyed(init);
      assert Fields(items) == Fields(init)[KeyOf(items[n]) := items[n]];
      OneMoreField(items, init, Fields(init));
    }
  }

  lemma OneMoreField(items: seq<CartItem>, init: seq<CartItem>, f: map<string, CartItem>)
    requires Keyed(items) && items != [] && init == items[..|items| - 1] && Maps(init, f)
    ensures var x := items[|items| - 1]; Maps(items, f[KeyOf(x) := x])
  {
    var n := |init|;
    var g := f[KeyOf(items[n]) := items[n]];
    forall k | k in g ensures exists i :: 0 <= i < |items| && KeyOf(items[i]) == k {
      if k == KeyOf(items[n]) {
      } else {
        var i :| 0 <= i < n && KeyOf(init[i]) == k;
        assert KeyOf(items[i]) == k;
      }
    }
    forall i | 0 <= i < n ensures KeyOf(items[i]) in g && g[KeyOf(items[i])] == items[i] {
      assert init[i] == items[i] && KeyOf(items[i]) != KeyOf(items[n]);
    }
  }

  /** Two keyed lists with the same fields are the same lines in some order. */
  ghost predicate SameLines(a: seq<CartItem>, b: seq<CartItem>) {
    Keyed(a) && Keyed(b) && Fields(a) == Fields(b)
  }

  function Drop(items: seq<CartItem>, j: nat): seq<CartItem>
    requires j < |items|
  {
    items[..j] + items[j + 1..]
  }

  lemma FieldsAppend(items: seq<CartItem>, x: CartItem)
    ensures Fields(items + [x]) == Fields(items)[KeyOf(x) := x]
  {
    assert (items + [x])[..|items|] == items;
  }

  lemma KeyedDrop(items: seq<CartItem>, j: nat)
    requires Keyed(items) && j < |items|
    ensures Keyed(Drop(items, j))
  {
    var d := Drop(items, j);
    forall a, b | 0 <= a < b < |d| ensures KeyOf(d[a]) != KeyOf(d[b]) {
      assert d[a] == items[if a < j then a else a + 1] && d[b] == items[if b < j then b else b + 1];
    }
  }

  lemma LastKeyNew(items: seq<CartItem>)
    requires Keyed(items) && items != []
    ensures KeyOf(items[|items| - 1]) !in Fields(items[..|items| - 1])
  {
    var n := |items| - 1;
    FieldsOfKeyed(items[..n]);
    assert forall i :: 0 <= i < n ==> KeyOf(items[..n][i]) == KeyOf(items[i]);
  }

  lemma {:induction false} FieldsDrop(items: seq<CartItem>, j: nat)
    requires Keyed(items) && j < |items|
    ensures Keyed(Drop(items, j)) && Fields(Drop(items, j)) == Fields(items) - {KeyOf(items[j])}
  {
    KeyedDrop(items, j);
    var n := |items| - 1;
    if j == n {
      LastKeyNew(items);
      assert Drop(items, j) == items[..n];
    } else {
      FieldsDrop(items[..n], j);
      DropSplits(items, j);
      DropBeforeLast(Drop(items[..n], j), items[..n], items[n], KeyOf(items[j]));
    }
  }

  lemma DropSplits(items: seq<CartItem>, j: nat)
    requires j < |items| - 1
    ensures var init, last := items[..|items| - 1], items[|items| - 1];
      Drop(items, j) == Drop(init, j) + [last] && items == init + [last]
  {}

  lemma DropBeforeLast(dropped: seq<CartItem>, init: seq<CartItem>, last: CartItem, k: string)
    requires Fields(dropped) == Fields(init) - {k} && KeyOf(last) != k
    ensures Fields(dropped + [last]) == Fields(init + [last]) - {k}
  {
    FieldsAppend(dropped, last);
    FieldsAppend(init, last);
  }

  lemma {:induction false} FieldsUpdate(items: seq<CartItem>, j: nat, x: CartItem)
    requires Keyed(items) && j < |items| && KeyOf(x) == KeyOf(items[j])
    ensures Keyed(items[j := x]) && Fields(items[j := x]) == Fields(items)[KeyOf(x) := x]
  {
    var n := |items| - 1;
    if j == n {
      assert items[j := x][..n] == items[..n];
    } else {
      FieldsUpdate(items[..n], j, x);
      assert items[j := x][..n] == items[..n][j := x];
    }
  }

  // ----- totals do not depend on the order the hash is read in -----

  lemma {:induction false} SumDrop(a: seq<nat>, j: nat)
    requires j < |a|
    ensures Sum(a) == Sum(a[..j] + a[j + 1..]) + a[j]
  {
    var n := |a| - 1;
    if j == n {
      assert a[..j] + a[j + 1..] == a[..n];
    } else {
      SumDrop(a[..n], j);
      var d := a[..j] + a[j + 1..];
      assert d[..|d| - 1] == a[..n][..j] + a[..n][j + 1..];
    }
  }

  lemma ExactDrop(items: seq<CartItem>, j: nat)
    requires j < |items|
    ensures Exact(PricedItems(items)) == Exact(PricedItems(Drop(items, j))) + items[j].unitPrice * items[j].quantity
  {
    var a := Amounts(PricedItems(items));
    SumDrop(a, j);
    assert Amounts(PricedItems(Drop(items, j))) == a[..j] + a[j + 1..];
  }

  /** Where line n of the one list stands in the other. */
  lemma SameLine(a: seq<CartItem>, b: seq<CartItem>, n: nat) returns (j: nat)
    requires SameLines(a, b) && n < |a|
    ensures j < |b| && b[j] == a[n]
  {
    FieldsOfKeyed(a);
    FieldsOfKeyed(b);
    j :| 0 <= j < |b| && KeyOf(b[j]) == KeyOf(a[n]);
  }

  lemma {:induction false} ExactOfFields(a: seq<CartItem>, b: seq<CartItem>)
    requires SameLines(a, b)
    ensures |a| == |b| && Exact(PricedItems(a)) == Exact(PricedItems(b))
    decreases |a|
  {
    if a == [] {
      FieldsOfKeyed(b);
    } else {
      var n := |a| - 1;
      var j := SameLine(a, b, n);
      FieldsDrop(a, n);
      FieldsDrop(b, j);
      ExactOfFields(Drop(a, n), Drop(b, j));
      ExactDrop(a, n);
      ExactDrop(b, j);
    }
  }

  /** The total of a cart is the same whatever order its lines are read in. */
  lemma {:induction false} TotalIgnoresOrder(a: seq<CartItem>, b: seq<CartItem>)
    requires SameLines(a, b) && |a| <= MAX_LINES && Exact(PricedItems(a)) <= MAX_TOTAL
    ensures ComputeTotal(a) == ComputeTotal(b) == Format2(Exact(PricedItems(a)))
  {
    ExactOfFields(a, b);
    Binary64IsNearest();
    TotalIsExact(BINARY64, PricedItems(a));
    TotalIsExact(BINARY64, PricedItems(b));
  }

  // ----- the cart operations on lines -----

  datatype Price = Unavailable | Price(variantLabel: string, unitPrice: nat)

  type Lines = map<string, CartItem>

  function QuantityAt(m: Lines, key: string): nat {
    if key in m then m[key].quantity else 0
  }

  function Add(m: Lines, p: string, v: string, price: Price, q: nat): Lines
    requires price.Price?
  {
    m[ItemKey(p, v) := if ItemKey(p, v) in m
      then m[ItemKey(p, v)].(quantity := m[ItemKey(p, v)].quantity + q, unitPrice := price.unitPrice,
          variantLabel := price.variantLabel)
      else CartItem(p, v, price.variantLabel, price.unitPrice, q)]
  }

  /** A line of the ids of was, called and priced as the catalog has it, q of them. */
  predicate SoldAs(i: CartItem, was: CartItem, price: Price, q: nat) {
    && i.productId == was.productId && i.variantId == was.variantId && i.quantity == q
    && price.Price? && i.variantLabel == price.variantLabel && i.unitPrice == price.unitPrice
  }

  function Repriced(i: CartItem, price: Price): CartItem
    requires price.Price?
  {
    i.(variantLabel := price.variantLabel, unitPrice := price.unitPrice)
  }

  /** What the catalog would answer for any product and variant. */
  type Catalog = (string, string) -> Price

  ghost predicate AllAvailable(m: Lines, cat: Catalog) {
    forall k :: k in m ==> cat(m[k].productId, m[k].variantId).Price?
  }

  /** Every line at its catalog price, or the cart unchanged when any variant is unavailable. */
  ghost function PriceAll(m: Lines, cat: Catalog): Lines {
    if AllAvailable(m, cat) then map k | k in m :: Repriced(m[k], cat(m[k].productId, m[k].variantId)) else m
  }

  /** The line added to: old or new, it is called and costs what the catalog says, and the quantity is added. */
  lemma AddSells(m: Lines, p: string, v: string, price: Price, q: nat)
    requires price.Price?
    ensures var key, m' := p + ":" + v, Add(m, p, v, price, q);
      && m'.Keys == m.Keys + {key} && m' - {key} == m - {key}
      && SoldAs(m'[key], if key in m then m[key] else CartItem(p, v, "", 0, 0), price,
                if key in m then m[key].quantity + q else q)
  {}

  /** The line of a key replaced by itself, repriced and with a new quantity. */
  lemma UpdateSells(m: Lines, key: string, price: Price, q: nat)
    requires key in m && price.Price?
    ensures var m' := m[key := Repriced(m[key], price).(quantity := q)];
      m'.Keys == m.Keys && m' - {key} == m - {key} && SoldAs(m'[key], m[key], price, q)
  {}

  /** Pricing touches no key, id or quantity, and gives every line the catalog's label and price. */
  lemma PriceSells(m: Lines, cat: Catalog)
    requires AllAvailable(m, cat)
    ensures var m' := PriceAll(m, cat);
      m'.Keys == m.Keys
      && forall k :: k in m ==> SoldAs(m'[k], m[k], cat(m[k].productId, m[k].variantId), m[k].quantity)
  {}

  /** Adding q1 and then q2 at one price is adding q1 + q2. */
  lemma AddTwice(m: Lines, p: string, v: string, price: Price, q1: nat, q2: nat)
    requires price.Price?
    ensures Add(Add(m, p, v, price, q1), p, v, price, q2) == Add(m, p, v, price, q1 + q2)
  {}

  datatype Slot = Absent | Present(item: CartItem)

  /** The cart as a map from product and variant. */
  function At(m: Lines, p: string, v: string): Slot {
    if ItemKey(p, v) in m then Present(m[ItemKey(p, v)]) else Absent
  }

  /** Adding touches the line of its own product and variant and no other. */
  lemma AddTouchesOnePair(m: Lines, p: string, v: string, price: Price, n: nat, q: string, w: string)
    requires price.Price? && NoColon(p) && NoColon(q)
    ensures At(Add(m, p, v, price, n), q, w)
         == if p == q && v == w then Present(Add(m, p, v, price, n)[ItemKey(p, v)]) else At(m, q, w)
    ensures QuantityAt(Add(m, p, v, price, n), ItemKey(p, v)) == QuantityAt(m, ItemKey(p, v)) + n
  {
    ItemKeyInjective(p, v, q, w);
  }

  /** Pricing a priced cart changes nothing. */
  lemma PriceTwice(m: Lines, cat: Catalog)
    ensures PriceAll(PriceAll(m, cat), cat) == PriceAll(m, cat)
  {
    var once := PriceAll(m, cat);
    if AllAvailable(m, cat) {
      assert AllAvailable(once, cat);
      forall k | k in once ensures PriceAll(once, cat)[k] == once[k] {}
    }
  }
}
