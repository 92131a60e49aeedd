/**
  The cache-aside catalog: product and list caches in front of the repository,
  filled on a miss and invalidated after each mutation.
*/
module Catalog {
  import opened Common

  type ProductId = string
  type VariantId = string

  datatype Variant = Variant(id: VariantId, variantLabel: string, price: nat, isActive: bool)
  datatype Product = Product(id: ProductId, name: string, description: string, isActive: bool, variants: seq<Variant>)
  datatype Page = Page(items: seq<Product>, total: nat)

  /** The product rows, oldest first. */
  type Rows = seq<Product>

  // ----- repository -----

  function Find(rows: Rows, id: ProductId): Option<Product> {
    if rows == [] then None else if rows[0].id == id then Some(rows[0]) else Find(rows[1..], id)
  }

  function NewestActive(rows: Rows): Rows {
    if rows == [] then []
    else
      var last := rows[|rows| - 1];
      (if last.isActive then [last] else []) + NewestActive(rows[..|rows| - 1])
  }

  /** The page of active products, newest first, and how many there are. */
  function List(rows: Rows, page: nat, limit: nat): Page
    requires page >= 1
  {
    var all := NewestActive(rows);
    var skip := Min((page - 1) * limit, |all|);
    Page(all[skip..Min(skip + limit, |all|)], |all|)
  }

  function Replace(rows: Rows, p: Product): Rows {
    seq(|rows|, i requires 0 <= i < |rows| => if rows[i].id == p.id then p else rows[i])
  }

  function Remove(rows: Rows, id: ProductId): Rows {
    if rows == [] then [] else (if rows[0].id == id then [] else [rows[0]]) + Remove(rows[1..], id)
  }

  function WithoutVariant(vs: seq<Variant>, v: VariantId): seq<Variant> {
    if vs == [] then [] else (if vs[0].id == v then [] else [vs[0]]) + WithoutVariant(vs[1..], v)
  }

  function RemoveVariant(rows: Rows, v: VariantId): Rows {
    seq(|rows|, i requires 0 <= i < |rows| => rows[i].(variants := WithoutVariant(rows[i].variants, v)))
  }

  function SetVariant(vs: seq<Variant>, v: Variant): seq<Variant> {
    seq(|vs|, i requires 0 <= i < |vs| => if vs[i].id == v.id then v else vs[i])
  }

  /** The existing variant row is updated wherever it is: its product does not change. */
  function UpdateVariant(rows: Rows, v: Variant): Rows {
    seq(|rows|, i requires 0 <= i < |rows| => rows[i].(variants := SetVariant(rows[i].variants, v)))
  }

  predicate Owns(p: Product, v: VariantId) {
    exists i :: 0 <= i < |p.variants| && p.variants[i].id == v
  }

  predicate HasVariant(rows: Rows, v: VariantId) {
    exists i :: 0 <= i < |rows| && Owns(rows[i], v)
  }

  /** The variant row with this id, if there is one. */
  function VariantIn(vs: seq<Variant>, v: VariantId): Option<Variant> {
    if vs == [] then None else if vs[0].id == v then Some(vs[0]) else VariantIn(vs[1..], v)
  }

  function FindVariant(rows: Rows, v: VariantId): Option<Variant> {
    if rows == [] then None
    else if VariantIn(rows[0].variants, v).Some? then VariantIn(rows[0].variants, v)
    else FindVariant(rows[1..], v)
  }

  lemma {:induction false} VariantInOwned(vs: seq<Variant>, v: VariantId)
    ensures VariantIn(vs, v).Some? <==> exists i :: 0 <= i < |vs| && vs[i].id == v
    ensures VariantIn(vs, v).Some? ==> VariantIn(vs, v).value.id == v
  {
    if vs == [] {
    } else {
      VariantInOwned(vs[1..], v);
      if i :| 0 <= i < |vs| && vs[i].id == v {
        if i > 0 { assert vs[1..][i - 1].id == v; }
      }
    }
  }

  lemma {:induction false} FindVariantOwned(rows: Rows, v: VariantId)
    ensures FindVariant(rows, v).Some? <==> HasVariant(rows, v)
    ensures FindVariant(rows, v).Some? ==> FindVariant(rows, v).value.id == v
  {
    if rows == [] {
    } else {
      VariantInOwned(rows[0].variants, v);
      FindVariantOwned(rows[1..], v);
      if i :| 0 <= i < |rows| && Owns(rows[i], v) {
        if i > 0 { assert Owns(rows[1..][i - 1], v); } else { assert Owns(rows[0], v); }
      }
      if Owns(rows[0], v) { assert HasVariant(rows, v); }
    }
  }

  // ----- what a page holds -----

  /** How many of the rows are active. */
  function CountActive(rows: Rows): nat {
    if rows == [] then 0 else (if rows[0].isActive then 1 else 0) + CountActive(rows[1..])
  }

  /** The active rows newer than row i. */
  function Newer(rows: Rows, i: nat): nat
    requires i < |rows|
  {
    CountActive(rows[i + 1..])
  }

  lemma {:induction false} CountAppend(a: Rows, b: Rows)
    ensures CountActive(a + b) == CountActive(a) + CountActive(b)
  {
    if a == [] {
      assert a + b == b;
    } else {
      CountAppend(a[1..], b);
      assert (a + b)[1..] == a[1..] + b;
    }
  }

  lemma CountOne(rows: Rows, i: nat)
    requires i < |rows|
    ensures CountActive(rows[i..]) == Newer(rows, i) + (if rows[i].isActive then 1 else 0)
  {
    assert rows[i..][1..] == rows[i + 1..];
  }

  /** An older active row has more newer ones. */
  lemma {:induction false} NewerDecreases(rows: Rows, i: nat, j: nat)
    requires i < j < |rows| && rows[j].isActive
    ensures Newer(rows, j) < Newer(rows, i)
  {
    assert rows[i + 1..] == rows[i + 1..j] + rows[j..];
    CountAppend(rows[i + 1..j], rows[j..]);
    CountOne(rows, j);
  }

  /** The k-th active row from the newest. */
  lemma {:induction false} RankedRow(rows: Rows, k: nat) returns (i: nat)
    requires k < CountActive(rows)
    ensures i < |rows| && rows[i].isActive && Newer(rows, i) == k
  {
    i := |rows| - 1;
    assert rows[i + 1..] == [];
    assert rows[0..] == rows;
    CountOne(rows, i);
    while !(rows[i].isActive && Newer(rows, i) == k)
      invariant i < |rows| && Newer(rows, i) <= k
      decreases i
    {
      CountOne(rows, i);
      assert i > 0;
      i := i - 1;
      assert Newer(rows, i) == CountActive(rows[i + 1..]);
    }
  }

  lemma NewerBelow(rows: Rows, i: nat)
    requires i < |rows| && rows[i].isActive
    ensures Newer(rows, i) < CountActive(rows)
  {
    assert rows == rows[..i] + rows[i..];
    CountAppend(rows[..i], rows[i..]);
    CountOne(rows, i);
  }

  /** One more row is newer than all before it. */
  lemma NewerThen(rows: Rows, i: nat)
    requires i < |rows| - 1
    ensures var n := |rows| - 1;
      Newer(rows, i) == Newer(rows[..n], i) + (if rows[n].isActive then 1 else 0)
  {
    var n := |rows| - 1;
    assert rows[i + 1..] == rows[..n][i + 1..] + [rows[n]];
    CountAppend(rows[..n][i + 1..], [rows[n]]);
  }

  /** The newest active rows come in the order of their rank. */
  lemma {:induction false} NewestRanked(rows: Rows, i: nat)
    requires i < |rows| && rows[i].isActive
    ensures Newer(rows, i) < |NewestActive(rows)| && NewestActive(rows)[Newer(rows, i)] == rows[i]
  {
    var n := |rows| - 1;
    if i == n {
      assert rows[n + 1..] == [];
    } else {
      NewestRanked(rows[..n], i);
      NewerThen(rows, i);
    }
  }

  lemma {:induction false} NewestSize(rows: Rows)
    ensures |NewestActive(rows)| == CountActive(rows)
  {
    if rows == [] {
    } else {
      var n := |rows| - 1;
      NewestSize(rows[..n]);
      assert rows == rows[..n] + [rows[n]];
      CountAppend(rows[..n], [rows[n]]);
    }
  }

  /**
    A page that begins after the first skip active rows: how many are active in
    all, and those whose number of newer active rows is skip, skip + 1 and so on,
    each in its place, at most limit of them and none left out.
  */
  ghost predicate PageOf(rows: Rows, skip: nat, limit: nat, p: Page) {
    && p.total == CountActive(rows) && |p.items| <= limit
    && (forall i :: 0 <= i < |rows| && rows[i].isActive && skip <= Newer(rows, i) < skip + limit ==>
          Newer(rows, i) - skip < |p.items| && p.items[Newer(rows, i) - skip] == rows[i])
    && (forall k :: 0 <= k < |p.items| ==> HoldsRank(rows, skip + k, p.items[k]))
  }

  /** An active row with k newer active rows. */
  ghost predicate HoldsRank(rows: Rows, k: nat, p: Product) {
    exists i :: 0 <= i < |rows| && rows[i] == p && p.isActive && Newer(rows, i) == k
  }

  /** The active rows on the pages before. */
  function PageStart(page: nat, limit: nat): nat
    requires page >= 1
  {
    (page - 1) * limit
  }

  lemma {:induction false} PageHolds(rows: Rows, page: nat, limit: nat)
    requires page >= 1
    ensures PageOf(rows, PageStart(page, limit), limit, List(rows, page, limit))
  {
    NewestSize(rows);
    SliceHolds(rows, PageStart(page, limit), limit, List(rows, page, limit));
  }

  lemma {:induction false} SliceHolds(rows: Rows, skip: nat, limit: nat, p: Page)
    requires var all := NewestActive(rows);
      var from := Min(skip, |all|);
      p.total == |all| == CountActive(rows) && p.items == all[from..Min(from + limit, |all|)]
    ensures PageOf(rows, skip, limit, p)
  {
    forall i | 0 <= i < |rows| && rows[i].isActive && skip <= Newer(rows, i) < skip + limit
      ensures Newer(rows, i) - skip < |p.items| && p.items[Newer(rows, i) - skip] == rows[i]
    {
      NewestRanked(rows, i);
    }
    forall k | 0 <= k < |p.items| ensures HoldsRank(rows, skip + k, p.items[k]) {
      var i := RankedRow(rows, skip + k);
      NewestRanked(rows, i);
    }
  }

  /** Of two active rows the newer has the smaller rank, so a page lists newer rows first. */
  lemma RankIsAge(rows: Rows, i: nat, j: nat)
    requires i < |rows| && j < |rows| && rows[i].isActive && rows[j].isActive
    ensures i < j <==> Newer(rows, j) < Newer(rows, i)
  {
    if i < j { NewerDecreases(rows, i, j); }
    if j < i { NewerDecreases(rows, j, i); }
  }

  /** Every active row has exactly one page: the one its rank gives. */
  lemma OnOnePage(rows: Rows, i: nat, limit: nat, page: nat)
    requires i < |rows| && rows[i].isActive && limit >= 1 && page >= 1
    ensures PageStart(page, limit) <= Newer(rows, i) < PageStart(page, limit) + limit
       <==> page == Newer(rows, i) / limit + 1
  {
    QuotientIs(Newer(rows, i), limit, page - 1);
  }

  lemma QuotientIs(n: nat, d: nat, q: nat)
    requires d >= 1
    ensures q * d <= n < q * d + d <==> q == n / d
  {
    assert n == n / d * d + n % d;
    if q < n / d { assert q * d + d == (q + 1) * d <= n / d * d; }
    if q > n / d { assert n / d * d + d == (n / d + 1) * d <= q * d; }
  }

  // ----- one row at a time -----

  lemma {:induction false} FindRow(rows: Rows, id: ProductId)
    ensures Find(rows, id).Some? <==> exists i :: 0 <= i < |rows| && rows[i].id == id
    ensures Find(rows, id).Some? ==> Find(rows, id).value in rows && Find(rows, id).value.id == id
  {
    if rows == [] {
    } else {
      FindRow(rows[1..], id);
      if rows[0].id != id && exists i :: 0 <= i < |rows| && rows[i].id == id {
        var i :| 0 <= i < |rows| && rows[i].id == id;
        assert rows[1..][i - 1].id == id;
      }
    }
  }

  lemma {:induction false} FindReplace(rows: Rows, p: Product, id: ProductId)
    ensures Find(Replace(rows, p), id) == if id == p.id && Find(rows, id).Some? then Some(p) else Find(rows, id)
  {
    if rows == [] {
    } else {
      FindReplace(rows[1..], p, id);
      assert Replace(rows, p)[1..] == Replace(rows[1..], p);
    }
  }

  lemma {:induction false} FindRemove(rows: Rows, gone: ProductId, id: ProductId)
    ensures Find(Remove(rows, gone), id) == if id == gone then None else Find(rows, id)
  {
    if rows == [] {
    } else {
      FindRemove(rows[1..], gone, id);
      if rows[0].id != gone { assert Remove(rows, gone)[1..] == Remove(rows[1..], gone); }
      else { assert Remove(rows, gone) == Remove(rows[1..], gone); }
    }
  }

  /** Deleting the one row of an id leaves the others in their order. */
  lemma {:induction false} RemoveOneRow(rows: Rows, i: nat)
    requires i < |rows| && forall j :: 0 <= j < |rows| && rows[j].id == rows[i].id ==> j == i
    ensures Remove(rows, rows[i].id) == rows[..i] + rows[i + 1..]
  {
    if i == 0 {
      RemoveAbsent(rows[1..], rows[0].id);
    } else {
      assert rows[0].id != rows[i].id;
      RemoveOneRow(rows[1..], i - 1);
      assert rows[..i] + rows[i + 1..] == [rows[0]] + (rows[1..][..i - 1] + rows[1..][i..]);
    }
  }

  lemma {:induction false} RemoveAbsent(rows: Rows, id: ProductId)
    requires forall j :: 0 <= j < |rows| ==> rows[j].id != id
    ensures Remove(rows, id) == rows
  {
    if rows == [] {
    } else {
      RemoveAbsent(rows[1..], id);
    }
  }

  lemma {:induction false} FindAppend(rows: Rows, p: Product, id: ProductId)
    ensures Find(rows + [p], id) == if Find(rows, id).Some? then Find(rows, id) else if p.id == id then Some(p)
        else None
  {
    if rows == [] {
      assert rows + [p] == [p];
    } else {
      FindAppend(rows[1..], p, id);
      assert (rows + [p])[1..] == rows[1..] + [p];
    }
  }

  lemma {:induction false} FindMapped(rows: Rows, mapped: Rows, f: Product -> Product, id: ProductId)
    requires |mapped| == |rows| && forall i :: 0 <= i < |rows| ==> mapped[i] == f(rows[i]) && mapped[i].id == rows[i].id
    ensures Find(mapped, id) == if Find(rows, id).Some? then Some(f(Find(rows, id).value)) else None
  {
    if rows == [] {
    } else {
      FindMapped(rows[1..], mapped[1..], f, id);
    }
  }

  lemma {:induction false} WithoutAbsent(vs: seq<Variant>, v: VariantId)
    ensures WithoutVariant(vs, v) == vs <==> !exists i :: 0 <= i < |vs| && vs[i].id == v
    ensures |WithoutVariant(vs, v)| <= |vs|
  {
    if vs == [] {
    } else {
      WithoutAbsent(vs[1..], v);
      if vs[0].id == v {
        assert |WithoutVariant(vs, v)| < |vs|;
      } else {
        var rest := WithoutVariant(vs[1..], v);
        assert WithoutVariant(vs, v) == [vs[0]] + rest;
        if rest == vs[1..] {
          assert vs == [vs[0]] + rest;
          forall i | 0 <= i < |vs| ensures vs[i].id != v { if i > 0 { assert vs[1..][i - 1] == vs[i]; } }
        } else {
          var i :| 0 <= i < |vs[1..]| && vs[1..][i].id == v;
          assert vs[i + 1].id == v;
          assert WithoutVariant(vs, v)[1..] == rest;
        }
      }
    }
  }

  /** Deleting the one variant of an id leaves the others in their order. */
  lemma {:induction false} WithoutOne(vs: seq<Variant>, j: nat)
    requires j < |vs| && forall k :: 0 <= k < |vs| && vs[k].id == vs[j].id ==> k == j
    ensures WithoutVariant(vs, vs[j].id) == vs[..j] + vs[j + 1..]
  {
    if j == 0 {
      WithoutAbsent(vs[1..], vs[0].id);
    } else {
      assert vs[0].id != vs[j].id;
      WithoutOne(vs[1..], j - 1);
      assert vs[..j] + vs[j + 1..] == [vs[0]] + (vs[1..][..j - 1] + vs[1..][j..]);
    }
  }

  lemma FindWithout(rows: Rows, v: VariantId, id: ProductId)
    ensures var row, row' := Find(rows, id), Find(RemoveVariant(rows, v), id);
      if row.Some? then row' == Some(row.value.(variants := WithoutVariant(row.value.variants, v))) else row'.None?
  {
    FindMapped(rows, RemoveVariant(rows, v), (p: Product) => p.(variants := WithoutVariant(p.variants, v)), id);
  }

  lemma FindSet(rows: Rows, v: Variant, id: ProductId)
    ensures var row, row' := Find(rows, id), Find(UpdateVariant(rows, v), id);
      if row.Some? then row' == Some(row.value.(variants := SetVariant(row.value.variants, v))) else row'.None?
  {
    FindMapped(rows, UpdateVariant(rows, v), (p: Product) => p.(variants := SetVariant(p.variants, v)), id);
  }

  /** Deleting a variant changes exactly the product that owned it. */
  lemma RemoveVariantChanges(rows: Rows, v: VariantId, id: ProductId)
    ensures Find(RemoveVariant(rows, v), id) == Find(rows, id)
       <==> !(Find(rows, id).Some? && Owns(Find(rows, id).value, v))
  {
    FindWithout(rows, v, id);
    if Find(rows, id).Some? { WithoutAbsent(Find(rows, id).value.variants, v); }
  }

  /** The product lists the variant with other values. */
  predicate Differs(p: Product, v: Variant) {
    exists i :: 0 <= i < |p.variants| && p.variants[i].id == v.id && p.variants[i] != v
  }

  /** Updating a variant changes exactly the product that lists it with other values. */
  lemma UpdateVariantChanges(rows: Rows, v: Variant, id: ProductId)
    ensures Find(UpdateVariant(rows, v), id) == Find(rows, id)
       <==> !(Find(rows, id).Some? && Differs(Find(rows, id).value, v))
  {
    FindSet(rows, v, id);
    if Find(rows, id).Some? {
      var vs := Find(rows, id).value.variants;
      if Differs(Find(rows, id).value, v) {
        var i :| 0 <= i < |vs| && vs[i].id == v.id && vs[i] != v;
        assert SetVariant(vs, v)[i] != vs[i];
      } else {
        assert SetVariant(vs, v) == vs;
      }
    }
  }

  function AddVariant(rows: Rows, id: ProductId, v: Variant): Rows {
    seq(|rows|, i requires 0 <= i < |rows| =>
      if rows[i].id == id then rows[i].(variants := rows[i].variants + [v]) else rows[i])
  }

  lemma {:induction false} FindAdded(rows: Rows, id: ProductId, v: Variant, x: ProductId)
    ensures var row, row' := Find(rows, x), Find(AddVariant(rows, id, v), x);
      if row.Some? && x == id then row' == Some(row.value.(variants := row.value.variants + [v])) else row' == row
  {
    FindRow(rows, x);
    FindMapped(rows, AddVariant(rows, id, v), (p: Product) => if p.id == id then p.(variants := p.variants + [v])
        else p, x);
  }
}
