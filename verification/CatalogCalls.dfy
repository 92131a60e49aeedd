/**
  Whole catalog calls over the rows and the cache, in any order, with cached keys
  expiring at any time: when getProduct answers what the repository would.
*/
module CatalogCalls {
  import opened Common
  import opened Runs
  import opened Catalog
  import opened Text

  datatype Error = Forbidden | NotFound | Invalid
  type Result<+T> = Either<T, Error>

  datatype Patch = Patch(name: Option<string>, description: Option<string>, isActive: Option<bool>)

  function Patched(p: Product, c: Patch): Product {
    p.(name := if c.name.Some? then c.name.value else p.name,
       description := if c.description.Some? then c.description.value else p.description,
       isActive := if c.isActive.Some? then c.isActive.value else p.isActive)
  }

  /** What Number() makes of a price: no finite number, or an amount in paisa. */
  datatype Amount = NotFinite | Paisa(n: int)

  predicate ValidPrice(a: Amount) {
    a.Paisa? && a.n >= 0
  }

  datatype VariantInput = VariantInput(variantLabel: string, price: Amount, isActive: Option<bool>)
  datatype ProductInput = ProductInput(name: string, description: Option<string>, isActive: Option<bool>,
                                       variants: seq<VariantInput>)

  predicate ValidVariant(v: VariantInput) {
    ValidPrice(v.price) && !Blank(v.variantLabel)
  }

  predicate AllValid(vs: seq<VariantInput>) {
    forall i :: 0 <= i < |vs| ==> ValidVariant(vs[i])
  }

  /** A new variant row; other is the value of isActive when the input has none. */
  function MakeVariant(id: VariantId, v: VariantInput, other: bool): Variant
    requires ValidVariant(v)
  {
    Variant(id, v.variantLabel, v.price.n, if v.isActive.Some? then v.isActive.value else other)
  }

  function MakeVariants(ids: seq<VariantId>, vs: seq<VariantInput>): seq<Variant>
    requires AllValid(vs) && |ids| == |vs|
  {
    seq(|vs|, i requires 0 <= i < |vs| => MakeVariant(ids[i], vs[i], true))
  }

  /** The row created: the name and description trimmed, active unless told otherwise. */
  function MakeProduct(id: ProductId, ids: seq<VariantId>, p: ProductInput): Product
    requires AllValid(p.variants) && |ids| == |p.variants|
  {
    Product(id, Trim(p.name), if p.description.Some? then Trim(p.description.value) else "",
            if p.isActive.Some? then p.isActive.value else true, MakeVariants(ids, p.variants))
  }

  // ----- what is stored, field by field -----

  /** A finite price not below zero, and a label with something left after trimming. */
  predicate Sellable(v: VariantInput) {
    v.price.Paisa? && v.price.n >= 0 && Trim(v.variantLabel) != ""
  }

  predicate VariantAsked(row: Variant, id: VariantId, v: VariantInput, other: bool) {
    && row.id == id && row.variantLabel == v.variantLabel && v.price == Paisa(row.price)
    && (row.isActive <==> v.isActive == Some(true) || (v.isActive == None && other))
  }

  predicate ProductAsked(row: Product, id: ProductId, ids: seq<VariantId>, p: ProductInput) {
    && row.id == id && row.name == Trim(p.name)
    && (p.description == None ==> row.description == "")
    && (p.description.Some? ==> row.description == Trim(p.description.value))
    && (row.isActive <==> p.isActive != Some(false))
    && |row.variants| == |p.variants| == |ids|
    && forall i :: 0 <= i < |ids| ==> VariantAsked(row.variants[i], ids[i], p.variants[i], true)
  }

  predicate PatchAsked(row: Product, was: Product, c: Patch) {
    && row.id == was.id && row.variants == was.variants
    && row.name == (match c.name case Some(name) => name case None => was.name)
    && row.description == (match c.description case Some(text) => text case None => was.description)
    && row.isActive == (match c.isActive case Some(on) => on case None => was.isActive)
  }

  lemma SellableIsValid(v: VariantInput)
    ensures ValidVariant(v) <==> Sellable(v)
  {
    TrimLeaves(v.variantLabel);
  }

  /** What createProduct takes. */
  lemma CreatableMeans(p: ProductInput)
    ensures Creatable(p) <==> Trim(p.name) != "" && p.variants != [] && forall v :: v in p.variants ==> Sellable(v)
  {
    TrimLeaves(p.name);
    forall v ensures ValidVariant(v) <==> Sellable(v) { SellableIsValid(v); }
    if !AllValid(p.variants) {
      var i :| 0 <= i < |p.variants| && !ValidVariant(p.variants[i]);
      assert p.variants[i] in p.variants;
    }
  }

  /** A page and limit as the service clamps them. */
  function SafePage(page: int): nat { if page < 1 then 1 else page }
  function SafeLimit(limit: int): nat { if limit < 1 then 1 else if limit > 100 then 100 else limit }

  /** The answer to a listing: page 1 at least, and 1 to 100 items to a page. */
  ghost predicate AnswersPage(rows: Rows, page: int, limit: int, r: Page) {
    var p := if page < 1 then 1 else page;
    var n := if limit < 1 then 1 else if limit > 100 then 100 else limit;
    PageOf(rows, PageStart(p, n), n, r)
  }

  lemma ListAnswers(rows: Rows, page: int, limit: int)
    ensures AnswersPage(rows, page, limit, List(rows, SafePage(page), SafeLimit(limit)))
  {
    PageHolds(rows, SafePage(page), SafeLimit(limit));
  }

  /** What the repository answers for a product. */
  function Answer(rows: Rows, id: ProductId): Result<Product> {
    if Find(rows, id).Some? then Ok(Find(rows, id).value) else Err(NotFound)
  }

  /** The cached products that are not what the repository has. */
  function Stale(rows: Rows, products: map<ProductId, Product>): set<ProductId> {
    set id | id in products && Find(rows, id) != Some(products[id])
  }

  // ----- calls -----

  /** products and lists are the keys product:{id} and catalog:list:{page}:{limit}. */
  datatype Shop = Shop(rows: Rows, products: map<ProductId, Product>, lists: map<(nat, nat), Page>)

  /** Ids of new rows are parameters; the last two cases are keys reaching the end of their time to live. */
  datatype Call =
    | ListProducts(page: int, limit: int)
    | GetProduct(id: ProductId)
    | CreateProduct(p: ProductInput, admin: bool, id: ProductId, ids: seq<VariantId>)
    | UpdateProduct(id: ProductId, patch: Patch, admin: bool)
    | DeleteProduct(id: ProductId, admin: bool)
    | PutVariant(product: ProductId, v: VariantId, input: VariantInput, admin: bool)
    | NewVariant(product: ProductId, v: VariantId, input: VariantInput, admin: bool)
    | DeleteVariant(v: VariantId, admin: bool)
    | ProductExpires(id: ProductId)
    | ListExpires(key: (nat, nat))

  predicate Creatable(p: ProductInput) {
    !Blank(p.name) && p.variants != [] && AllValid(p.variants)
  }

  /** One id per variant, none in use. */
  predicate FreshIds(rows: Rows, id: ProductId, ids: seq<VariantId>, n: nat) {
    && |ids| == n && Find(rows, id).None?
    && (forall i :: 0 <= i < n ==> !HasVariant(rows, ids[i]))
    && (forall i, j :: 0 <= i < j < n ==> ids[i] != ids[j])
  }

  /** The call changes the rows; an id already in use is never drawn. */
  predicate Writes(s: Shop, c: Call) {
    match c
    case CreateProduct(p, admin, id, ids) => admin && Creatable(p) && FreshIds(s.rows, id, ids, |p.variants|)
    case UpdateProduct(id, _, admin) => admin && Find(s.rows, id).Some?
    case DeleteProduct(id, admin) => admin && Find(s.rows, id).Some?
    case PutVariant(id, v, input, admin) =>
      admin && ValidVariant(input) && Find(s.rows, id).Some? && FindVariant(s.rows, v).Some?
    case NewVariant(id, v, input, admin) =>
      admin && ValidVariant(input) && Find(s.rows, id).Some? && !HasVariant(s.rows, v)
    case DeleteVariant(v, admin) => admin && HasVariant(s.rows, v)
    case _ => false
  }

  /** The row upsertVariant saves over an existing one. */
  function Saved(s: Shop, c: Call): Variant
    requires c.PutVariant? && Writes(s, c)
  {
    MakeVariant(c.v, c.input, FindVariant(s.rows, c.v).value.isActive)
  }

  function RowsAfter(s: Shop, c: Call): Rows
    requires Writes(s, c)
  {
    match c
    case CreateProduct(p, _, id, ids) => s.rows + [MakeProduct(id, ids, p)]
    case UpdateProduct(id, patch, _) => Replace(s.rows, Patched(Find(s.rows, id).value, patch))
    case DeleteProduct(id, _) => Remove(s.rows, id)
    case PutVariant(_, _, _, _) => UpdateVariant(s.rows, Saved(s, c))
    case NewVariant(id, v, input, _) => AddVariant(s.rows, id, MakeVariant(v, input, true))
    case DeleteVariant(v, _) => RemoveVariant(s.rows, v)
  }

  /** The product whose key the call deletes after its write; deleteVariant deletes none. */
  function Invalidated(c: Call): set<ProductId> {
    match c
    case CreateProduct(_, _, id, _) => {id}
    case UpdateProduct(id, _, _) => {id}
    case DeleteProduct(id, _) => {id}
    case PutVariant(id, _, _, _) => {id}
    case NewVariant(id, _, _, _) => {id}
    case ProductExpires(id) => {id}
    case _ => {}
  }

  function Step(s: Shop, c: Call): Shop {
    match c
    case ListProducts(page, limit) =>
      var k := (SafePage(page), SafeLimit(limit));
      if k in s.lists then s else s.(lists := s.lists[k := List(s.rows, k.0, k.1)])
    case GetProduct(id) =>
      if id in s.products || Find(s.rows, id).None? then s
      else s.(products := s.products[id := Find(s.rows, id).value])
    case ProductExpires(id) => s.(products := s.products - {id})
    case ListExpires(k) => s.(lists := s.lists - {k})
    case _ => if Writes(s, c) then Shop(RowsAfter(s, c), s.products - Invalidated(c), map[]) else s
  }

  /** What getProduct answers: the cached product, else the repository's. */
  function Reply(s: Shop, id: ProductId): Result<Product> {
    if id in s.products then Ok(s.products[id]) else Answer(s.rows, id)
  }

  // ----- what happened to a cached product since it was cached -----

  /** Variants deleted, and the values last given to variants by upserts that named other products. */
  datatype Since = Since(deleted: set<VariantId>, given: map<VariantId, Variant>)

  datatype Noted = Noted(shop: Shop, since: map<ProductId, Since>)

  function Happens(s: Shop, c: Call, h: Since): Since {
    if c.DeleteVariant? && Writes(s, c) then h.(deleted := h.deleted + {c.v})
    else if c.PutVariant? && Writes(s, c) then h.(given := h.given[c.v := Saved(s, c)])
    else h
  }

  function Note(n: Noted, c: Call): Noted {
    var s' := Step(n.shop, c);
    Noted(s', map id | id in s'.products :: if id in n.since then Happens(n.shop, c, n.since[id]) else Since({}, map[]))
  }

  const OPEN := Noted(Shop([], map[], map[]), map[])

  function Run(calls: seq<Call>): Noted {
    Fold(Note, OPEN, calls)
  }

  /** The variant of a cached product is gone, or was given other values. */
  predicate Overtaken(v: Variant, h: Since) {
    v.id in h.deleted || (v.id in h.given && h.given[v.id] != v)
  }

  // ----- the row is the cached product amended -----

  function Amended(vs: seq<Variant>, h: Since): seq<Variant> {
    if vs == [] then []
    else
      var v := vs[0];
      (if v.id in h.deleted then [] else if v.id in h.given then [h.given[v.id]] else [v]) + Amended(vs[1..], h)
  }

  predicate NamesRight(h: Since) {
    forall v :: v in h.given ==> h.given[v].id == v
  }

  lemma {:induction false} AmendedSame(vs: seq<Variant>, h: Since)
    ensures |Amended(vs, h)| <= |vs|
    ensures Amended(vs, h) == vs <==> !exists i :: 0 <= i < |vs| && Overtaken(vs[i], h)
  {
    if vs == [] {
    } else {
      AmendedSame(vs[1..], h);
      var rest := Amended(vs[1..], h);
      if Overtaken(vs[0], h) {
        assert Amended(vs, h) != vs by {
          if vs[0].id !in h.deleted { assert Amended(vs, h)[0] != vs[0]; }
        }
      } else {
        assert Amended(vs, h) == [vs[0]] + rest && vs == [vs[0]] + vs[1..];
        assert Amended(vs, h)[1..] == rest;
        if i :| 0 <= i < |vs[1..]| && Overtaken(vs[1..][i], h) { assert Overtaken(vs[i + 1], h); }
        if i :| 0 <= i < |vs| && Overtaken(vs[i], h) { assert Overtaken(vs[1..][i - 1], h); }
      }
    }
  }

  lemma {:induction false} AmendedDeletes(vs: seq<Variant>, h: Since, v: VariantId)
    requires NamesRight(h)
    ensures WithoutVariant(Amended(vs, h), v) == Amended(vs, h.(deleted := h.deleted + {v}))
  {
    if vs == [] {
    } else {
      AmendedDeletes(vs[1..], h, v);
      if vs[0].id !in h.deleted {
        assert Amended(vs, h)[1..] == Amended(vs[1..], h);
      } else {
        assert Amended(vs, h) == Amended(vs[1..], h);
      }
    }
  }

  lemma SetAppend(a: seq<Variant>, b: seq<Variant>, v: Variant)
    ensures SetVariant(a + b, v) == SetVariant(a, v) + SetVariant(b, v)
  {}

  lemma {:induction false} AmendedGives(vs: seq<Variant>, h: Since, v: Variant)
    requires NamesRight(h)
    ensures SetVariant(Amended(vs, h), v) == Amended(vs, h.(given := h.given[v.id := v]))
  {
    if vs == [] {
    } else {
      AmendedGives(vs[1..], h, v);
      if vs[0].id !in h.deleted {
        SetAppend([Amended(vs, h)[0]], Amended(vs[1..], h), v);
      } else {
        assert Amended(vs, h) == Amended(vs[1..], h);
      }
    }
  }

  function Amend(p: Product, h: Since): Product {
    p.(variants := Amended(p.variants, h))
  }

  /** A cached product, amended by what happened since, is the row. */
  predicate Follows(n: Noted, id: ProductId) {
    && id in n.shop.products && id in n.since && NamesRight(n.since[id])
    && Find(n.shop.rows, id) == Some(Amend(n.shop.products[id], n.since[id]))
  }

  ghost predicate AllFollow(n: Noted) {
    n.since.Keys == n.shop.products.Keys && forall id :: id in n.shop.products ==> Follows(n, id)
  }

  /** A write that names no other product leaves the row of id alone; the others amend it. */
  lemma {:induction false} RowAfter(s: Shop, c: Call, p: Product, h: Since, id: ProductId)
    requires Writes(s, c) && id !in Invalidated(c) && NamesRight(h) && Find(s.rows, id) == Some(Amend(p, h))
    ensures Find(RowsAfter(s, c), id) == Some(Amend(p, Happens(s, c, h))) && NamesRight(Happens(s, c, h))
  {
    match c
    case CreateProduct(q, _, named, ids) => FindAppend(s.rows, MakeProduct(named, ids, q), id);
    case UpdateProduct(named, patch, _) =>
      FindRow(s.rows, named);
      FindReplace(s.rows, Patched(Find(s.rows, named).value, patch), id);
    case DeleteProduct(named, _) => FindRemove(s.rows, named, id);
    case PutVariant(_, _, _, _) =>
      FindSet(s.rows, Saved(s, c), id);
      AmendedGives(p.variants, h, Saved(s, c));
    case NewVariant(named, v, input, _) => FindAdded(s.rows, named, MakeVariant(v, input, true), id);
    case DeleteVariant(v, _) =>
      FindWithout(s.rows, v, id);
      AmendedDeletes(p.variants, h, v);
  }

  lemma {:induction false} NoteFollows(n: Noted, c: Call)
    requires AllFollow(n)
    ensures AllFollow(Note(n, c))
  {
    var n' := Note(n, c);
    forall id | id in n'.shop.products ensures Follows(n', id) {
      if id !in n.shop.products {
        assert c == GetProduct(id);
        AmendedSame(n'.shop.products[id].variants, Since({}, map[]));
      } else {
        assert Follows(n, id);
        if Writes(n.shop, c) { RowAfter(n.shop, c, n.shop.products[id], n.since[id], id); }
      }
    }
  }

  lemma {:induction false} AlwaysFollow(calls: seq<Call>)
    ensures AllFollow(Run(calls))
  {
    if calls == [] {
    } else {
      AlwaysFollow(calls[..|calls| - 1]);
      NoteFollows(Run(calls[..|calls| - 1]), calls[|calls| - 1]);
    }
  }

  /**
    In every sequence of calls and expiries: getProduct answers what the
    repository would, unless the product is cached and since it was cached one of
    its variants was deleted, or given other values by an upsert naming another product.
  */
  lemma {:induction false} GetIsCurrentExactly(calls: seq<Call>, id: ProductId)
    ensures var n := Run(calls);
      Reply(n.shop, id) != Answer(n.shop.rows, id)
      <==> id in n.shop.products && id in n.since
           && exists i :: 0 <= i < |n.shop.products[id].variants|
                && Overtaken(n.shop.products[id].variants[i], n.since[id])
  {
    var n := Run(calls);
    AlwaysFollow(calls);
    if id in n.shop.products {
      assert Follows(n, id);
      AmendedSame(n.shop.products[id].variants, n.since[id]);
    }
  }

  // ----- lists, and whose variant is whose -----

  /** Cached lists are current. */
  ghost predicate ListsCurrent(s: Shop) {
    forall k :: k in s.lists ==> k.0 >= 1 && s.lists[k] == List(s.rows, k.0, k.1)
  }

  predicate OwnedBy(rows: Rows, v: VariantId, id: ProductId) {
    Find(rows, id).Some? && Owns(Find(rows, id).value, v)
  }

  /** A variant belongs to one product. */
  ghost predicate OwnedOnce(rows: Rows) {
    forall x, y, v | OwnedBy(rows, v, x) && OwnedBy(rows, v, y) :: x == y
  }

  /** The call gives the product a variant under a new id. */
  predicate Adds(c: Call, v: VariantId, id: ProductId) {
    (c.CreateProduct? && c.id == id && v in c.ids) || (c.NewVariant? && c.product == id && c.v == v)
  }

  lemma {:induction false} OwnersAfter(s: Shop, c: Call, v: VariantId, id: ProductId)
    requires Writes(s, c) && OwnedBy(RowsAfter(s, c), v, id)
    ensures OwnedBy(s.rows, v, id) || Adds(c, v, id)
  {
    match c
    case CreateProduct(p, _, named, ids) => FindAppend(s.rows, MakeProduct(named, ids, p), id);
    case UpdateProduct(named, patch, _) =>
      FindRow(s.rows, named);
      FindReplace(s.rows, Patched(Find(s.rows, named).value, patch), id);
    case DeleteProduct(named, _) => FindRemove(s.rows, named, id);
    case PutVariant(_, _, _, _) => FindSet(s.rows, Saved(s, c), id);
    case NewVariant(named, added, input, _) => FindAdded(s.rows, named, MakeVariant(added, input, true), id);
    case DeleteVariant(gone, _) =>
      FindWithout(s.rows, gone, id);
      StillOwned(Find(s.rows, id).value.variants, gone, v);
  }

  lemma {:induction false} StillOwned(vs: seq<Variant>, gone: VariantId, v: VariantId)
    requires exists i :: 0 <= i < |WithoutVariant(vs, gone)| && WithoutVariant(vs, gone)[i].id == v
    ensures exists i :: 0 <= i < |vs| && vs[i].id == v
  {
    var i :| 0 <= i < |WithoutVariant(vs, gone)| && WithoutVariant(vs, gone)[i].id == v;
    if vs[0].id == v {
    } else {
      var rest := WithoutVariant(vs[1..], gone);
      assert WithoutVariant(vs, gone)[i] == rest[if vs[0].id == gone then i else i - 1];
      StillOwned(vs[1..], gone, v);
      var j :| 0 <= j < |vs[1..]| && vs[1..][j].id == v;
      assert vs[j + 1].id == v;
    }
  }

  lemma OwnedIsHad(rows: Rows, v: VariantId, id: ProductId)
    requires OwnedBy(rows, v, id)
    ensures HasVariant(rows, v)
  {
    FindRow(rows, id);
    var i :| 0 <= i < |rows| && rows[i] == Find(rows, id).value;
    assert Owns(rows[i], v);
  }

  /** New variants come under new ids, so each belongs to one product. */
  lemma {:induction false} WriteKeepsOwners(s: Shop, c: Call)
    requires OwnedOnce(s.rows) && Writes(s, c)
    ensures OwnedOnce(RowsAfter(s, c))
  {
    var rows' := RowsAfter(s, c);
    forall x, y, v | OwnedBy(rows', v, x) && OwnedBy(rows', v, y) ensures x == y {
      OwnersAfter(s, c, v, x);
      OwnersAfter(s, c, v, y);
      if OwnedBy(s.rows, v, x) { OwnedIsHad(s.rows, v, x); }
      if OwnedBy(s.rows, v, y) { OwnedIsHad(s.rows, v, y); }
    }
  }

  lemma {:induction false} AlwaysOwnedOnce(calls: seq<Call>)
    ensures OwnedOnce(Run(calls).shop.rows)
  {
    if calls == [] {
    } else {
      var s, c := Run(calls[..|calls| - 1]).shop, calls[|calls| - 1];
      AlwaysOwnedOnce(calls[..|calls| - 1]);
      if Writes(s, c) { WriteKeepsOwners(s, c); }
    }
  }

  /** Product ids are distinct. */
  ghost predicate IdsOnce(rows: Rows) {
    forall i, j :: 0 <= i < j < |rows| ==> rows[i].id != rows[j].id
  }

  /** The row of that id is gone and the others are in their order. */
  ghost predicate RowGone(rows: Rows, rows': Rows, id: ProductId) {
    exists i :: 0 <= i < |rows| && rows[i].id == id && rows' == rows[..i] + rows[i + 1..]
  }

  lemma {:induction false} RemoveTakesRow(rows: Rows, id: ProductId)
    requires IdsOnce(rows) && Find(rows, id).Some?
    ensures RowGone(rows, Remove(rows, id), id)
  {
    FindRow(rows, id);
    var i :| 0 <= i < |rows| && rows[i].id == id;
    RemoveOneRow(rows, i);
  }

  lemma GoneKeepsIds(rows: Rows, rows': Rows, id: ProductId)
    requires IdsOnce(rows) && RowGone(rows, rows', id)
    ensures IdsOnce(rows')
  {}

  lemma {:induction false} WriteKeepsIds(s: Shop, c: Call)
    requires IdsOnce(s.rows) && Writes(s, c)
    ensures IdsOnce(RowsAfter(s, c))
  {
    match c
    case CreateProduct(_, _, id, _) => FindRow(s.rows, id);
    case UpdateProduct(id, _, _) => FindRow(s.rows, id);
    case DeleteProduct(id, _) =>
      RemoveTakesRow(s.rows, id);
      GoneKeepsIds(s.rows, RowsAfter(s, c), id);
    case PutVariant(_, _, _, _) =>
    case NewVariant(_, _, _, _) =>
    case DeleteVariant(_, _) =>
  }

  lemma {:induction false} AlwaysIdsOnce(calls: seq<Call>)
    ensures IdsOnce(Run(calls).shop.rows)
  {
    if calls == [] {
    } else {
      var s, c := Run(calls[..|calls| - 1]).shop, calls[|calls| - 1];
      AlwaysIdsOnce(calls[..|calls| - 1]);
      if Writes(s, c) { WriteKeepsIds(s, c); }
    }
  }

  /** listProducts answers what the repository would, in every sequence of calls and expiries. */
  lemma {:induction false} ListIsCurrent(calls: seq<Call>)
    ensures ListsCurrent(Run(calls).shop)
  {
    if calls == [] {
    } else {
      ListIsCurrent(calls[..|calls| - 1]);
      StepKeepsLists(Run(calls[..|calls| - 1]).shop, calls[|calls| - 1]);
    }
  }

  lemma {:induction false} StepKeepsLists(s: Shop, c: Call)
    requires ListsCurrent(s)
    ensures ListsCurrent(Step(s, c))
  {
    var s' := Step(s, c);
    if s'.lists != map[] { assert s'.rows == s.rows; }
  }

  // ----- runs without deleteVariant whose upserts name the owner -----

  /** The write is neither deleteVariant nor an upsert of a variant that is not of the product named. */
  predicate Targeted(s: Shop, c: Call) {
    Writes(s, c) ==> !c.DeleteVariant? && (c.PutVariant? ==> OwnedBy(s.rows, c.v, c.product))
  }

  ghost predicate TargetedRun(calls: seq<Call>) {
    calls == []
    || (TargetedRun(calls[..|calls| - 1]) && Targeted(Run(calls[..|calls| - 1]).shop, calls[|calls| - 1]))
  }

  /** Such a write changes no row but the one it invalidates. */
  lemma {:induction false} RowsKept(s: Shop, c: Call, id: ProductId)
    requires OwnedOnce(s.rows) && Writes(s, c) && Targeted(s, c) && id !in Invalidated(c)
    ensures Find(RowsAfter(s, c), id) == Find(s.rows, id)
  {
    match c
    case CreateProduct(p, _, named, ids) => FindAppend(s.rows, MakeProduct(named, ids, p), id);
    case UpdateProduct(named, patch, _) =>
      FindRow(s.rows, named);
      FindReplace(s.rows, Patched(Find(s.rows, named).value, patch), id);
    case DeleteProduct(named, _) => FindRemove(s.rows, named, id);
    case PutVariant(named, v, _, _) =>
      assert OwnedBy(s.rows, v, named) && !OwnedBy(s.rows, v, id);
      UpdateVariantChanges(s.rows, Saved(s, c), id);
    case NewVariant(named, v, input, _) => FindAdded(s.rows, named, MakeVariant(v, input, true), id);
  }

  lemma {:induction false} TargetedStepStaysCurrent(s: Shop, c: Call)
    requires OwnedOnce(s.rows) && Targeted(s, c) && Stale(s.rows, s.products) == {}
    ensures Stale(Step(s, c).rows, Step(s, c).products) == {}
  {
    var s' := Step(s, c);
    forall x | x in s'.products ensures Find(s'.rows, x) == Some(s'.products[x]) {
      if x in s.products {
        assert x !in Stale(s.rows, s.products);
        if Writes(s, c) { RowsKept(s, c, x); }
      }
    }
  }

  lemma {:induction false} NothingStale(calls: seq<Call>)
    requires TargetedRun(calls)
    ensures Stale(Run(calls).shop.rows, Run(calls).shop.products) == {}
  {
    if calls == [] {
    } else {
      NothingStale(calls[..|calls| - 1]);
      AlwaysOwnedOnce(calls[..|calls| - 1]);
      TargetedStepStaysCurrent(Run(calls[..|calls| - 1]).shop, calls[|calls| - 1]);
    }
  }

  /**
    In every run without deleteVariant whose upserts name the variant's own
    product, getProduct always answers what the repository would.
  */
  lemma {:induction false} TargetedRunsAreCurrent(calls: seq<Call>, id: ProductId)
    requires TargetedRun(calls)
    ensures var s := Run(calls).shop; Reply(s, id) == Answer(s.rows, id)
  {
    NothingStale(calls);
    var s := Run(calls).shop;
    assert id !in Stale(s.rows, s.products);
  }

  // ----- the two ways to serve an old product -----

  /** The product as it stands is read through the cache. */
  lemma {:induction false} CachedAnew(calls: seq<Call>, id: ProductId) returns (more: seq<Call>)
    requires Find(Run(calls).shop.rows, id).Some?
    ensures var s, s' := Run(calls).shop, Run(more).shop;
      s'.rows == s.rows && id in s'.products && Find(s.rows, id) == Some(s'.products[id])
  {
    FoldThen(Note, OPEN, calls, ProductExpires(id));
    FoldThen(Note, OPEN, calls + [ProductExpires(id)], GetProduct(id));
    more := calls + [ProductExpires(id)] + [GetProduct(id)];
  }

  /** From any reachable state, a product read and then robbed of a variant is served with it. */
  lemma {:induction false} DeletedVariantIsServed(calls: seq<Call>, id: ProductId,
      v: VariantId) returns (more: seq<Call>)
    requires OwnedBy(Run(calls).shop.rows, v, id)
    ensures var s := Run(more).shop;
      id in s.products && Owns(s.products[id], v) && Reply(s, id) != Answer(s.rows, id)
  {
    var cached := CachedAnew(calls, id);
    var s := Run(cached).shop;
    OwnedIsHad(s.rows, v, id);
    RemoveVariantChanges(s.rows, v, id);
    FoldThen(Note, OPEN, cached, DeleteVariant(v, true));
    more := cached + [DeleteVariant(v, true)];
  }

  /** From any reachable state, an upsert naming another product leaves the owner served with the old values. */
  lemma {:induction false} MisnamedUpsertIsServed(calls: seq<Call>, id: ProductId, other: ProductId, v: VariantId,
      input: VariantInput) returns (more: seq<Call>)
    requires var rows := Run(calls).shop.rows;
      OwnedBy(rows, v, id) && other != id && Find(rows, other).Some? && ValidVariant(input)
    requires forall w | w in Find(Run(calls).shop.rows, id).value.variants :: w.id == v ==> w.price != input.price.n
    ensures var s := Run(more).shop;
      id in s.products && Reply(s, id) != Answer(s.rows, id)
  {
    var cached := CachedAnew(calls, id);
    var s, c := Run(cached).shop, PutVariant(other, v, input, true);
    OwnedIsHad(s.rows, v, id);
    FindVariantOwned(s.rows, v);
    UpdateVariantChanges(s.rows, Saved(s, c), id);
    assert Differs(s.products[id], Saved(s, c));
    FoldThen(Note, OPEN, cached, c);
    more := cached + [c];
  }
}
