/** The catalog service as an object, with the Redis cache in front of the repository. */
module CatalogServices {
  import opened Common
  import opened Catalog
  import opened CatalogCalls
  import opened Text

  class CatalogService {
    var rows: Rows
    /** product:{id} and catalog:list:{page}:{limit}. */
    var products: map<ProductId, Product>
    var lists: map<(nat, nat), Page>

    constructor ()
      ensures Valid() && Now() == OPEN.shop
    {
      rows, products, lists := [], map[], map[];
    }

    function Now(): Shop
      reads this
    {
      Shop(rows, products, lists)
    }

    /** Cached lists are current, product ids distinct, and a variant belongs to one product. */
    ghost predicate Valid()
      reads this
    {
      ListsCurrent(Now()) && IdsOnce(rows) && OwnedOnce(rows)
    }

    function Outdated(): set<ProductId>
      reads this
    {
      Stale(rows, products)
    }

    /** Redis dropped a key. */
    method ProductExpires(id: ProductId)
      requires Valid()
      modifies this`products
      ensures Valid() && Now() == Step(old(Now()), Call.ProductExpires(id))
      ensures products == old(products) - {id} && Outdated() == old(Outdated()) - {id}
    {
      products := products - {id};
    }

    method ListExpires(k: (nat, nat))
      requires Valid()
      modifies this`lists
      ensures Valid() && Now() == Step(old(Now()), Call.ListExpires(k))
      ensures lists == old(lists) - {k}
    {
      lists := lists - {k};
    }

    method ListProducts(page: int, limit: int) returns (r: Page)
      requires Valid()
      modifies this`lists
      ensures Valid() && Now() == Step(old(Now()), Call.ListProducts(page, limit))
      ensures r == List(rows, SafePage(page), SafeLimit(limit))
      ensures AnswersPage(rows, page, limit, r)
      ensures var k := (if page < 1 then 1 else page, if limit < 1 then 1 else if limit > 100 then 100 else limit);
        k in lists && lists[k] == r && lists - {k} == old(lists) - {k}
    {
      ListAnswers(rows, page, limit);
      var k := (SafePage(page), SafeLimit(limit));
      if k in lists {
        return lists[k];
      }
      r := List(rows, k.0, k.1);
      lists := lists[k := r];
    }

    /** What the repository would answer now, exactly unless the cached product is outdated. */
    method GetProduct(id: ProductId) returns (r: Result<Product>)
      requires Valid()
      modifies this`products
      ensures Valid() && Now() == Step(old(Now()), Call.GetProduct(id))
      ensures r == Reply(old(Now()), id) && (r.Ok? ==> id in products && products[id] == r.value)
      ensures products - {id} == old(products) - {id} && Outdated() == old(Outdated())
      ensures r == Answer(rows, id) <==> id !in Outdated()
    {
      if id in products {
        return Ok(products[id]);
      }
      var found := Find(rows, id);
      if found.None? {
        return Err(NotFound);
      }
      FindRow(rows, id);
      products := products[found.value.id := found.value];
      r := Ok(found.value);
    }

    method CreateProduct(p: ProductInput, admin: bool, id: ProductId,
        ids: seq<VariantId>) returns (r: Result<Product>)
      requires Valid() && FreshIds(rows, id, ids, |p.variants|)
      modifies this
      ensures Valid() && Now() == Step(old(Now()), Call.CreateProduct(p, admin, id, ids))
      ensures r == Err(Forbidden) <==> !admin
      ensures r.Ok? <==> admin && Trim(p.name) != "" && p.variants != [] && forall v :: v in p.variants ==> Sellable(v)
      ensures r.Ok? || r.error == Forbidden || r.error == Invalid
      ensures r.Ok? ==> ProductAsked(r.value, id, ids, p) && rows == old(rows) + [r.value]
      ensures r.Err? ==> rows == old(rows) && products == old(products)
      ensures Outdated() == if r.Ok? then old(Outdated()) - {id} else old(Outdated())
    {
      if !admin { return Err(Forbidden); }
      CreatableMeans(p);
      if Blank(p.name) || p.variants == [] { return Err(Invalid); }
      var i := 0;
      while i < |p.variants|
        invariant 0 <= i <= |p.variants| && forall j :: 0 <= j < i ==> ValidVariant(p.variants[j])
      {
        if !ValidPrice(p.variants[i].price) || Blank(p.variants[i].variantLabel) { return Err(Invalid); }
        i := i + 1;
      }
      var made := MakeProduct(id, ids, p);
      forall x ensures x != id ==> Find(rows + [made], x) == Find(rows, x) {
        FindAppend(rows, made, x);
      }
      WriteKeepsOwners(Now(), Call.CreateProduct(p, admin, id, ids));
      WriteKeepsIds(Now(), Call.CreateProduct(p, admin, id, ids));
      rows := rows + [made];
      AfterMutation(id);
      r := Ok(made);
    }

    method UpdateProduct(id: ProductId, patch: Patch, admin: bool) returns (r: Result<Product>)
      requires Valid()
      modifies this
      ensures Valid() && Now() == Step(old(Now()), Call.UpdateProduct(id, patch, admin))
      ensures r == Err(Forbidden) <==> !admin
      ensures r.Ok? <==> admin && Find(old(rows), id).Some?
      ensures r.Err? ==> r.error == Forbidden || r.error == NotFound
      ensures r.Ok? ==> PatchAsked(r.value, Find(old(rows), id).value, patch)
      ensures r.Ok? ==> |rows| == |old(rows)|
      ensures r.Ok? ==> forall i :: 0 <= i < |rows| ==>
        rows[i] == if old(rows)[i].id == id then r.value else old(rows)[i]
      ensures r.Err? ==> rows == old(rows) && products == old(products)
      ensures Outdated() == if r.Ok? then old(Outdated()) - {id} else old(Outdated())
    {
      if !admin { return Err(Forbidden); }
      var found := Find(rows, id);
      if found.None? { return Err(NotFound); }
      FindRow(rows, id);
      var p := Patched(found.value, patch);
      forall x ensures x != id ==> Find(Replace(rows, p), x) == Find(rows, x) {
        FindReplace(rows, p, x);
      }
      WriteKeepsOwners(Now(), Call.UpdateProduct(id, patch, admin));
      WriteKeepsIds(Now(), Call.UpdateProduct(id, patch, admin));
      rows := Replace(rows, p);
      AfterMutation(p.id);
      r := Ok(p);
    }

    method DeleteProduct(id: ProductId, admin: bool) returns (r: Result<ProductId>)
      requires Valid()
      modifies this
      ensures Valid() && Now() == Step(old(Now()), Call.DeleteProduct(id, admin))
      ensures r == Err(Forbidden) <==> !admin
      ensures r.Ok? <==> admin && Find(old(rows), id).Some?
      ensures r.Err? ==> r.error == Forbidden || r.error == NotFound
      ensures r.Ok? ==> r.value == id && RowGone(old(rows), rows, id)
      ensures r.Err? ==> rows == old(rows) && products == old(products)
      ensures Outdated() == if r.Ok? then old(Outdated()) - {id} else old(Outdated())
    {
      if !admin { return Err(Forbidden); }
      if Find(rows, id).None? { return Err(NotFound); }
      forall x ensures x != id ==> Find(Remove(rows, id), x) == Find(rows, x) {
        FindRemove(rows, id, x);
      }
      WriteKeepsOwners(Now(), Call.DeleteProduct(id, admin));
      WriteKeepsIds(Now(), Call.DeleteProduct(id, admin));
      RemoveTakesRow(rows, id);
      rows := Remove(rows, id);
      AfterMutation(id);
      r := Ok(id);
    }

    /**
      upsertVariant with an id: the existing row changes wherever it is, and only
      the product named is invalidated.  A cached current product goes stale
      exactly when it lists the variant with other values and is not the one named.
    */
    method UpdateVariant(productId: ProductId, id: VariantId, v: VariantInput, admin: bool) returns (r: Result<Variant>)
      requires Valid()
      modifies this
      ensures Valid() && Now() == Step(old(Now()), PutVariant(productId, id, v, admin))
      ensures r == Err(Forbidden) <==> !admin
      ensures r.Ok? <==> admin && Sellable(v) && Find(old(rows), productId).Some? && HasVariant(old(rows), id)
      ensures r == Err(Invalid) <==> admin && !Sellable(v)
      ensures r.Ok? ==> FindVariant(old(rows), id).Some?
      ensures r.Ok? ==> VariantAsked(r.value, id, v, FindVariant(old(rows), id).value.isActive)
      ensures r.Ok? ==> VariantSaved(old(rows), rows, r.value) && products == old(products) - {productId}
      ensures r.Err? ==> rows == old(rows) && products == old(products)
      ensures forall x | x in old(products) && x !in old(Outdated()) ::
        x in Outdated() <==> r.Ok? && x != productId && Differs(old(products)[x], r.value)
    {
      if !admin { return Err(Forbidden); }
      SellableIsValid(v);
      if !ValidPrice(v.price) || Blank(v.variantLabel) { return Err(Invalid); }
      if Find(rows, productId).None? { return Err(NotFound); }
      FindVariantOwned(rows, id);
      var found := FindVariant(rows, id);
      if found.None? { return Err(NotFound); }
      var saved := MakeVariant(id, v, found.value.isActive);
      forall x ensures Find(Catalog.UpdateVariant(rows, saved), x) == Find(rows, x)
        <==> !(Find(rows, x).Some? && Differs(Find(rows, x).value, saved))
      {
        UpdateVariantChanges(rows, saved, x);
      }
      WriteKeepsOwners(Now(), PutVariant(productId, id, v, admin));
      WriteKeepsIds(Now(), PutVariant(productId, id, v, admin));
      rows := Catalog.UpdateVariant(rows, saved);
      AfterMutation(productId);
      r := Ok(saved);
    }

    /** upsertVariant without an id. */
    method AddVariant(productId: ProductId, id: VariantId, v: VariantInput, admin: bool) returns (r: Result<Variant>)
      requires Valid() && !HasVariant(rows, id)
      modifies this
      ensures Valid() && Now() == Step(old(Now()), NewVariant(productId, id, v, admin))
      ensures r == Err(Forbidden) <==> !admin
      ensures r.Ok? <==> admin && Sellable(v) && Find(old(rows), productId).Some?
      ensures r == Err(Invalid) <==> admin && !Sellable(v)
      ensures r.Ok? ==> VariantAsked(r.value, id, v, true) && VariantAdded(old(rows), rows, productId, r.value)
      ensures r.Err? ==> rows == old(rows) && products == old(products)
      ensures Outdated() == if r.Ok? then old(Outdated()) - {productId} else old(Outdated())
    {
      if !admin { return Err(Forbidden); }
      SellableIsValid(v);
      if !ValidPrice(v.price) || Blank(v.variantLabel) { return Err(Invalid); }
      if Find(rows, productId).None? { return Err(NotFound); }
      var saved := MakeVariant(id, v, true);
      forall x | x != productId ensures Find(Catalog.AddVariant(rows, productId, saved), x) == Find(rows, x) {
        FindAdded(rows, productId, saved, x);
      }
      WriteKeepsOwners(Now(), NewVariant(productId, id, v, admin));
      WriteKeepsIds(Now(), NewVariant(productId, id, v, admin));
      rows := Catalog.AddVariant(rows, productId, saved);
      AfterMutation(productId);
      r := Ok(saved);
    }

    /** Invalidates the lists only: a cached current product goes stale exactly when it owned the variant. */
    method DeleteVariant(v: VariantId, admin: bool) returns (r: Result<VariantId>)
      requires Valid()
      modifies this
      ensures Valid() && Now() == Step(old(Now()), Call.DeleteVariant(v, admin))
      ensures r == Err(Forbidden) <==> !admin
      ensures r.Ok? <==> admin && HasVariant(old(rows), v)
      ensures rows == if r.Ok? then RemoveVariant(old(rows), v) else old(rows)
      ensures products == old(products)
      ensures forall x | x in products && x !in old(Outdated()) :: x in Outdated() <==> r.Ok? && Owns(products[x], v)
    {
      if !admin { return Err(Forbidden); }
      if !HasVariant(rows, v) { return Err(NotFound); }
      forall x ensures Find(RemoveVariant(rows, v), x) == Find(rows, x)
        <==> !(Find(rows, x).Some? && Owns(Find(rows, x).value, v))
      {
        RemoveVariantChanges(rows, v, x);
      }
      WriteKeepsOwners(Now(), Call.DeleteVariant(v, admin));
      WriteKeepsIds(Now(), Call.DeleteVariant(v, admin));
      rows := RemoveVariant(rows, v);
      lists := map[];
      r := Ok(v);
    }

    method AfterMutation(id: ProductId)
      modifies this`products, this`lists
      ensures products == old(products) - {id} && lists == map[]
      ensures Outdated() == old(Outdated()) - {id}
    {
      products := products - {id};
      lists := map[];
    }
  }

  /** The product of that id lists the variant last, and nothing else changed. */
  predicate VariantAdded(rows: Rows, rows': Rows, id: ProductId, v: Variant) {
    |rows'| == |rows| && forall i :: 0 <= i < |rows| ==>
      && rows'[i] == rows[i].(variants := rows'[i].variants)
      && rows'[i].variants == if rows[i].id == id then rows[i].variants + [v] else rows[i].variants
  }

  /** Each variant of that id now is the one saved, and nothing else of any row changed. */
  predicate VariantSaved(rows: Rows, rows': Rows, saved: Variant) {
    |rows'| == |rows| && forall i :: 0 <= i < |rows| ==>
      && rows'[i] == rows[i].(variants := rows'[i].variants) && |rows'[i].variants| == |rows[i].variants|
      && forall j :: 0 <= j < |rows[i].variants| ==>
        rows'[i].variants[j] == if rows[i].variants[j].id == saved.id then saved else rows[i].variants[j]
  }

  /** deleteVariant leaves a current cached product stale exactly when that product owned the variant. */
  lemma DeletedVariantStaysCached(rows: Rows, id: ProductId, p: Product, v: VariantId)
    requires Find(rows, id) == Some(p)
    ensures Find(RemoveVariant(rows, v), id) == Some(p) <==> !Owns(p, v)
  {
    RemoveVariantChanges(rows, v, id);
  }
}
