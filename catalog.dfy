/** The product-list transformations of the store: the product `addProduct` builds, the
    spread-merge and `map` of `updateProduct`, the `filter` of `deleteProduct`, and the
    per-vendor product list both dashboards show. */
module Catalog {
  import opened Model
  import opened Seqs

  /** Some product in `ps` has id `id`. */
  predicate HasId(ps: seq<Product>, id: string)
  {
    exists i :: 0 <= i < |ps| && ps[i].id == id
  }

  /** `{...draft, id, vendorId: user?.id || ''}`: the draft's fields under a new id, owned by
      the current user (or by nobody), whatever vendor the draft names. */
  function NewProduct(draft: ProductDraft, id: string, user: Option<User>): Product
  {
    Product(id, draft.name, draft.category, draft.price, draft.quantity,
            if user.Some? then user.value.id else "", draft.image)
  }

  /** `{...p, ...u}`: the fields `u` mentions replace those of `p`. */
  function Merge(p: Product, u: ProductPatch): Product
  {
    Product(u.id.GetOr(p.id), u.name.GetOr(p.name), u.category.GetOr(p.category),
            u.price.GetOr(p.price), u.quantity.GetOr(p.quantity),
            u.vendorId.GetOr(p.vendorId), u.image.GetOr(p.image))
  }

  /** The patch that mentions no field. */
  const NoChanges := ProductPatch(None, None, None, None, None, None, None)

  /** The patch that mentions every field, with `q`'s values. */
  function FullPatch(q: Product): ProductPatch
  {
    ProductPatch(Some(q.id), Some(q.name), Some(q.category), Some(q.price), Some(q.quantity),
                 Some(q.vendorId), Some(q.image))
  }

  /** `{...u1, ...u2}`: the fields of both patches, `u2`'s winning. */
  function Then(u1: ProductPatch, u2: ProductPatch): ProductPatch
  {
    ProductPatch(if u2.id.Some? then u2.id else u1.id,
                 if u2.name.Some? then u2.name else u1.name,
                 if u2.category.Some? then u2.category else u1.category,
                 if u2.price.Some? then u2.price else u1.price,
                 if u2.quantity.Some? then u2.quantity else u1.quantity,
                 if u2.vendorId.Some? then u2.vendorId else u1.vendorId,
                 if u2.image.Some? then u2.image else u1.image)
  }

  /** Merging keeps the fields the patch does not mention and takes the ones it does. */
  lemma MergeFields(p: Product, u: ProductPatch)
    ensures u.id.None? ==> Merge(p, u).id == p.id
    ensures u.id.Some? ==> Merge(p, u).id == u.id.value
    ensures u.name.None? ==> Merge(p, u).name == p.name
    ensures u.name.Some? ==> Merge(p, u).name == u.name.value
    ensures u.category.None? ==> Merge(p, u).category == p.category
    ensures u.category.Some? ==> Merge(p, u).category == u.category.value
    ensures u.price.None? ==> Merge(p, u).price == p.price
    ensures u.price.Some? ==> Merge(p, u).price == u.price.value
    ensures u.quantity.None? ==> Merge(p, u).quantity == p.quantity
    ensures u.quantity.Some? ==> Merge(p, u).quantity == u.quantity.value
    ensures u.vendorId.None? ==> Merge(p, u).vendorId == p.vendorId
    ensures u.vendorId.Some? ==> Merge(p, u).vendorId == u.vendorId.value
    ensures u.image.None? ==> Merge(p, u).image == p.image
    ensures u.image.Some? ==> Merge(p, u).image == u.image.value
    ensures u == NoChanges ==> Merge(p, u) == p
    ensures Merge(p, FullPatch(p)) == p
    ensures forall q :: Merge(p, FullPatch(q)) == q
    ensures Merge(Merge(p, u), u) == Merge(p, u)
  {
  }

  /** Two successive merges are one merge of the combined patch. */
  lemma MergeThen(p: Product, u1: ProductPatch, u2: ProductPatch)
    ensures Merge(Merge(p, u1), u2) == Merge(p, Then(u1, u2))
  {
  }

  /** The row transformer of `updateProduct`'s `map`. */
  function Override(id: string, u: ProductPatch): Product -> Product
  {
    (p: Product) => if p.id == id then Merge(p, u) else p
  }

  /** The updater of `updateProduct(id, u)`. */
  function UpdateProducts(ps: seq<Product>, id: string, u: ProductPatch): seq<Product>
  {
    Map(ps, Override(id, u))
  }

  /** The condition of `deleteProduct`'s `filter`. */
  function NotId(id: string): Product -> bool
  {
    (p: Product) => p.id != id
  }

  /** The updater of `deleteProduct(id)`. */
  function DeleteProducts(ps: seq<Product>, id: string): seq<Product>
  {
    Filter(ps, NotId(id))
  }

  /** The condition of the per-vendor `filter`. */
  function OwnedBy(vendorId: string): Product -> bool
  {
    (p: Product) => p.vendorId == vendorId
  }

  /** `products.filter(p => p.vendorId === vendorId)`. */
  function ProductsOf(ps: seq<Product>, vendorId: string): seq<Product>
  {
    Filter(ps, OwnedBy(vendorId))
  }

  // ---------------------------------------------------------------------------
  // updateProduct

  /** `updateProduct(id, u)` keeps the list's length and order, merges `u` into every product
      with id `id` and leaves every other product as it was. */
  lemma UpdateProductsAt(ps: seq<Product>, id: string, u: ProductPatch)
    ensures |UpdateProducts(ps, id, u)| == |ps|
    ensures forall i :: 0 <= i < |ps| && ps[i].id == id ==> UpdateProducts(ps, id, u)[i] == Merge(ps[i], u)
    ensures forall i :: 0 <= i < |ps| && ps[i].id != id ==> UpdateProducts(ps, id, u)[i] == ps[i]
  {
  }

  /** `updateProduct` with an id no product has changes nothing. */
  lemma UpdateUnknownId(ps: seq<Product>, id: string, u: ProductPatch)
    requires !HasId(ps, id)
    ensures UpdateProducts(ps, id, u) == ps
  {
    var r := UpdateProducts(ps, id, u);
    forall i | 0 <= i < |ps| ensures r[i] == ps[i] {
      assert ps[i].id != id;
    }
  }

  /** `updateProduct` distributes over concatenation. */
  lemma UpdateConcat(a: seq<Product>, b: seq<Product>, id: string, u: ProductPatch)
    ensures UpdateProducts(a + b, id, u) == UpdateProducts(a, id, u) + UpdateProducts(b, id, u)
  {
    var r, s := UpdateProducts(a + b, id, u), UpdateProducts(a, id, u) + UpdateProducts(b, id, u);
    forall i | 0 <= i < |r| ensures r[i] == s[i] {
      if i < |a| { assert (a + b)[i] == a[i]; } else { assert (a + b)[i] == b[i - |a|]; }
    }
  }

  /** A product just added, then updated by its id with a patch that mentions only the price:
      only its price changes, and the other products stay as they were. */
  lemma AddThenUpdatePrice(ps: seq<Product>, draft: ProductDraft, id: string, user: Option<User>, price: int)
    requires !HasId(ps, id)
    ensures UpdateProducts(ps + [NewProduct(draft, id, user)], id, NoChanges.(price := Some(price)))
         == ps + [NewProduct(draft, id, user).(price := price)]
  {
    var u := NoChanges.(price := Some(price));
    UpdateConcat(ps, [NewProduct(draft, id, user)], id, u);
    UpdateUnknownId(ps, id, u);
  }

  // ---------------------------------------------------------------------------
  // deleteProduct

  /** After `deleteProduct(id)` no product with that id is left, and the products that stay
      are exactly the old ones with other ids. */
  lemma DeleteProductsMembers(ps: seq<Product>, id: string)
    ensures !HasId(DeleteProducts(ps, id), id)
    ensures forall p :: p in DeleteProducts(ps, id) <==> p in ps && p.id != id
  {
    var r := DeleteProducts(ps, id);
    forall i | 0 <= i < |r| ensures r[i].id != id {
      assert r[i] in r;
    }
  }

  /** `deleteProduct` keeps the remaining products in their order: it distributes over
      concatenation. */
  lemma DeleteProductsConcat(a: seq<Product>, b: seq<Product>, id: string)
    ensures DeleteProducts(a + b, id) == DeleteProducts(a, id) + DeleteProducts(b, id)
  {
    FilterConcat(a, b, NotId(id));
  }

  /** `deleteProduct` of an unknown id changes nothing, and deleting twice is deleting once. */
  lemma DeleteProductsAbsent(ps: seq<Product>, id: string)
    ensures !HasId(ps, id) ==> DeleteProducts(ps, id) == ps
    ensures DeleteProducts(DeleteProducts(ps, id), id) == DeleteProducts(ps, id)
  {
    if !HasId(ps, id) {
      forall p | p in ps ensures p.id != id {
        var i :| 0 <= i < |ps| && ps[i] == p;
      }
      FilterKeepsAll(ps, NotId(id));
    }
    FilterIdempotent(ps, NotId(id));
  }

  /** After `deleteProduct(id)`, `updateProduct(id, u)` changes nothing. */
  lemma DeleteThenUpdate(ps: seq<Product>, id: string, u: ProductPatch)
    ensures UpdateProducts(DeleteProducts(ps, id), id, u) == DeleteProducts(ps, id)
  {
    DeleteProductsMembers(ps, id);
    UpdateUnknownId(DeleteProducts(ps, id), id, u);
  }

  // ---------------------------------------------------------------------------
  // The per-vendor product list

  /** A product appended to the list joins exactly its owner's list, at the end. */
  lemma ProductsOfAppend(ps: seq<Product>, p: Product, vendorId: string)
    ensures ProductsOf(ps + [p], vendorId)
         == ProductsOf(ps, vendorId) + (if p.vendorId == vendorId then [p] else [])
  {
    FilterConcat(ps, [p], OwnedBy(vendorId));
    assert [p][1..] == [];
  }

  /** The number of products a vendor card shows is the number of products the vendor owns. */
  lemma ProductsOfCount(ps: seq<Product>, vendorId: string)
    ensures |ProductsOf(ps, vendorId)| == Count(ps, OwnedBy(vendorId))
    ensures forall p :: p in ProductsOf(ps, vendorId) <==> p in ps && p.vendorId == vendorId
  {
    FilterLength(ps, OwnedBy(vendorId));
  }
}
