/** The shop owner's dashboard: the category list, the cart total, the per-product button,
    the vendor cards and the two handlers that change the store. */
module ShopDashboard {
  import opened Model
  import opened Seqs
  import Cart
  import Catalog
  import AppContext

  const EmptyCartError := "Your cart is empty"

  function Category(p: Product): string
  {
    p.category
  }

  /** `[...new Set(products.map(p => p.category))]`: every category once. */
  function Categories(products: seq<Product>): (r: seq<string>)
    ensures NoDuplicates(r)
    ensures forall p :: p in products ==> p.category in r
    ensures forall c :: c in r ==> exists p :: p in products && p.category == c
  {
    var r := Dedup(Map(products, Category));
    assert forall c :: c in r ==> exists p :: p in products && p.category == c by {
      forall c | c in r ensures exists p :: p in products && p.category == c {
        MapImage(products, Category, c);
      }
    }
    r
  }

  /** Categories are listed once each, in the order of their first appearance: one more
      product adds its category at the end when it is new, and nothing when it is not. */
  lemma CategoriesAppend(products: seq<Product>, p: Product)
    ensures Categories(products + [p])
         == Categories(products) + (if p.category in Categories(products) then [] else [p.category])
  {
    var cats := Map(products, Category);
    MapAppend(products, p, Category);
    DedupAppend(cats, p.category);
    assert p.category in Dedup(cats) <==> p.category in cats;
  }

  /** The "In Cart (n)" label: the quantity of the cart row for the product, if it has one. */
  function InCartQuantity(cart: seq<CartItem>, pid: string): Option<int>
  {
    match Cart.FindItem(cart, pid)
    case Some(item) => Some(item.quantity)
    case None => None
  }

  /** The label shows the quantity of the one row for the product, and no label shows when
      the product is not in the cart. */
  lemma InCartQuantityUnique(cart: seq<CartItem>, pid: string)
    requires Cart.UniqueIds(cart)
    ensures InCartQuantity(cart, pid).None? <==> !Cart.InCart(cart, pid)
    ensures forall k :: 0 <= k < |cart| && cart[k].productId == pid ==> InCartQuantity(cart, pid) == Some(cart[k].quantity)
  {
    forall k | 0 <= k < |cart| && cart[k].productId == pid
      ensures InCartQuantity(cart, pid) == Some(cart[k].quantity)
    {
      Cart.FindUnique(cart, pid, k);
    }
  }

  /** The add button is disabled while that product is being added, or when it is out of stock. */
  predicate AddDisabled(loading: Option<string>, p: Product)
  {
    loading == Some(p.id) || p.quantity == 0
  }

  /** While one product is being added only its button is disabled for that reason; a
      product out of stock stays disabled whatever is loading. */
  lemma AddDisabledOnlyFor(loading: Option<string>, p: Product, q: Product)
    requires loading == Some(p.id) && q.id != p.id
    ensures AddDisabled(loading, p)
    ensures AddDisabled(loading, q) <==> q.quantity == 0
    ensures forall l :: p.quantity == 0 ==> AddDisabled(l, p)
  {
  }

  /** The "n Products Available" line of a vendor card. */
  function VendorProductCount(products: seq<Product>, v: Vendor): nat
  {
    |Catalog.ProductsOf(products, v.id)|
  }

  /** The vendor cards count the products whose `vendorId` is the vendor's id. */
  lemma VendorProductCountIsCount(products: seq<Product>, v: Vendor)
    ensures VendorProductCount(products, v) == Count(products, Catalog.OwnedBy(v.id))
  {
    Catalog.ProductsOfCount(products, v.id);
  }

  /** The component's own state: the product being added, if any. */
  class ShopView {
    var loading: Option<string>

    constructor ()
      ensures loading == None
    {
      loading := None;
    }

    /** `handleAddToCart` at once: mark the product as being added. */
    method BeginAddToCart(p: Product)
      modifies this
      ensures loading == Some(p.id)
      ensures AddDisabled(loading, p)
    {
      loading := Some(p.id);
    }

    /** `handleAddToCart` when the delay ends: add one unit of the product, clear the mark. */
    method CompleteAddToCart(store: AppContext.Store, p: Product)
      requires store.Valid()
      modifies this, store
      ensures store.Valid() && loading == None
      ensures store.cart == Cart.AddItem(old(store.cart), p, 1)
      ensures Cart.ItemCount(store.cart) == Cart.ItemCount(old(store.cart)) + 1
      ensures store.user == old(store.user) && store.products == old(store.products)
      ensures store.orders == old(store.orders) && store.messages == old(store.messages)
    {
      store.AddToCart(p, 1);
      loading := None;
    }

    /** The trash button of a cart row. */
    method HandleRemove(store: AppContext.Store, item: CartItem)
      requires store.Valid()
      modifies store
      ensures store.Valid()
      ensures store.cart == Cart.RemoveItem(old(store.cart), item.productId)
      ensures store.user == old(store.user) && store.products == old(store.products)
      ensures store.orders == old(store.orders) && store.messages == old(store.messages)
    {
      store.RemoveFromCart(item.productId);
    }

    /** `handlePlaceOrder`: an empty cart is reported and `placeOrder` is not called;
        otherwise the store places the order. */
    method HandlePlaceOrder(store: AppContext.Store, orderId: string, date: string) returns (error: Option<string>)
      requires store.Valid()
      modifies store
      ensures store.Valid()
      ensures error == (if old(store.cart) == [] then Some(EmptyCartError) else None)
      ensures old(store.cart) == [] ==> store.cart == old(store.cart) && store.orders == old(store.orders)
      ensures old(store.cart) != [] && old(store.user).Some? ==>
        store.cart == [] && store.orders == old(store.orders) + [AppContext.NewOrder(orderId, old(store.user).value, old(store.cart), date)]
      ensures old(store.user).None? ==> store.cart == old(store.cart) && store.orders == old(store.orders)
      ensures store.user == old(store.user) && store.products == old(store.products) && store.messages == old(store.messages)
    {
      if store.cart == [] {
        return Some(EmptyCartError);
      }
      store.PlaceOrder(orderId, date);
      error := None;
    }
  }
}
