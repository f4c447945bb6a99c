/** The shared marketplace store (`AppProvider`): the current user, the products, the fixed
    vendor list, the cart, the orders and the messages, and the operations that replace them.
    Each operation is atomic on the current state. */
module AppContext {
  import opened Model
  import Cart
  import Catalog

  /** The order `placeOrder` records for a non-empty cart: the whole cart, its total, the
      vendor of the first row, the current user as shop owner, status pending. */
  function NewOrder(id: string, owner: User, cart: seq<CartItem>, date: string): Order
    requires cart != []
  {
    Order(id, owner.id, cart[0].product.vendorId, cart, Cart.CartTotal(cart), Pending, date)
  }

  class Store {
    var user: Option<User>
    var products: seq<Product>
    const vendors: seq<Vendor>
    var cart: seq<CartItem>
    var orders: seq<Order>
    var messages: seq<Message>

    /** The store's invariant: the cart holds at most one row per product. */
    ghost predicate Valid()
      reads this
    {
      Cart.WellFormed(cart)
    }

    /** A fresh session: nobody signed in, the sample vendors and products, nothing else. */
    constructor ()
      ensures Valid()
      ensures user == None && vendors == SeedVendors && products == SeedProducts
      ensures cart == [] && orders == [] && messages == []
    {
      user := None;
      vendors := SeedVendors;
      products := SeedProducts;
      cart := [];
      orders := [];
      messages := [];
    }

    /** `setUser`: replace the current user; nothing is checked. */
    method SetUser(u: Option<User>)
      requires Valid()
      modifies this
      ensures Valid()
      ensures user == u
      ensures products == old(products) && cart == old(cart) && orders == old(orders) && messages == old(messages)
    {
      user := u;
    }

    /** `addToCart(p, q)`: one more row for a new product, or `q` more of an existing row.
        The unit count rises by exactly `q`. */
    method AddToCart(p: Product, q: int)
      requires Valid()
      modifies this
      ensures Valid()
      ensures cart == Cart.AddItem(old(cart), p, q)
      ensures Cart.ItemCount(cart) == Cart.ItemCount(old(cart)) + q
      ensures Cart.CartTotal(cart) == Cart.CartTotal(old(cart)) + Cart.UnitPrice(old(cart), p) * q
      ensures user == old(user) && products == old(products) && orders == old(orders) && messages == old(messages)
    {
      Cart.AddItemWellFormed(cart, p, q);
      Cart.AddItemSums(cart, p, q);
      cart := Cart.AddItem(cart, p, q);
    }

    /** `removeFromCart(pid)`: drop the product's row, if there is one. */
    method RemoveFromCart(pid: string)
      requires Valid()
      modifies this
      ensures Valid()
      ensures cart == Cart.RemoveItem(old(cart), pid)
      ensures !Cart.InCart(cart, pid)
      ensures !Cart.InCart(old(cart), pid) ==> cart == old(cart)
      ensures user == old(user) && products == old(products) && orders == old(orders) && messages == old(messages)
    {
      Cart.RemoveItemWellFormed(cart, pid);
      Cart.RemoveItemMembers(cart, pid);
      if !Cart.InCart(cart, pid) {
        Cart.RemoveItemAbsent(cart, pid);
      }
      cart := Cart.RemoveItem(cart, pid);
    }

    /** `clearCart`: empty the cart. */
    method ClearCart()
      requires Valid()
      modifies this
      ensures Valid()
      ensures cart == []
      ensures user == old(user) && products == old(products) && orders == old(orders) && messages == old(messages)
    {
      cart := [];
    }

    /** `addProduct(draft)`: append the draft under `freshId`, owned by the current user. */
    method AddProduct(draft: ProductDraft, freshId: string)
      requires Valid()
      modifies this
      ensures Valid()
      ensures products == old(products) + [Catalog.NewProduct(draft, freshId, old(user))]
      ensures var p := products[|products| - 1];
        p.id == freshId && p.name == draft.name && p.category == draft.category && p.price == draft.price
        && p.quantity == draft.quantity && p.image == draft.image
        && p.vendorId == (if old(user).Some? then old(user).value.id else "")
      ensures user == old(user) && cart == old(cart) && orders == old(orders) && messages == old(messages)
    {
      products := products + [Catalog.NewProduct(draft, freshId, user)];
    }

    /** `updateProduct(id, u)`: merge `u` into every product with that id. */
    method UpdateProduct(id: string, u: ProductPatch)
      requires Valid()
      modifies this
      ensures Valid()
      ensures products == Catalog.UpdateProducts(old(products), id, u)
      ensures |products| == |old(products)|
      ensures !Catalog.HasId(old(products), id) ==> products == old(products)
      ensures user == old(user) && cart == old(cart) && orders == old(orders) && messages == old(messages)
    {
      Catalog.UpdateProductsAt(products, id, u);
      if !Catalog.HasId(products, id) {
        Catalog.UpdateUnknownId(products, id, u);
      }
      products := Catalog.UpdateProducts(products, id, u);
    }

    /** `deleteProduct(id)`: drop every product with that id. */
    method DeleteProduct(id: string)
      requires Valid()
      modifies this
      ensures Valid()
      ensures products == Catalog.DeleteProducts(old(products), id)
      ensures !Catalog.HasId(products, id)
      ensures user == old(user) && cart == old(cart) && orders == old(orders) && messages == old(messages)
    {
      Catalog.DeleteProductsMembers(products, id);
      products := Catalog.DeleteProducts(products, id);
    }

    /** `placeOrder`: with an empty cart or nobody signed in, nothing happens. Otherwise the
        whole cart becomes one pending order, appended to the orders, and the cart is emptied. */
    method PlaceOrder(orderId: string, date: string)
      requires Valid()
      modifies this
      ensures Valid()
      ensures old(cart) == [] || old(user).None? ==> cart == old(cart) && orders == old(orders)
      ensures old(cart) != [] && old(user).Some? ==>
        && cart == []
        && orders == old(orders) + [NewOrder(orderId, old(user).value, old(cart), date)]
        && var o := orders[|orders| - 1];
           o.id == orderId && o.items == old(cart) && o.total == Cart.CartTotal(old(cart))
           && o.shopOwnerId == old(user).value.id && o.vendorId == old(cart)[0].product.vendorId
           && o.status == Pending && o.date == date
      ensures user == old(user) && products == old(products) && messages == old(messages)
    {
      if cart == [] || user.None? {
        return;
      }
      var order := NewOrder(orderId, user.value, cart, date);
      orders := orders + [order];
      ClearCart();
    }

    /** `sendMessage(to, content)`: with nobody signed in, nothing happens; otherwise an unread
        message from the current user is appended. */
    method SendMessage(to: string, content: string, messageId: string, date: string)
      requires Valid()
      modifies this
      ensures Valid()
      ensures old(user).None? ==> messages == old(messages)
      ensures old(user).Some? ==> messages == old(messages) + [Message(messageId, old(user).value.id, to, content, date, false)]
      ensures user == old(user) && products == old(products) && cart == old(cart) && orders == old(orders)
    {
      if user.None? {
        return;
      }
      messages := messages + [Message(messageId, user.value.id, to, content, date, false)];
    }
  }

  /** What a caller can conclude from the contracts alone: adding 2 then 3 of a product
      leaves one row of 5, and ordering the two-row cart of 2 x 10.00 and 1 x 5.00 records a
      pending order of 25.00 and empties the cart. */
  method OrderScenario(owner: User)
  {
    var store := new Store();
    var a := Product("a", "A", "Misc", 1000, 10, "v", "");
    var b := Product("b", "B", "Misc", 500, 10, "v", "");
    store.SetUser(Some(owner));
    store.AddToCart(a, 2);
    store.AddToCart(a, 3);
    Cart.AddItemTwice([], a, 2, 3);
    assert store.cart == [CartItem("a", 5, a)];
    store.RemoveFromCart("a");
    assert store.cart == [];
    store.AddToCart(a, 2);
    store.AddToCart(b, 1);
    assert store.cart == [CartItem("a", 2, a), CartItem("b", 1, b)];
    assert Cart.CartTotal(store.cart) == 2500;
    store.PlaceOrder("o1", "today");
    assert store.cart == [];
    assert store.orders[0].total == 2500 && store.orders[0].status == Pending;
    assert |store.orders| == 1;
  }
}
