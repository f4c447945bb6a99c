/** The navigation bar: the signed-in user's role label, the cart badge and its unit count,
    and signing out. */
module Navbar {
  import opened Model
  import opened Seqs
  import Cart
  import AppContext

  const HomePath := "/"

  /** The label after the user's name: shop owners are "Shop Owner", every other role,
      no role included, is "Vendor". */
  function RoleLabel(role: Option<Role>): (text: string)
    ensures text == "Shop Owner" <==> role == Some(ShopOwnerRole)
    ensures text == "Vendor" <==> role != Some(ShopOwnerRole)
  {
    if role == Some(ShopOwnerRole) then "Shop Owner" else "Vendor"
  }

  /** The label and the dashboard a sign-in leads to agree on who is a shop owner. */
  lemma RoleLabelMatchesDashboard(role: Option<Role>)
    ensures RoleLabel(role) == "Shop Owner" <==> DashboardPath(role) == ShopDashboardPath
  {
  }

  /** The cart badge shows only for a signed-in shop owner with a non-empty cart. */
  predicate ShowCartBadge(user: Option<User>, cart: seq<CartItem>)
  {
    user.Some? && user.value.role == Some(ShopOwnerRole) && |cart| > 0
  }

  /** The badge's number, `cart.reduce((sum, item) => sum + item.quantity, 0)`, is
      `Cart.ItemCount`: it counts units, not rows. With at least one unit per row it is
      never below the number of rows. */
  lemma {:induction false} ItemCountAtLeastRows(cart: seq<CartItem>)
    requires forall i :: 0 <= i < |cart| ==> cart[i].quantity >= 1
    ensures Cart.ItemCount(cart) >= |cart|
  {
    if cart != [] {
      ItemCountAtLeastRows(cart[1..]);
    }
  }

  /** With at least one unit per row, the badge equals the number of rows exactly when
      every row holds a single unit; any row of several units makes it larger. */
  lemma {:induction false} ItemCountIsRowsOnlyForSingles(cart: seq<CartItem>)
    requires forall i :: 0 <= i < |cart| ==> cart[i].quantity >= 1
    ensures Cart.ItemCount(cart) == |cart| <==> forall i :: 0 <= i < |cart| ==> cart[i].quantity == 1
  {
    if cart != [] {
      var rest := cart[1..];
      ItemCountIsRowsOnlyForSingles(rest);
      ItemCountAtLeastRows(rest);
      assert forall i :: 0 <= i < |rest| ==> rest[i] == cart[i + 1];
      if forall i :: 0 <= i < |cart| ==> cart[i].quantity == 1 {
        assert forall i :: 0 <= i < |rest| ==> rest[i].quantity == 1;
      } else if cart[0].quantity == 1 {
        var j :| 0 <= j < |cart| && cart[j].quantity != 1;
        assert rest[j - 1].quantity != 1;
      }
    }
  }

  /** After a shop owner adds `q` units of a product, the badge shows and its number has
      grown by `q`. */
  lemma BadgeAfterAdd(user: User, cart: seq<CartItem>, p: Product, q: int)
    requires Cart.UniqueIds(cart) && user.role == Some(ShopOwnerRole)
    ensures ShowCartBadge(Some(user), Cart.AddItem(cart, p, q))
    ensures Cart.ItemCount(Cart.AddItem(cart, p, q)) == Cart.ItemCount(cart) + q
  {
    Cart.AddItemNonEmpty(cart, p, q);
    Cart.AddItemSums(cart, p, q);
  }

  /** A vendor never sees the badge, whatever the cart holds. */
  lemma NoBadgeForVendors(user: User, cart: seq<CartItem>)
    requires user.role != Some(ShopOwnerRole)
    ensures !ShowCartBadge(Some(user), cart)
  {
  }

  /** `handleSignOut`: nobody is signed in any more, and the bar goes home. The cart is kept,
      so the badge disappears with the user alone. */
  method HandleSignOut(store: AppContext.Store) returns (target: string)
    requires store.Valid()
    modifies store
    ensures store.Valid()
    ensures store.user == None && target == HomePath
    ensures !ShowCartBadge(store.user, store.cart)
    ensures store.products == old(store.products) && store.cart == old(store.cart)
    ensures store.orders == old(store.orders) && store.messages == old(store.messages)
  {
    store.SetUser(None);
    target := HomePath;
  }

  /** Placing the order empties the cart, so the badge goes away. */
  method OrderHidesBadge(store: AppContext.Store, orderId: string, date: string)
    requires store.Valid() && store.user.Some? && store.cart != []
    modifies store
    ensures !ShowCartBadge(store.user, store.cart)
  {
    store.PlaceOrder(orderId, date);
  }
}
