/** The marketplace's records (users, products, cart rows, vendors, orders, messages) and
    the sample data the store starts with. Prices are integer cents. */
module Model {

  datatype Option<T> = None | Some(value: T) {
    /** The value, or `default` when there is none. */
    function GetOr(default: T): T
    {
      match this
      case Some(v) => v
      case None => default
    }
  }

  /** A user's role; a `User` with `role == None` has no role (`null`). */
  datatype Role = ShopOwnerRole | VendorRole

  datatype User = User(id: string, name: string, email: string, role: Option<Role>)

  /** `price` in cents; `quantity` is the stock. */
  datatype Product = Product(
    id: string, name: string, category: string,
    price: int, quantity: int, vendorId: string, image: string)

  /** A product without its id (`Omit<Product, 'id'>`), as passed to `addProduct`. */
  datatype ProductDraft = ProductDraft(
    name: string, category: string,
    price: int, quantity: int, vendorId: string, image: string)

  /** `Partial<Product>`: `None` is a field the update does not mention. */
  datatype ProductPatch = ProductPatch(
    id: Option<string>, name: Option<string>, category: Option<string>,
    price: Option<int>, quantity: Option<int>, vendorId: Option<string>, image: Option<string>)

  /** A cart row: the product id, the requested quantity and a copy of the product
      as it was when it was first added. */
  datatype CartItem = CartItem(productId: string, quantity: int, product: Product)

  datatype Vendor = Vendor(id: string, name: string, email: string, description: string, location: string)

  datatype OrderStatus = Pending | Completed | Cancelled

  datatype Order = Order(
    id: string, shopOwnerId: string, vendorId: string,
    items: seq<CartItem>, total: int, status: OrderStatus, date: string)

  datatype Message = Message(id: string, from: string, to: string, content: string, date: string, read: bool)

  /** What a sign-in or sign-up submission ends in: an error message for the form, or
      the user to store and the path to go to. */
  datatype AuthOutcome = Rejected(error: string) | Accepted(user: User, target: string)

  const ShopDashboardPath := "/shop-dashboard"
  const VendorDashboardPath := "/vendor-dashboard"

  /** Where a freshly signed-in user is sent: shop owners to their dashboard, everyone else
      to the vendor dashboard. */
  function DashboardPath(role: Option<Role>): (path: string)
    ensures path == ShopDashboardPath <==> role == Some(ShopOwnerRole)
    ensures path == VendorDashboardPath <==> role != Some(ShopOwnerRole)
  {
    if role == Some(ShopOwnerRole) then ShopDashboardPath else VendorDashboardPath
  }

  const SeedVendors: seq<Vendor> := [
    Vendor("1", "Fresh Farms Co.", "contact@freshfarms.com",
           "Premium organic produce from local farms", "Springfield Valley"),
    Vendor("2", "Dairy Delights", "info@dairydelights.com",
           "Fresh dairy products and artisanal cheese", "Greenfield"),
    Vendor("3", "Golden Bakery", "hello@goldenbakery.com",
           "Freshly baked bread and pastries daily", "Downtown Market")
  ]

  const SeedProducts: seq<Product> := [
    Product("1", "Organic Vegetables Mix", "Vegetables", 2499, 50, "1", "/src/assets/product-vegetables.jpg"),
    Product("2", "Fresh Dairy Bundle", "Dairy", 1899, 30, "2", "/src/assets/product-dairy.jpg"),
    Product("3", "Artisan Bread Collection", "Bakery", 1599, 40, "3", "/src/assets/product-bakery.jpg"),
    Product("4", "Premium Fruit Basket", "Fruits", 2999, 25, "1", "/src/assets/product-fruits.jpg"),
    Product("5", "Farm Fresh Tomatoes", "Vegetables", 899, 100, "1", "/src/assets/product-vegetables.jpg"),
    Product("6", "Organic Cheese Selection", "Dairy", 2299, 20, "2", "/src/assets/product-dairy.jpg")
  ]

  /** The sample data is consistent: product ids are distinct, and every product belongs
      to one of the sample vendors. */
  lemma SeedConsistent()
    ensures forall i, j :: 0 <= i < j < |SeedProducts| ==> SeedProducts[i].id != SeedProducts[j].id
    ensures forall i :: 0 <= i < |SeedProducts| ==>
      exists v :: v in SeedVendors && v.id == SeedProducts[i].vendorId
  {
    assert SeedVendors[0] in SeedVendors && SeedVendors[1] in SeedVendors && SeedVendors[2] in SeedVendors;
  }
}
