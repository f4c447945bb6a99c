/** The vendor's dashboard: the vendor's own products, orders and messages, the revenue
    figure, the low-stock flag, and the add/edit dialog that writes products to the store. */
module VendorDashboard {
  import opened Model
  import opened Seqs
  import opened Strings
  import Cart
  import Catalog
  import AppContext

  const DefaultImage := "/src/assets/product-vegetables.jpg"
  const LowStockThreshold := 10

  // ---------------------------------------------------------------------------
  // The vendor's lists and figures

  /** The condition of `orders.filter(o => o.vendorId === user.id)`. */
  function ForVendor(vendorId: string): Order -> bool
  {
    (o: Order) => o.vendorId == vendorId
  }

  /** The orders attributed to the vendor, in the order they were placed. */
  function OrdersOf(orders: seq<Order>, vendorId: string): seq<Order>
  {
    Filter(orders, ForVendor(vendorId))
  }

  /** The condition of `messages.filter(m => m.to === user.id)`. */
  function AddressedTo(userId: string): Message -> bool
  {
    (m: Message) => m.to == userId
  }

  /** The messages sent to the user, in the order they were sent. */
  function MessagesTo(messages: seq<Message>, userId: string): seq<Message>
  {
    Filter(messages, AddressedTo(userId))
  }

  function OrderTotal(o: Order): int
  {
    o.total
  }

  /** `vendorOrders.reduce((sum, order) => sum + order.total, 0)`. */
  function TotalRevenue(orders: seq<Order>, vendorId: string): int
  {
    SumOf(OrdersOf(orders, vendorId), OrderTotal)
  }

  /** The vendor's orders are exactly the orders attributed to the vendor, and a newly
      placed order joins the end of exactly its vendor's list: the list keeps the
      placement order. */
  lemma OrdersOfAppend(orders: seq<Order>, o: Order, vendorId: string)
    ensures forall x :: x in OrdersOf(orders, vendorId) <==> x in orders && x.vendorId == vendorId
    ensures OrdersOf(orders + [o], vendorId)
         == OrdersOf(orders, vendorId) + (if o.vendorId == vendorId then [o] else [])
  {
    FilterConcat(orders, [o], ForVendor(vendorId));
    assert [o][1..] == [];
  }

  /** The same for the vendor's messages. */
  lemma MessagesToAppend(messages: seq<Message>, m: Message, userId: string)
    ensures forall x :: x in MessagesTo(messages, userId) <==> x in messages && x.to == userId
    ensures MessagesTo(messages + [m], userId)
         == MessagesTo(messages, userId) + (if m.to == userId then [m] else [])
  {
    FilterConcat(messages, [m], AddressedTo(userId));
    assert [m][1..] == [];
  }

  /** The revenue grows by an appended order's total for its vendor and by nothing for
      every other vendor. */
  lemma RevenueAppend(orders: seq<Order>, o: Order, vendorId: string)
    ensures TotalRevenue(orders + [o], vendorId)
         == TotalRevenue(orders, vendorId) + (if o.vendorId == vendorId then o.total else 0)
  {
    OrdersOfAppend(orders, o, vendorId);
    var tail := if o.vendorId == vendorId then [o] else [];
    SumOfConcat(OrdersOf(orders, vendorId), tail, OrderTotal);
    if o.vendorId == vendorId {
      SumOfSingleton(o, OrderTotal);
    }
  }

  /** Placing an order credits the whole cart total to the vendor of the first cart row, and
      nothing to anyone else, even to the vendor of another row of the same cart. */
  lemma PlaceOrderRevenue(orders: seq<Order>, id: string, owner: User, cart: seq<CartItem>, date: string, vendorId: string)
    requires cart != []
    ensures vendorId == cart[0].product.vendorId ==>
      TotalRevenue(orders + [AppContext.NewOrder(id, owner, cart, date)], vendorId)
      == TotalRevenue(orders, vendorId) + Cart.CartTotal(cart)
    ensures vendorId != cart[0].product.vendorId ==>
      TotalRevenue(orders + [AppContext.NewOrder(id, owner, cart, date)], vendorId)
      == TotalRevenue(orders, vendorId)
  {
    RevenueAppend(orders, AppContext.NewOrder(id, owner, cart, date), vendorId);
  }

  /** A product is flagged as low on stock when fewer than ten are left. */
  predicate LowStock(p: Product)
  {
    p.quantity < LowStockThreshold
  }

  /** None of the sample products starts low on stock. */
  lemma SeedStockHealthy()
    ensures forall i :: 0 <= i < |SeedProducts| ==> !LowStock(SeedProducts[i])
  {
  }

  // ---------------------------------------------------------------------------
  // The product dialog

  /** The dialog's text fields; `image` has no input of its own. */
  datatype ProductForm = ProductForm(name: string, category: string, price: string, quantity: string, image: string)

  const EmptyForm := ProductForm("", "", "", "", "")

  /** The four inputs of the dialog. */
  datatype FormField = NameField | CategoryField | PriceField | QuantityField

  /** `setFormData({ ...formData, field: value })`: one input changes, the rest stay. */
  function SetField(form: ProductForm, field: FormField, value: string): (r: ProductForm)
    ensures r.image == form.image
    ensures field == NameField ==> r == form.(name := value)
    ensures field == CategoryField ==> r == form.(category := value)
    ensures field == PriceField ==> r == form.(price := value)
    ensures field == QuantityField ==> r == form.(quantity := value)
  {
    match field
    case NameField => form.(name := value)
    case CategoryField => form.(category := value)
    case PriceField => form.(price := value)
    case QuantityField => form.(quantity := value)
  }

  /** The submit guard: name, category, price and quantity are all filled in. */
  predicate FormComplete(form: ProductForm)
  {
    form.name != "" && form.category != "" && form.price != "" && form.quantity != ""
  }

  /** The product data a submission sends: the form's text, the parsed price and quantity,
      the current user as vendor, and the default image when the form has none. */
  function ProductData(form: ProductForm, price: int, quantity: int, userId: string): (d: ProductDraft)
    ensures d.name == form.name && d.category == form.category
    ensures d.price == price && d.quantity == quantity && d.vendorId == userId
    ensures d.image != ""
    ensures form.image != "" ==> d.image == form.image
    ensures form.image == "" ==> d.image == DefaultImage
  {
    ProductDraft(form.name, form.category, price, quantity, userId,
                 if form.image == "" then DefaultImage else form.image)
  }

  /** The same data passed to `updateProduct`: every field but the id is mentioned. */
  function PatchOf(d: ProductDraft): ProductPatch
  {
    ProductPatch(None, Some(d.name), Some(d.category), Some(d.price), Some(d.quantity),
                 Some(d.vendorId), Some(d.image))
  }

  /** An edit replaces every field of the product with the submitted data, except its id. */
  lemma MergePatchOf(p: Product, d: ProductDraft)
    ensures Catalog.Merge(p, PatchOf(d)) == Product(p.id, d.name, d.category, d.price, d.quantity, d.vendorId, d.image)
  {
    Catalog.MergeFields(p, PatchOf(d));
  }

  /** `handleEdit` loads the product into the form; numbers become their decimal text. */
  function FormOf(p: Product): ProductForm
  {
    ProductForm(p.name, p.category, CentsToString(p.price), IntToString(p.quantity), p.image)
  }

  /** A form loaded from a product passes the submit guard exactly when the product has a
      name and a category: its price and quantity texts are never empty. */
  lemma FormOfComplete(p: Product)
    ensures FormComplete(FormOf(p)) <==> p.name != "" && p.category != ""
  {
  }

  /** Editing a product and submitting the form untouched: its price and quantity texts
      parse back to the product's own numbers, and with the owner as the signed-in user the
      product is left as it was, unless it had no image (it then gets the default one). */
  lemma EditRoundTrip(p: Product)
    ensures ParseCents(FormOf(p).price) == Some(p.price)
    ensures ParseInt(FormOf(p).quantity) == Some(p.quantity)
    ensures var d := ProductData(FormOf(p), ParseCents(FormOf(p).price).value,
                                 ParseInt(FormOf(p).quantity).value, p.vendorId);
      && (p.image != "" ==> Catalog.Merge(p, PatchOf(d)) == p)
      && (p.image == "" ==> Catalog.Merge(p, PatchOf(d)) == p.(image := DefaultImage))
  {
    CentsToStringRoundTrip(p.price);
    IntToStringRoundTrip(p.quantity);
    MergePatchOf(p, ProductData(FormOf(p), p.price, p.quantity, p.vendorId));
  }

  /** A product added from the dialog joins the end of the adding vendor's own list. */
  lemma AddedProductListed(products: seq<Product>, d: ProductDraft, id: string, user: User)
    ensures Catalog.ProductsOf(products + [Catalog.NewProduct(d, id, Some(user))], user.id)
         == Catalog.ProductsOf(products, user.id) + [Catalog.NewProduct(d, id, Some(user))]
  {
    Catalog.ProductsOfAppend(products, Catalog.NewProduct(d, id, Some(user)), user.id);
  }

  /** A product's stock after an edit is flagged low exactly when the submitted quantity is. */
  lemma LowStockAfterEdit(p: Product, d: ProductDraft)
    ensures LowStock(Catalog.Merge(p, PatchOf(d))) <==> d.quantity < LowStockThreshold
  {
    MergePatchOf(p, d);
  }

  /** JavaScript truthiness of `editingProduct`: a non-empty id. */
  predicate Editing(editingProduct: Option<string>)
  {
    editingProduct.Some? && editingProduct.value != ""
  }

  /** The dialog's state: the form, the product being edited, whether the dialog is open. */
  class ProductDialog {
    var form: ProductForm
    var editingProduct: Option<string>
    var dialogOpen: bool

    constructor ()
      ensures form == EmptyForm && editingProduct == None && !dialogOpen
    {
      form, editingProduct, dialogOpen := EmptyForm, None, false;
    }

    /** An input's `onChange`. */
    method Input(field: FormField, value: string)
      modifies this
      ensures form == SetField(old(form), field, value)
      ensures editingProduct == old(editingProduct) && dialogOpen == old(dialogOpen)
    {
      form := SetField(form, field, value);
    }

    /** The dialog's `onOpenChange`, and the "Add Product" button of an empty catalog. */
    method SetDialogOpen(open: bool)
      modifies this
      ensures dialogOpen == open
      ensures form == old(form) && editingProduct == old(editingProduct)
    {
      dialogOpen := open;
    }

    /** The header's "Add Product" button: an empty form, no product being edited; being
        the dialog's trigger, it also opens the dialog. */
    method OpenAddDialog()
      modifies this
      ensures form == EmptyForm && editingProduct == None && dialogOpen
    {
      form, editingProduct := EmptyForm, None;
      dialogOpen := true;
    }

    /** `handleEdit(p)`: load the product, remember its id, open the dialog. */
    method HandleEdit(p: Product)
      modifies this
      ensures form == FormOf(p) && editingProduct == Some(p.id) && dialogOpen
    {
      form := FormOf(p);
      editingProduct := Some(p.id);
      dialogOpen := true;
    }

    /** `handleSubmit`: with a field missing nothing changes; otherwise the data goes to
        `updateProduct` for the product being edited, or to `addProduct`, and the dialog
        is reset and closed. `price` and `quantity` are what the form's texts parse to.
        The dashboard renders nothing without a signed-in user, so one is required. */
    method HandleSubmit(store: AppContext.Store, price: int, quantity: int, freshId: string) returns (submitted: bool)
      requires store.Valid() && store.user.Some?
      modifies this, store
      ensures store.Valid()
      ensures submitted == FormComplete(old(form))
      ensures !submitted ==>
        && store.products == old(store.products)
        && form == old(form) && editingProduct == old(editingProduct) && dialogOpen == old(dialogOpen)
      ensures submitted && Editing(old(editingProduct)) ==>
        store.products == Catalog.UpdateProducts(old(store.products), old(editingProduct).value,
                                                 PatchOf(ProductData(old(form), price, quantity, old(store.user).value.id)))
      ensures submitted && !Editing(old(editingProduct)) ==>
        store.products == old(store.products)
                          + [Catalog.NewProduct(ProductData(old(form), price, quantity, old(store.user).value.id),
                                                freshId, old(store.user))]
      ensures submitted ==> form == EmptyForm && editingProduct == None && !dialogOpen
      ensures store.user == old(store.user) && store.cart == old(store.cart)
      ensures store.orders == old(store.orders) && store.messages == old(store.messages)
    {
      if !FormComplete(form) {
        return false;
      }
      var data := ProductData(form, price, quantity, store.user.value.id);
      if Editing(editingProduct) {
        store.UpdateProduct(editingProduct.value, PatchOf(data));
      } else {
        store.AddProduct(data, freshId);
      }
      form := EmptyForm;
      editingProduct := None;
      dialogOpen := false;
      submitted := true;
    }

    /** `handleDelete(id)`: remove the product from the store. */
    method HandleDelete(store: AppContext.Store, id: string)
      requires store.Valid()
      modifies store
      ensures store.Valid()
      ensures store.products == Catalog.DeleteProducts(old(store.products), id)
      ensures store.user == old(store.user) && store.cart == old(store.cart)
      ensures store.orders == old(store.orders) && store.messages == old(store.messages)
    {
      store.DeleteProduct(id);
    }
  }

  /** A product added through the dialog, with no image typed (there is no input for it),
      gets the default image and belongs to the vendor. */
  method AddScenario(store: AppContext.Store, vendor: User)
    requires store.Valid()
    modifies store
  {
    store.SetUser(Some(vendor));
    var dialog := new ProductDialog();
    dialog.OpenAddDialog();
    dialog.Input(NameField, "Honey");
    dialog.Input(CategoryField, "Pantry");
    dialog.Input(PriceField, "7.50");
    dialog.Input(QuantityField, "12");
    var ok := dialog.HandleSubmit(store, 750, 12, "p7");
    assert ok && !dialog.dialogOpen && dialog.form == EmptyForm;
    var added := store.products[|store.products| - 1];
    assert added.id == "p7" && added.image == DefaultImage && added.vendorId == vendor.id;
    assert !LowStock(added);
  }
}
