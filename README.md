# Smart Cart: a verified model of the marketplace store

Smart Cart is a small marketplace front end. Shop owners browse products and fill a cart, then
place orders. Vendors keep a product catalogue and watch their orders, revenue and messages.
All the state lives in one in-memory store (`AppProvider`). The store holds the signed-in user,
the products, a fixed vendor list, the cart, the orders and the messages. Five screens read the
store and call its operations: sign-in, sign-up, the two dashboards and the navigation bar.

This project models that store and the logic of the five screens in Dafny, and proves
properties of the model:

- `Model` (model.dfy) holds the records, the sample vendors and products, and where each role is sent.
- `Cart` (cart.dfy) holds the cart updaters of `addToCart` and `removeFromCart`, the money total and
  the unit count. It also holds the cart invariant: one row per product.
- `Catalog` (catalog.dfy) covers the product list updaters of `addProduct`, `updateProduct`
  (a spread-merge) and `deleteProduct`, and the per-vendor product list.
- `AppContext` (app_context.dfy) is the store itself, a `Store` class. Each operation is a method
  that replaces fields. Each method states the exact new state and keeps the cart invariant.
  `placeOrder` appends an order and then empties the cart. A client method, `OrderScenario`,
  adds 2 and then 3 of one product and gets one row of 5. It then orders a two-row cart and
  gets one pending order of 25.00.
- `SignIn` and `SignUp` (sign_in.dfy, sign_up.dfy) hold the ordered form checks, the user each form
  builds, the dashboard each goes to, and each form's own state as a class. The delayed part of each
  handler is a separate `CompleteSubmit` method.
- `ShopDashboard` (shop_dashboard.dfy) covers the category list, the "In Cart (n)" label, the
  disabled add button, the vendor cards and the two handlers.
- `VendorDashboard` (vendor_dashboard.dfy) covers the vendor's own products, orders and messages,
  the revenue figure, the low-stock flag and the add/edit dialog (`ProductDialog`).
  `AddScenario` is a client method that adds a product through the dialog.
- `Navbar` (navbar.dfy) covers the role label, the cart badge and its unit count, and signing out.
- `Seqs` and `Strings` (seqs.dfy, strings.dfy) are generic helpers. `Seqs` has `filter`, `map`, the
  `reduce` sum and the `new Set` de-duplication. `Strings` has `includes`, `split(c)[0]`,
  `toString`, `parseInt` and `parseFloat`.

Modelling choices:

- Prices are integer cents, so $24.99 is `2499`.
- Identifiers come from `Date.now()` and `Math.random()`, and timestamps from `new Date()`.
  These become method parameters (`freshId`, `orderId`, `date`).
- A handler that does its work after a `setTimeout` is split in two: one method for what it does at
  once and one for what it does when the timer fires.
- Each store operation is atomic on the current state.
- `if (editingProduct)` is JavaScript truthiness, so an empty id counts as "not editing"
  (`VendorDashboard.Editing`).

The store does not guarantee unique identifiers. Two creations with the same `Date.now()` value
get the same id, and the model claims no uniqueness. `updateProduct` and `deleteProduct` act on
every product with the given id. Their contracts are stated for that general case.

An order is attributed to the vendor of the cart's first row, and takes the total of every row.
With a cart that mixes vendors, the other vendors see none of that revenue.
`VendorDashboard.PlaceOrderRevenue` states this behaviour as the code has it.

## Model

| member | source | states |
|---|---|---|
| Strings.Contains | SignIn.tsx:32 | `includes` is true exactly when the substring occurs at some position of the string |
| Strings.ContainsChar | SignUp.tsx:34 | `includes('@')` holds exactly when '@' is one of the email's characters |
| Strings.BeforeFirst | SignIn.tsx:41 | `split('@')[0]` is a prefix of the email without '@' that stops right before the first '@', or the whole email when it has none |
| Strings.NatToString | VendorDashboard.tsx:76 | `toString` of a non-negative integer is a non-empty run of decimal digits with no leading zero |
| Strings.NatToStringRoundTrip | VendorDashboard.tsx:76 | reading the printed digits back gives the number |
| Strings.IntToString | VendorDashboard.tsx:76 | `toString` of an integer is non-empty and starts with '-' exactly when the integer is negative |
| Strings.IntToStringRoundTrip | VendorDashboard.tsx:53-76 | `parseInt` of a printed integer gives back exactly that integer, negative ones included |
| Strings.ParseInt | VendorDashboard.tsx:53 | `parseInt` is NaN exactly when no digit follows the optional sign |
| Strings.CentsToString | VendorDashboard.tsx:75 | the printed price is non-empty and starts with '-' exactly when the price is negative |
| Strings.PriceTextExamples | VendorDashboard.tsx:75 | 24.99 keeps both decimals and 10 prints without a point |
| Strings.SmallPriceTextExamples | VendorDashboard.tsx:75 | 7.5 drops its trailing zero and 0.05 keeps its leading zero |
| Strings.CentsToStringExamples | VendorDashboard.tsx:75 | 24.99, 10, 7.5 and -0.05 print as JavaScript prints them |
| Strings.CentsToStringRoundTrip | VendorDashboard.tsx:52-75 | `parseFloat` of a printed price gives back exactly that price in cents, negative ones included |
| Strings.ParseCents | VendorDashboard.tsx:52 | `parseFloat` is NaN exactly when there is no digit on either side of the decimal point after the optional sign |
| Seqs.FoldSumIsSum | AppContext.tsx:212 | a `reduce` running sum ends at its start value plus the sum of the terms |
| Model.DashboardPath | SignIn.tsx:51-55 | shop owners go to '/shop-dashboard', and every other role goes to '/vendor-dashboard' |
| Model.SeedConsistent | AppContext.tsx:83-166 | the sample product ids are distinct, and each sample product belongs to a sample vendor |
| Cart.AddItem | AppContext.tsx:169-179 | the `addToCart` updater: raise the product's row, or append a new row holding the product; the rows for AddItemExisting, AddItemNew, AddItemWellFormed and AddItemSums give what it promises |
| Cart.RemoveItem | AppContext.tsx:183 | the `removeFromCart` updater, a `filter` on the product id; the rows for RemoveItemMembers, RemoveItemUnique and RemoveItemCount give what it promises |
| Cart.CartTotal | AppContext.tsx:212 | the order total and the dashboard's cart total, price times quantity summed over the rows; ReduceSums ties it to the two `reduce` loops (AppContext.tsx:212, ShopDashboard.tsx:36) |
| Cart.ItemCount | Navbar.tsx:15 | the badge's unit count, quantities summed over the rows; ReduceSums ties it to the `reduce` loop |
| Cart.UnitPrice | AppContext.tsx:171-178 | the price a further `addToCart` charges, that of the copy the row already holds or else the product's; AddItemSums states the total grows by q units at this price |
| Cart.FindItem | AppContext.tsx:170 | `find` gives nothing exactly when no row has the id, and otherwise the first row with it |
| Cart.FindUnique | ShopDashboard.tsx:193 | with one row per product, `find` gives that product's row |
| Cart.IncrementSplit | AppContext.tsx:172-176 | the `map` of `addToCart` changes only the row of the product, raising its quantity |
| Cart.AddItemExisting | AppContext.tsx:171-177 | adding a product already in the cart keeps the length, raises that row by q and leaves the other rows alone |
| Cart.AddItemNew | AppContext.tsx:178 | adding a product not in the cart appends one row for it, holding the product |
| Cart.AddItemWellFormed | AppContext.tsx:168-180 | `addToCart` keeps one row per product |
| Cart.AddItemTwice | AppContext.tsx:168-180 | adding a new product twice gives one row with the summed quantity |
| Cart.IncrementSums | AppContext.tsx:172-176 | raising a row by q raises the unit count by q and the total by q times that row's price |
| Cart.AddItemSums | AppContext.tsx:168-180 | `addToCart(p, q)` raises the unit count by q, and the total by q units at the price of the copy in the cart |
| Cart.AddItemNonEmpty | AppContext.tsx:178 | after `addToCart` the product has a row, so the cart is not empty |
| Cart.RemoveItemMembers | AppContext.tsx:182-184 | after `removeFromCart` no row of the product is left, and the remaining rows are exactly the old rows of other products |
| Cart.RemoveItemAbsent | AppContext.tsx:183 | removing a product that is not in the cart changes nothing |
| Cart.RemoveItemUnique | AppContext.tsx:183 | with one row per product, removal takes out exactly that row and keeps the others in order |
| Cart.OnlyRow | AppContext.tsx:183 | with one row per product, no row before or after a product's row has its id |
| Cart.RemoveItemWellFormed | AppContext.tsx:182-184 | `removeFromCart` keeps one row per product |
| Cart.RemoveItemCount | AppContext.tsx:183 | removal lowers the unit count by the row's quantity and the total by the row's line total |
| Cart.AddThenRemove | AppContext.tsx:168-184 | removing a product after adding it leaves the cart as removing it alone would, so a new product leaves the cart unchanged |
| Cart.ReduceSums | ShopDashboard.tsx:36 | the two `reduce` loops give the cart's money total (price times quantity) and its unit count |
| Catalog.NewProduct | AppContext.tsx:191-195 | the product `addProduct` builds: the draft's fields under the fresh id, owned by the current user's id, or '' with nobody signed in; stated by Store.AddProduct and AddThenUpdatePrice |
| Catalog.Merge | AppContext.tsx:201 | `{...p, ...updates}`; MergeFields states it field by field |
| Catalog.MergeFields | AppContext.tsx:201 | for each of the seven fields, the merge keeps `p`'s value when the update does not mention it and takes the update's value when it does; an empty update changes nothing, a full one replaces everything, and merging twice is merging once |
| Catalog.UpdateProducts | AppContext.tsx:200-202 | the `updateProduct` updater, a `map` merging into the products with the id; stated by UpdateProductsAt, UpdateUnknownId and UpdateConcat |
| Catalog.DeleteProducts | AppContext.tsx:206 | the `deleteProduct` updater, a `filter` on the id; stated by DeleteProductsMembers, DeleteProductsConcat and DeleteProductsAbsent |
| Catalog.ProductsOf | VendorDashboard.tsx:36 | a vendor's products, a `filter` on `vendorId`; stated by ProductsOfAppend and ProductsOfCount |
| Catalog.MergeThen | AppContext.tsx:201 | two successive merges are one merge of the combined update |
| Catalog.UpdateProductsAt | AppContext.tsx:199-203 | `updateProduct` keeps length and order, merges into every product with the id and leaves the others alone |
| Catalog.UpdateUnknownId | AppContext.tsx:201 | updating an id no product has changes nothing |
| Catalog.UpdateConcat | AppContext.tsx:201 | `updateProduct` acts on each part of a list independently |
| Catalog.AddThenUpdatePrice | AppContext.tsx:190-203 | after adding a product, a price-only update of its id changes only its price and leaves the other products alone |
| Catalog.DeleteProductsMembers | AppContext.tsx:205-207 | after `deleteProduct` no product with the id is left, and the remaining products are exactly the old ones with other ids |
| Catalog.DeleteProductsConcat | AppContext.tsx:206 | deletion keeps the remaining products in their order |
| Catalog.DeleteProductsAbsent | AppContext.tsx:206 | deleting an unknown id changes nothing, and deleting twice is deleting once |
| Catalog.DeleteThenUpdate | AppContext.tsx:199-207 | once a product is deleted, updating its id changes nothing |
| Catalog.ProductsOfAppend | VendorDashboard.tsx:36 | a product appended to the list joins the end of exactly its owner's list |
| Catalog.ProductsOfCount | ShopDashboard.tsx:147 | the vendor's list holds exactly the products with that `vendorId`, and its length is their number |
| AppContext.NewOrder | AppContext.tsx:213-221 | the order `placeOrder` records: the user as shop owner, the first row's vendor, the cart and its total, pending; stated by Store.PlaceOrder and PlaceOrderRevenue |
| AppContext.Store.constructor | AppContext.tsx:77-166 | a session starts with no user, the sample vendors and products, and an empty cart, order list and message list |
| AppContext.Store.SetUser | AppContext.tsx:77 | `setUser` replaces the user, and nothing else changes |
| AppContext.Store.AddToCart | AppContext.tsx:168-180 | the cart becomes the `addToCart` updater's result, still one row per product, with the unit count and total grown accordingly |
| AppContext.Store.RemoveFromCart | AppContext.tsx:182-184 | the product's row is gone, and a product not in the cart changes nothing |
| AppContext.Store.ClearCart | AppContext.tsx:186-188 | the cart is empty, and nothing else changes |
| AppContext.Store.AddProduct | AppContext.tsx:190-197 | one product is appended under the fresh id, with the draft's fields, owned by the current user or by '' |
| AppContext.Store.UpdateProduct | AppContext.tsx:199-203 | the products become the merged list of the same length, unchanged for an unknown id |
| AppContext.Store.DeleteProduct | AppContext.tsx:205-207 | the products become the filtered list, with no product of that id |
| AppContext.Store.PlaceOrder | AppContext.tsx:209-225 | with an empty cart or no user nothing changes; otherwise one pending order (the cart, its total, the first row's vendor, the user) is appended and the cart is emptied |
| AppContext.Store.SendMessage | AppContext.tsx:227-240 | with no user nothing changes; otherwise one unread message from the user is appended |
| SignIn.MockUser | SignIn.tsx:39-44 | the mock user: named by the part of the email before '@', a vendor exactly when the email contains "vendor"; Authenticate states these properties |
| SignIn.Authenticate | SignIn.tsx:26-55 | a missing field is reported first, then a missing '@'; otherwise the mock user is named by the part before '@', is a vendor exactly when the email contains "vendor", and goes to that role's dashboard |
| SignIn.AnyPasswordAccepted | SignIn.tsx:26-44 | the password's content never matters: any non-empty one signs in a well-formed email |
| SignIn.SignInForm.constructor | SignIn.tsx:14-17 | the form starts empty, with no error and not loading |
| SignIn.SignInForm.Edit | SignIn.tsx:82-94 | the inputs, enabled only while not loading, set the email and password only |
| SignIn.SignInForm.BeginSubmit | SignIn.tsx:19-22 | submitting, possible only while not loading, clears the error and starts loading |
| SignIn.SignInForm.CompleteSubmit | SignIn.tsx:25-56 | when the delay ends, loading stops; Authenticate's error is shown, or its user is stored and its path returned |
| SignUp.Register | SignUp.tsx:28-63 | the three checks run in order (fields, '@', at least 6 characters); only when all pass is the user exactly the entered name, email and role, sent to that role's dashboard |
| SignUp.SignUpForm.constructor | SignUp.tsx:14-19 | the form starts empty, with no role chosen |
| SignUp.SignUpForm.Edit | SignUp.tsx:89-113 | the inputs, enabled only while not loading, set name, email and password only |
| SignUp.SignUpForm.SelectRole | SignUp.tsx:123-136 | the role buttons, enabled only while not loading, set the role only |
| SignUp.SignUpForm.BeginSubmit | SignUp.tsx:21-24 | submitting, possible only while not loading, clears the error and starts loading |
| SignUp.SignUpForm.CompleteSubmit | SignUp.tsx:27-64 | when the delay ends, loading stops; Register's error is shown, or its user is stored and its path returned |
| ShopDashboard.Categories | ShopDashboard.tsx:35 | the categories have no duplicates, every product's category is one of them, and each is some product's category |
| ShopDashboard.CategoriesAppend | ShopDashboard.tsx:35 | for any product list, one more product adds its category at the end when the category is new and nothing when it is already listed, so categories appear in order of first appearance |
| ShopDashboard.InCartQuantity | ShopDashboard.tsx:193-225 | the "In Cart (n)" label's quantity, from the `find` of the product's row; InCartQuantityUnique states it |
| ShopDashboard.AddDisabled | ShopDashboard.tsx:221 | the add button's `disabled` condition; AddDisabledOnlyFor states it |
| ShopDashboard.VendorProductCount | ShopDashboard.tsx:166 | the "n Products Available" figure of a vendor card; VendorProductCountIsCount states it |
| ShopDashboard.InCartQuantityUnique | ShopDashboard.tsx:193-225 | no label shows exactly when the product has no row, and otherwise it shows the quantity of that product's one row |
| ShopDashboard.AddDisabledOnlyFor | ShopDashboard.tsx:221 | the button is disabled for the product being added and for out-of-stock products, and for no other reason |
| ShopDashboard.VendorProductCountIsCount | ShopDashboard.tsx:147-166 | a vendor card counts the products whose `vendorId` is the vendor's id |
| ShopDashboard.ShopView.constructor | ShopDashboard.tsx:25 | nothing is loading at first |
| ShopDashboard.ShopView.BeginAddToCart | ShopDashboard.tsx:38-39 | the product is marked as loading, which disables its button |
| ShopDashboard.ShopView.CompleteAddToCart | ShopDashboard.tsx:40-44 | exactly one unit of the product is added and the mark is cleared |
| ShopDashboard.ShopView.HandleRemove | ShopDashboard.tsx:115-118 | the row's product is removed from the cart |
| ShopDashboard.ShopView.HandlePlaceOrder | ShopDashboard.tsx:47-54 | an empty cart gives "Your cart is empty" and changes nothing; otherwise the store places the order |
| VendorDashboard.OrdersOf | VendorDashboard.tsx:37 | the vendor's orders, a `filter` on `vendorId`; OrdersOfAppend states it |
| VendorDashboard.MessagesTo | VendorDashboard.tsx:38 | the messages addressed to the user, a `filter` on `to`; MessagesToAppend states it |
| VendorDashboard.TotalRevenue | VendorDashboard.tsx:39 | the revenue figure, the vendor's order totals summed by `reduce`; RevenueAppend and PlaceOrderRevenue state it |
| VendorDashboard.OrdersOfAppend | VendorDashboard.tsx:37 | the vendor's orders are exactly those with its `vendorId`, and a new order joins the end of exactly its vendor's list |
| VendorDashboard.MessagesToAppend | VendorDashboard.tsx:38 | the user's messages are exactly those addressed to the user, and a new message joins the end of exactly its recipient's list |
| VendorDashboard.RevenueAppend | VendorDashboard.tsx:39 | a new order raises its vendor's revenue by its total and no one else's |
| VendorDashboard.PlaceOrderRevenue | AppContext.tsx:212-216 | placing an order credits the whole cart total to the first row's vendor and nothing to any other vendor |
| VendorDashboard.LowStock | VendorDashboard.tsx:225 | the low-stock flag, fewer than 10 left; SeedStockHealthy and LowStockAfterEdit state it |
| VendorDashboard.SeedStockHealthy | VendorDashboard.tsx:225 | no sample product starts below the low-stock threshold of 10 |
| VendorDashboard.LowStockAfterEdit | VendorDashboard.tsx:225 | after an edit a product is low on stock exactly when the submitted quantity is below 10 |
| VendorDashboard.SetField | VendorDashboard.tsx:150-181 | each input changes its own field only, and never the image |
| VendorDashboard.FormComplete | VendorDashboard.tsx:44 | the submit guard, all four text fields non-empty; FormOfComplete and ProductDialog.HandleSubmit state it |
| VendorDashboard.ProductData | VendorDashboard.tsx:49-56 | the submitted data has the form's text, the parsed numbers and the user as vendor; an empty image becomes the default vegetables image |
| VendorDashboard.MergePatchOf | VendorDashboard.tsx:58-59 | an edit replaces every field of the product with the submitted data except its id |
| VendorDashboard.FormOf | VendorDashboard.tsx:72-78 | the form `handleEdit` fills in, the numbers as their `toString` text; FormOfComplete and EditRoundTrip state it |
| VendorDashboard.FormOfComplete | VendorDashboard.tsx:71-78 | a form loaded from a product passes the submit guard exactly when the product has a name and a category |
| VendorDashboard.EditRoundTrip | VendorDashboard.tsx:49-78 | the price and quantity texts `handleEdit` fills in parse back to the product's own numbers, and submitting the untouched form with the owner signed in gives the product back, with the default image if it had none |
| VendorDashboard.Editing | VendorDashboard.tsx:58 | `if (editingProduct)`: an id that is present and non-empty; ProductDialog.HandleSubmit states which branch it selects |
| VendorDashboard.AddedProductListed | VendorDashboard.tsx:62 | a product added from the dialog joins the end of the adding vendor's own list |
| VendorDashboard.ProductDialog.constructor | VendorDashboard.tsx:18-26 | the dialog starts closed, with an empty form and nothing being edited |
| VendorDashboard.ProductDialog.Input | VendorDashboard.tsx:150-181 | typing changes one form field only |
| VendorDashboard.ProductDialog.SetDialogOpen | VendorDashboard.tsx:127 | opening or closing the dialog keeps the form and the product being edited |
| VendorDashboard.ProductDialog.OpenAddDialog | VendorDashboard.tsx:129-132 | the header button empties the form, clears the product being edited and opens the dialog |
| VendorDashboard.ProductDialog.HandleEdit | VendorDashboard.tsx:71-81 | the product's fields are loaded as text, its id is remembered and the dialog opens |
| VendorDashboard.ProductDialog.HandleSubmit | VendorDashboard.tsx:41-69 | with a field missing nothing changes; otherwise the product being edited is updated, or a new product added, then the form is emptied, nothing is being edited and the dialog closes |
| VendorDashboard.ProductDialog.HandleDelete | VendorDashboard.tsx:83-86 | the product is deleted from the store |
| Navbar.RoleLabel | Navbar.tsx:36 | the label is "Shop Owner" exactly for shop owners and "Vendor" for every other role, no role included |
| Navbar.RoleLabelMatchesDashboard | Navbar.tsx:36 | the label and the sign-in destination agree on who is a shop owner |
| Navbar.ItemCountAtLeastRows | Navbar.tsx:15 | the badge counts units: with at least one unit per row it is never below the number of rows |
| Navbar.ItemCountIsRowsOnlyForSingles | Navbar.tsx:15 | with at least one unit per row, the badge equals the number of rows exactly when every row holds one unit |
| Navbar.ShowCartBadge | Navbar.tsx:39 | the badge shows for a signed-in shop owner with a non-empty cart; BadgeAfterAdd, NoBadgeForVendors, HandleSignOut and OrderHidesBadge state it |
| Navbar.BadgeAfterAdd | Navbar.tsx:39 | after a shop owner adds q units the badge shows and its count has grown by q |
| Navbar.NoBadgeForVendors | Navbar.tsx:39 | a user who is not a shop owner never sees the badge |
| Navbar.HandleSignOut | Navbar.tsx:10-13 | signing out sets the user to nobody, returns '/', hides the badge and keeps the rest of the store |
| Navbar.OrderHidesBadge | Navbar.tsx:39 | after an order is placed the badge is hidden |

## Left out

- Rendering is left out: markup and styling, and the metric cards and landing page, which only show values.
- Navigation is left out: `navigate` becomes the returned path, and the role-guard effects are not modelled.
- Toast notifications are left out; they are presentation.
- Timers are left out: the 300 ms and 800 ms delays, their timing and overlapping submissions. Only the state before and after each delay is modelled.
- The context plumbing (`createContext`, `useApp`) is left out.
- Updates are not batched the React way. `placeOrder` reads the cart from its render closure; here every operation is atomic on the current store state.
- Identifiers and dates are parameters. Nothing guarantees they are fresh, and no uniqueness is claimed.
- Floating point is left out: prices are integer cents, and `toFixed(2)` formatting is not modelled.
- `VendorDashboard.ProductDialog.HandleSubmit` takes the parsed price and quantity as parameters: a text that does not parse gives `NaN`, which integer cents cannot hold. `Strings.ParseCents` and `Strings.ParseInt` model the parsing of the texts the edit form fills in.
- `Strings.ParseCents`: reads at most two decimals and drops any further ones. Like `Strings.ParseInt`, it does not model leading whitespace, exponent notation, `Infinity` or `0x` prefixes.
- The `Vendor.products` field is left out: it is always empty and never updated.
- The `productImages` lookup by category is left out; it only picks a picture.
- `Strings.CentsToString`: models `toString` of a price with at most two decimals. It does not model exponent notation for very large or very small numbers. Its own contract states non-emptiness and the sign. `Strings.CentsToStringRoundTrip` states that nothing is lost, and `Strings.CentsToStringExamples` pins the format of sample values.
- `SignUp.Register`: the password length is counted in Dafny characters. JavaScript counts UTF-16 code units, so a password using characters outside the Basic Multilingual Plane is measured differently.
- `VendorDashboard.ProductDialog.OpenAddDialog`: it opens the dialog as the dialog's trigger does. The trigger's own open event is folded into the same method.
