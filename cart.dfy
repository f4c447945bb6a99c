/** The cart transformations of the store: the updaters `addToCart` and `removeFromCart`
    hand to `setCart`, and the two sums over a cart (the money total and the item count). */
module Cart {
  import opened Model
  import opened Seqs

  /** At most one row per product id. */
  predicate UniqueIds(cart: seq<CartItem>)
  {
    forall i, j :: 0 <= i < j < |cart| ==> cart[i].productId != cart[j].productId
  }

  /** The cart invariant the store keeps: one row per product, and each row's id is the id
      of the product copy it carries. */
  predicate WellFormed(cart: seq<CartItem>)
  {
    UniqueIds(cart) && forall i :: 0 <= i < |cart| ==> cart[i].productId == cart[i].product.id
  }

  /** Some row has product id `pid`. */
  predicate InCart(cart: seq<CartItem>, pid: string)
  {
    exists i :: 0 <= i < |cart| && cart[i].productId == pid
  }

  /** `cart.find(item => item.productId === pid)`: the first row for `pid`, if any. */
  function FindItem(cart: seq<CartItem>, pid: string): (r: Option<CartItem>)
    ensures r.None? <==> !InCart(cart, pid)
    ensures r.Some? ==> exists i :: 0 <= i < |cart| && cart[i] == r.value && cart[i].productId == pid
                                    && forall j :: 0 <= j < i ==> cart[j].productId != pid
  {
    if cart == [] then None
    else if cart[0].productId == pid then Some(cart[0])
    else
      var r := FindItem(cart[1..], pid);
      assert InCart(cart, pid) ==> InCart(cart[1..], pid) by {
        if InCart(cart, pid) {
          var i :| 0 <= i < |cart| && cart[i].productId == pid;
          assert cart[1..][i - 1] == cart[i];
        }
      }
      assert r.Some? ==> exists i :: 0 <= i < |cart| && cart[i] == r.value && cart[i].productId == pid
                                    && forall j :: 0 <= j < i ==> cart[j].productId != pid by {
        if r.Some? {
          var i :| 0 <= i < |cart[1..]| && cart[1..][i] == r.value && cart[1..][i].productId == pid
                   && forall j :: 0 <= j < i ==> cart[1..][j].productId != pid;
          assert forall j :: 0 <= j < i + 1 ==> cart[j].productId != pid by {
            forall j | 0 <= j < i + 1 ensures cart[j].productId != pid {
              if j > 0 { assert cart[j] == cart[1..][j - 1]; }
            }
          }
          assert cart[i + 1] == r.value;
        }
      }
      r
  }

  /** In a cart with one row per product, `find` returns the row at the index of `pid`. */
  lemma FindUnique(cart: seq<CartItem>, pid: string, k: int)
    requires UniqueIds(cart) && 0 <= k < |cart| && cart[k].productId == pid
    ensures FindItem(cart, pid) == Some(cart[k])
  {
  }

  /** The row transformer of `addToCart`'s `map`. */
  function Raise(pid: string, q: int): CartItem -> CartItem
  {
    (item: CartItem) => if item.productId == pid then item.(quantity := item.quantity + q) else item
  }

  /** The `map` of `addToCart`: every row for `pid` has its quantity raised by `q`. */
  function Increment(cart: seq<CartItem>, pid: string, q: int): seq<CartItem>
  {
    Map(cart, Raise(pid, q))
  }

  /** The updater of `addToCart(p, q)`: raise the existing row of `p`, or append a new row. */
  function AddItem(cart: seq<CartItem>, p: Product, q: int): seq<CartItem>
  {
    match FindItem(cart, p.id)
    case Some(_) => Increment(cart, p.id, q)
    case None => cart + [CartItem(p.id, q, p)]
  }

  /** The condition of `removeFromCart`'s `filter`. */
  function OtherThan(pid: string): CartItem -> bool
  {
    (item: CartItem) => item.productId != pid
  }

  /** The updater of `removeFromCart(pid)`: keep the rows for other products. */
  function RemoveItem(cart: seq<CartItem>, pid: string): seq<CartItem>
  {
    Filter(cart, OtherThan(pid))
  }

  /** One row's contribution to the total. */
  function LineTotal(item: CartItem): int
  {
    item.product.price * item.quantity
  }

  function Quantity(item: CartItem): int
  {
    item.quantity
  }

  /** The cart's money total: price times quantity, summed over the rows, in cents. */
  function CartTotal(cart: seq<CartItem>): int
  {
    SumOf(cart, LineTotal)
  }

  /** The cart's unit count: quantities summed over the rows, not the number of rows. */
  function ItemCount(cart: seq<CartItem>): int
  {
    SumOf(cart, Quantity)
  }

  /** The two `reduce` loops over a cart compute the sums: the money total `placeOrder`
      records and the dashboard shows, and the unit count of the navigation bar's badge. */
  lemma ReduceSums(cart: seq<CartItem>)
    ensures FoldSum(cart, 0, LineTotal) == CartTotal(cart)
    ensures FoldSum(cart, 0, Quantity) == ItemCount(cart)
  {
    FoldSumIsSum(cart, 0, LineTotal);
    FoldSumIsSum(cart, 0, Quantity);
  }

  /** The unit price a further `addToCart(p, q)` is charged at: that of the copy already in
      the cart when there is one (the row keeps its original copy), else `p`'s price. */
  function UnitPrice(cart: seq<CartItem>, p: Product): int
  {
    match FindItem(cart, p.id)
    case Some(item) => item.product.price
    case None => p.price
  }

  // ---------------------------------------------------------------------------
  // addToCart

  /** With one row per product, raising `pid` touches exactly the row at its index. */
  lemma IncrementSplit(cart: seq<CartItem>, pid: string, q: int, k: int)
    requires UniqueIds(cart) && 0 <= k < |cart| && cart[k].productId == pid
    ensures Increment(cart, pid, q) == cart[..k] + [cart[k].(quantity := cart[k].quantity + q)] + cart[k + 1..]
  {
    var r := Increment(cart, pid, q);
    var s := cart[..k] + [cart[k].(quantity := cart[k].quantity + q)] + cart[k + 1..];
    assert |r| == |s|;
    forall i | 0 <= i < |r| ensures r[i] == s[i] {
      if i < k { assert s[i] == cart[i]; }
      else if i > k { assert s[i] == cart[i]; }
    }
  }

  /** `addToCart` on a product already in the cart keeps the cart's length, adds `q` to that
      product's row and leaves every other row as it was. */
  lemma AddItemExisting(cart: seq<CartItem>, p: Product, q: int, k: int)
    requires UniqueIds(cart) && 0 <= k < |cart| && cart[k].productId == p.id
    ensures |AddItem(cart, p, q)| == |cart|
    ensures AddItem(cart, p, q)[k] == cart[k].(quantity := cart[k].quantity + q)
    ensures forall j :: 0 <= j < |cart| && j != k ==> AddItem(cart, p, q)[j] == cart[j]
  {
    FindUnique(cart, p.id, k);
    IncrementSplit(cart, p.id, q, k);
  }

  /** `addToCart` on a product not in the cart appends one row for it at the end. */
  lemma AddItemNew(cart: seq<CartItem>, p: Product, q: int)
    requires !InCart(cart, p.id)
    ensures AddItem(cart, p, q) == cart + [CartItem(p.id, q, p)]
  {
  }

  /** `addToCart` keeps the cart invariant: still one row per product. */
  lemma AddItemWellFormed(cart: seq<CartItem>, p: Product, q: int)
    requires WellFormed(cart)
    ensures WellFormed(AddItem(cart, p, q))
  {
    if InCart(cart, p.id) {
      var k :| 0 <= k < |cart| && cart[k].productId == p.id;
      AddItemExisting(cart, p, q, k);
    }
  }

  /** Appending a row for a product not yet in the cart keeps one row per product. */
  lemma AppendUnique(cart: seq<CartItem>, row: CartItem)
    requires UniqueIds(cart) && !InCart(cart, row.productId)
    ensures UniqueIds(cart + [row])
  {
    var s := cart + [row];
    forall i, j | 0 <= i < j < |s| ensures s[i].productId != s[j].productId {
      if j == |cart| {
        assert s[i] == cart[i];
      } else {
        assert s[i] == cart[i] && s[j] == cart[j];
      }
    }
  }

  /** Adding twice a product that is not in the cart yields one row with the summed quantity. */
  lemma AddItemTwice(cart: seq<CartItem>, p: Product, a: int, b: int)
    requires UniqueIds(cart) && !InCart(cart, p.id)
    ensures AddItem(AddItem(cart, p, a), p, b) == cart + [CartItem(p.id, a + b, p)]
  {
    var row := CartItem(p.id, a, p);
    AddItemNew(cart, p, a);
    AppendUnique(cart, row);
    AddItemLast(cart, row, p, b);
  }

  /** Adding to the product of the last row, when that is its only row, raises that row. */
  lemma AddItemLast(cart: seq<CartItem>, row: CartItem, p: Product, b: int)
    requires UniqueIds(cart + [row]) && row.productId == p.id
    ensures AddItem(cart + [row], p, b) == cart + [row.(quantity := row.quantity + b)]
  {
    var once := cart + [row];
    var n := |cart|;
    assert once[n] == row;
    FindUnique(once, p.id, n);
    var r, s := Increment(once, p.id, b), cart + [row.(quantity := row.quantity + b)];
    forall i | 0 <= i < |s| ensures r[i] == s[i] {
      if i < n {
        assert once[i] == cart[i] && once[i].productId != once[n].productId;
      }
    }
    assert |r| == |s|;
  }

  /** The sums after raising row `k` by `q`. */
  lemma IncrementSums(cart: seq<CartItem>, pid: string, q: int, k: int)
    requires UniqueIds(cart) && 0 <= k < |cart| && cart[k].productId == pid
    ensures ItemCount(Increment(cart, pid, q)) == ItemCount(cart) + q
    ensures CartTotal(Increment(cart, pid, q)) == CartTotal(cart) + cart[k].product.price * q
  {
    var row := cart[k].(quantity := cart[k].quantity + q);
    IncrementSplit(cart, pid, q, k);
    SumAroundRow(cart, k, row, Quantity);
    SumAroundRow(cart, k, row, LineTotal);
    RaisedLineTotal(cart[k], q);
  }

  /** Replacing row `k` changes a sum by the difference of the two rows' terms. */
  lemma SumAroundRow(cart: seq<CartItem>, k: int, row: CartItem, f: CartItem -> int)
    requires 0 <= k < |cart|
    ensures SumOf(cart[..k] + [row] + cart[k + 1..], f) == SumOf(cart, f) - f(cart[k]) + f(row)
  {
    SumOfAt(cart, k, f);
    SumOfSplit(cart[..k], row, cart[k + 1..], f);
  }

  /** Raising a row's quantity by `q` raises its line total by `q` units of its price. */
  lemma RaisedLineTotal(item: CartItem, q: int)
    ensures LineTotal(item.(quantity := item.quantity + q)) == LineTotal(item) + item.product.price * q
  {
    assert item.product.price * (item.quantity + q) == item.product.price * item.quantity + item.product.price * q;
  }

  /** `addToCart(p, q)` raises the unit count by exactly `q` and the total by `q` units at
      the price of the copy in the cart. */
  lemma AddItemSums(cart: seq<CartItem>, p: Product, q: int)
    requires UniqueIds(cart)
    ensures ItemCount(AddItem(cart, p, q)) == ItemCount(cart) + q
    ensures CartTotal(AddItem(cart, p, q)) == CartTotal(cart) + UnitPrice(cart, p) * q
  {
    if InCart(cart, p.id) {
      var k :| 0 <= k < |cart| && cart[k].productId == p.id;
      FindUnique(cart, p.id, k);
      IncrementSums(cart, p.id, q, k);
    } else {
      var row := CartItem(p.id, q, p);
      SumOfConcat(cart, [row], Quantity);
      SumOfConcat(cart, [row], LineTotal);
      SumOfSingleton(row, Quantity);
      SumOfSingleton(row, LineTotal);
    }
  }

  /** After `addToCart` the cart is never empty. */
  lemma AddItemNonEmpty(cart: seq<CartItem>, p: Product, q: int)
    ensures |AddItem(cart, p, q)| >= 1
    ensures InCart(AddItem(cart, p, q), p.id)
  {
    match FindItem(cart, p.id)
    case Some(_) =>
      var k :| 0 <= k < |cart| && cart[k].productId == p.id;
      assert Increment(cart, p.id, q)[k].productId == p.id;
    case None =>
      assert (cart + [CartItem(p.id, q, p)])[|cart|].productId == p.id;
  }

  // ---------------------------------------------------------------------------
  // removeFromCart

  /** After `removeFromCart(pid)` no row of `pid` is left, and the rows that stay are the
      old rows of the other products. */
  lemma RemoveItemMembers(cart: seq<CartItem>, pid: string)
    ensures !InCart(RemoveItem(cart, pid), pid)
    ensures forall item :: item in RemoveItem(cart, pid) <==> item in cart && item.productId != pid
  {
    var r := RemoveItem(cart, pid);
    forall i | 0 <= i < |r| ensures r[i].productId != pid {
      assert r[i] in r;
    }
  }

  /** `removeFromCart` of a product that is not in the cart changes nothing. */
  lemma RemoveItemAbsent(cart: seq<CartItem>, pid: string)
    requires !InCart(cart, pid)
    ensures RemoveItem(cart, pid) == cart
  {
    forall item | item in cart ensures item.productId != pid {
      var i :| 0 <= i < |cart| && cart[i] == item;
    }
    FilterKeepsAll(cart, OtherThan(pid));
  }

  /** With one row per product, `removeFromCart` takes out exactly that product's row and
      keeps the others in their order. */
  lemma RemoveItemUnique(cart: seq<CartItem>, pid: string, k: int)
    requires UniqueIds(cart) && 0 <= k < |cart| && cart[k].productId == pid
    ensures RemoveItem(cart, pid) == cart[..k] + cart[k + 1..]
  {
    var before, after := cart[..k], cart[k + 1..];
    assert cart == before + [cart[k]] + after;
    OnlyRow(cart, k);
    RemoveItemAbsent(before, pid);
    RemoveItemAbsent(after, pid);
    FilterSplit(before, cart[k], after, OtherThan(pid));
  }

  /** With one row per product, the rows before and after row `k` are for other products. */
  lemma OnlyRow(cart: seq<CartItem>, k: int)
    requires UniqueIds(cart) && 0 <= k < |cart|
    ensures !InCart(cart[..k], cart[k].productId)
    ensures !InCart(cart[k + 1..], cart[k].productId)
  {
    var before, after := cart[..k], cart[k + 1..];
    forall i | 0 <= i < |before| ensures before[i].productId != cart[k].productId {
      assert before[i] == cart[i];
    }
    forall i | 0 <= i < |after| ensures after[i].productId != cart[k].productId {
      assert after[i] == cart[k + 1 + i];
    }
  }

  /** `removeFromCart` keeps the cart invariant. */
  lemma RemoveItemWellFormed(cart: seq<CartItem>, pid: string)
    requires WellFormed(cart)
    ensures WellFormed(RemoveItem(cart, pid))
  {
    if InCart(cart, pid) {
      var k :| 0 <= k < |cart| && cart[k].productId == pid;
      RemoveItemUnique(cart, pid, k);
      var r := cart[..k] + cart[k + 1..];
      assert forall i :: 0 <= i < |r| ==> r[i] == cart[if i < k then i else i + 1];
    } else {
      RemoveItemAbsent(cart, pid);
    }
  }

  /** `removeFromCart` lowers the unit count by the removed row's quantity. */
  lemma RemoveItemCount(cart: seq<CartItem>, pid: string, k: int)
    requires UniqueIds(cart) && 0 <= k < |cart| && cart[k].productId == pid
    ensures ItemCount(RemoveItem(cart, pid)) == ItemCount(cart) - cart[k].quantity
    ensures CartTotal(RemoveItem(cart, pid)) == CartTotal(cart) - LineTotal(cart[k])
  {
    RemoveItemUnique(cart, pid, k);
    SumOfAt(cart, k, Quantity);
    SumOfConcat(cart[..k], cart[k + 1..], Quantity);
    SumOfAt(cart, k, LineTotal);
    SumOfConcat(cart[..k], cart[k + 1..], LineTotal);
  }

  /** `removeFromCart` undoes `addToCart`: adding some units of a product and then removing
      it leaves the cart as removing it alone would, which for a product not yet in the cart
      is the cart as it was. */
  lemma AddThenRemove(cart: seq<CartItem>, p: Product, q: int)
    requires WellFormed(cart)
    ensures RemoveItem(AddItem(cart, p, q), p.id) == RemoveItem(cart, p.id)
    ensures !InCart(cart, p.id) ==> RemoveItem(AddItem(cart, p, q), p.id) == cart
  {
    if InCart(cart, p.id) {
      var k :| 0 <= k < |cart| && cart[k].productId == p.id;
      RemoveRaisedRow(cart, p, q, k);
      RemoveItemUnique(cart, p.id, k);
    } else {
      RemoveNewRow(cart, p, q);
      RemoveItemAbsent(cart, p.id);
    }
  }

  /** Removing a product whose row was just raised removes the row. */
  lemma RemoveRaisedRow(cart: seq<CartItem>, p: Product, q: int, k: int)
    requires WellFormed(cart) && 0 <= k < |cart| && cart[k].productId == p.id
    ensures RemoveItem(AddItem(cart, p, q), p.id) == cart[..k] + cart[k + 1..]
  {
    var added := AddItem(cart, p, q);
    AddItemExisting(cart, p, q, k);
    AddItemWellFormed(cart, p, q);
    RemoveItemUnique(added, p.id, k);
    var before, after := added[..k], added[k + 1..];
    forall j | 0 <= j < |before| ensures before[j] == cart[..k][j] {
      assert added[j] == cart[j];
    }
    assert before == cart[..k];
    forall j | 0 <= j < |after| ensures after[j] == cart[k + 1..][j] {
      assert added[k + 1 + j] == cart[k + 1 + j];
    }
    assert after == cart[k + 1..];
  }

  /** Removing a product whose row was just appended removes the row. */
  lemma RemoveNewRow(cart: seq<CartItem>, p: Product, q: int)
    requires !InCart(cart, p.id)
    ensures RemoveItem(AddItem(cart, p, q), p.id) == RemoveItem(cart, p.id)
  {
    var row := CartItem(p.id, q, p);
    AddItemNew(cart, p, q);
    FilterConcat(cart, [row], OtherThan(p.id));
    assert [row][1..] == [];
  }
}
