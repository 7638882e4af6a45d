/** The cart as pure state transitions: the lines, the three edits the shop applies to them,
    and the two figures derived from them (the badge count and the total). */
module Cart {
  import opened Seqs
  import opened Catalog

  /** A cart line: the product record copied when it was first added, and how many of it. */
  datatype CartLine = CartLine(product: Product, quantity: int)

  /** `cart.find(item => item.id === id)`, as an index: the position of the first line for
      that product, or `|cart|` when there is none. */
  function LineIndex(cart: seq<CartLine>, id: int): (r: nat)
    ensures r <= |cart|
    ensures r < |cart| ==> cart[r].product.id == id
    ensures forall j :: 0 <= j < r ==> cart[j].product.id != id
  {
    if cart == [] then 0
    else if cart[0].product.id == id then 0
    else 1 + LineIndex(cart[1..], id)
  }

  /** Some line of the cart is for product `id`. */
  predicate InCart(cart: seq<CartLine>, id: int) {
    LineIndex(cart, id) < |cart|
  }

  /** The cart invariant: at most one line per product id, and every quantity positive. In a
      well-formed cart, looking a line's product up by id finds that very line. */
  predicate WellFormed(cart: seq<CartLine>)
    ensures WellFormed(cart) ==>
      forall k {:trigger LineIndex(cart, cart[k].product.id)} ::
        0 <= k < |cart| ==> LineIndex(cart, cart[k].product.id) == k
  {
    (forall i, j :: 0 <= i < j < |cart| ==> cart[i].product.id != cart[j].product.id) &&
    (forall i :: 0 <= i < |cart| ==> cart[i].quantity > 0)
  }

  /** `cart.reduce((sum, item) => sum + f(item), 0)`. */
  function SumOf(cart: seq<CartLine>, f: CartLine -> int): int {
    if cart == [] then 0 else f(cart[0]) + SumOf(cart[1..], f)
  }

  /** A reduction is never negative when no term is, and is at least one per line when every
      term is positive. */
  lemma {:induction false} SumOfBounds(cart: seq<CartLine>, f: CartLine -> int)
    ensures (forall k :: 0 <= k < |cart| ==> f(cart[k]) >= 0) ==> SumOf(cart, f) >= 0
    ensures (forall k :: 0 <= k < |cart| ==> f(cart[k]) > 0) ==> SumOf(cart, f) >= |cart|
    decreases |cart|
  {
    if cart != [] {
      SumOfBounds(cart[1..], f);
      assert forall k :: 0 <= k < |cart| - 1 ==> cart[1..][k] == cart[k + 1];
    }
  }

  function LineQuantity(line: CartLine): int {
    line.quantity
  }

  function LineTotal(line: CartLine): int {
    line.product.price * line.quantity
  }

  /** The number on the cart badge: the sum of the line quantities. It is 0 for an empty cart. */
  function BadgeCount(cart: seq<CartLine>): (r: int)
    ensures cart == [] ==> r == 0
  {
    SumOf(cart, LineQuantity)
  }

  /** In a well-formed cart the badge counts at least one per line. */
  lemma BadgeAtLeastLines(cart: seq<CartLine>)
    ensures WellFormed(cart) ==> BadgeCount(cart) >= |cart|
  {
    SumOfBounds(cart, LineQuantity);
  }

  /** The badge is visible exactly when its count is positive; for a well-formed cart, exactly
      when the cart has a line. */
  predicate BadgeShown(cart: seq<CartLine>)
    ensures WellFormed(cart) ==> (BadgeShown(cart) <==> cart != [])
  {
    BadgeAtLeastLines(cart);
    BadgeCount(cart) > 0
  }

  /** The cart total: the sum of price times quantity over the lines. An empty cart totals 0. */
  function Total(cart: seq<CartLine>): (r: int)
    ensures cart == [] ==> r == 0
  {
    SumOf(cart, LineTotal)
  }

  /** A well-formed cart of products with no negative price has no negative total. */
  lemma TotalNonNegative(cart: seq<CartLine>)
    requires WellFormed(cart)
    requires forall k :: 0 <= k < |cart| ==> cart[k].product.price >= 0
    ensures Total(cart) >= 0
  {
    SumOfBounds(cart, LineTotal);
  }

  /** A line's quantity if it is for product `id`, otherwise 0. */
  function QuantityFor(id: int): CartLine -> int {
    (line: CartLine) => if line.product.id == id then line.quantity else 0
  }

  /** How many of product `id` the cart holds, over all its lines: the cart seen as a bag. */
  function QuantityOf(cart: seq<CartLine>, id: int): int {
    SumOf(cart, QuantityFor(id))
  }

  /** The catalog lists product `id` and the first product listed with that id is in stock. */
  predicate Addable(products: seq<Product>, id: int)
    ensures Addable(products, id) <==>
      exists k :: 0 <= k < |products| && products[k].id == id && products[k].inStock &&
        forall j :: 0 <= j < k ==> products[j].id != id
  {
    var k := ProductIndex(products, id);
    k < |products| && products[k].inStock
  }

  /** The cart after `addToCart(id)`. */
  function AddedToCart(cart: seq<CartLine>, products: seq<Product>, id: int): (r: seq<CartLine>)
    ensures !Addable(products, id) ==> r == cart
    ensures Addable(products, id) && InCart(cart, id) ==>
      var i := LineIndex(cart, id);
      |r| == |cart| &&
      r[i].product == cart[i].product && r[i].quantity == cart[i].quantity + 1 &&
      forall j :: 0 <= j < |cart| && j != i ==> r[j] == cart[j]
    ensures Addable(products, id) && !InCart(cart, id) ==>
      r == cart + [CartLine(products[ProductIndex(products, id)], 1)]
  {
    var k := ProductIndex(products, id);
    if k == |products| || !products[k].inStock then cart
    else
      var i := LineIndex(cart, id);
      if i < |cart| then cart[i := cart[i].(quantity := cart[i].quantity + 1)]
      else cart + [CartLine(products[k], 1)]
  }

  /** `cart.filter(item => item.id !== id)`: the other lines, in their original order. */
  function WithoutId(cart: seq<CartLine>, id: int): (r: seq<CartLine>)
    ensures IsSubsequence(r, cart)
    ensures forall k :: 0 <= k < |r| ==> r[k].product.id != id
    ensures forall x {:trigger multiset(r)[x]} :: multiset(r)[x] == if x.product.id == id then 0 else multiset(cart)[x]
  {
    if cart == [] then []
    else
      var rest := WithoutId(cart[1..], id);
      assert cart == [cart[0]] + cart[1..];
      if cart[0].product.id == id then rest
      else [cart[0]] + rest
  }

  /** The cart after `updateQuantity(id, change)`. */
  function QuantityUpdated(cart: seq<CartLine>, id: int, change: int): (r: seq<CartLine>)
    ensures !InCart(cart, id) ==> r == cart
    ensures InCart(cart, id) && cart[LineIndex(cart, id)].quantity + change <= 0 ==>
      r == WithoutId(cart, id)
    ensures InCart(cart, id) && cart[LineIndex(cart, id)].quantity + change > 0 ==>
      var i := LineIndex(cart, id);
      |r| == |cart| &&
      r[i].product == cart[i].product && r[i].quantity == cart[i].quantity + change &&
      forall j :: 0 <= j < |cart| && j != i ==> r[j] == cart[j]
  {
    var i := LineIndex(cart, id);
    if i == |cart| then cart
    else if cart[i].quantity + change <= 0 then WithoutId(cart, id)
    else cart[i := cart[i].(quantity := cart[i].quantity + change)]
  }

  // ---------------------------------------------------------------------------
  // Sums

  lemma {:induction false} SumAppend(a: seq<CartLine>, b: seq<CartLine>, f: CartLine -> int)
    ensures SumOf(a + b, f) == SumOf(a, f) + SumOf(b, f)
    decreases |a|
  {
    if a != [] {
      assert (a + b)[1..] == a[1..] + b;
      SumAppend(a[1..], b, f);
    } else {
      assert a + b == b;
    }
  }

  /** Replacing one line changes a sum by the difference of that line's terms. */
  lemma {:induction false} SumUpdate(s: seq<CartLine>, i: nat, x: CartLine, f: CartLine -> int)
    requires i < |s|
    ensures SumOf(s[i := x], f) == SumOf(s, f) - f(s[i]) + f(x)
    decreases i
  {
    if i > 0 {
      assert s[i := x][1..] == s[1..][i - 1 := x];
      SumUpdate(s[1..], i - 1, x, f);
    }
  }

  /** In a well-formed cart, the quantity held of a product is that of its single line. */
  lemma {:induction false} QuantityOfLine(cart: seq<CartLine>, id: int)
    requires WellFormed(cart)
    ensures QuantityOf(cart, id) == if InCart(cart, id) then cart[LineIndex(cart, id)].quantity else 0
    decreases |cart|
  {
    if cart != [] {
      QuantityOfLine(cart[1..], id);
      if cart[0].product.id == id {
        assert !InCart(cart[1..], id);
      }
    }
  }

  // ---------------------------------------------------------------------------
  // addToCart

  /** Adding keeps the cart well-formed. */
  lemma AddPreservesWellFormed(cart: seq<CartLine>, products: seq<Product>, id: int)
    requires WellFormed(cart)
    ensures WellFormed(AddedToCart(cart, products, id))
  {
  }

  /** Adding raises the held quantity of `id` by exactly one when the product can be added,
      changes no other product's quantity, and moves the badge and the total accordingly: the
      total grows by the price stored on the existing line, or by the catalog price for a new one. */
  lemma AddEffect(cart: seq<CartLine>, products: seq<Product>, id: int)
    ensures var r := AddedToCart(cart, products, id);
      forall x :: QuantityOf(r, x) == QuantityOf(cart, x) + (if x == id && Addable(products, id) then 1 else 0)
    ensures var r := AddedToCart(cart, products, id);
      BadgeCount(r) == BadgeCount(cart) + (if Addable(products, id) then 1 else 0)
    ensures var r := AddedToCart(cart, products, id);
      Total(r) == Total(cart) +
        (if !Addable(products, id) then 0
         else if InCart(cart, id) then cart[LineIndex(cart, id)].product.price
         else products[ProductIndex(products, id)].price)
  {
    if Addable(products, id) {
      if InCart(cart, id) {
        AddToLineEffect(cart, products, id);
      } else {
        AddNewLineEffect(cart, products, id);
      }
    }
  }

  /** An accepted add of a product the cart holds raises that product's quantity and the badge
      by one, and the total by the price stored on its line. */
  lemma AddToLineEffect(cart: seq<CartLine>, products: seq<Product>, id: int)
    requires Addable(products, id) && InCart(cart, id)
    ensures var r := AddedToCart(cart, products, id);
      (forall x :: QuantityOf(r, x) == QuantityOf(cart, x) + (if x == id then 1 else 0)) &&
      BadgeCount(r) == BadgeCount(cart) + 1 &&
      Total(r) == Total(cart) + cart[LineIndex(cart, id)].product.price
  {
    var r := AddedToCart(cart, products, id);
    var i := LineIndex(cart, id);
    var line := cart[i].(quantity := cart[i].quantity + 1);
    assert r == cart[i := line];
    SumUpdate(cart, i, line, LineQuantity);
    SumUpdate(cart, i, line, LineTotal);
    forall x ensures QuantityOf(r, x) == QuantityOf(cart, x) + (if x == id then 1 else 0) {
      SumUpdate(cart, i, line, QuantityFor(x));
    }
  }

  /** An accepted add of a product the cart does not hold raises that product's quantity and
      the badge by one, and the total by the catalog price. */
  lemma AddNewLineEffect(cart: seq<CartLine>, products: seq<Product>, id: int)
    requires Addable(products, id) && !InCart(cart, id)
    ensures var r := AddedToCart(cart, products, id);
      (forall x :: QuantityOf(r, x) == QuantityOf(cart, x) + (if x == id then 1 else 0)) &&
      BadgeCount(r) == BadgeCount(cart) + 1 &&
      Total(r) == Total(cart) + products[ProductIndex(products, id)].price
  {
    var r := AddedToCart(cart, products, id);
    var line := CartLine(products[ProductIndex(products, id)], 1);
    assert r == cart + [line];
    SumAppend(cart, [line], LineQuantity);
    SumAppend(cart, [line], LineTotal);
    forall x ensures QuantityOf(r, x) == QuantityOf(cart, x) + (if x == id then 1 else 0) {
      SumAppend(cart, [line], QuantityFor(x));
    }
  }

  /** Adding the same product twice to a cart without it yields one new line of quantity 2,
      not two lines. */
  lemma AddTwice(cart: seq<CartLine>, products: seq<Product>, id: int)
    requires Addable(products, id) && !InCart(cart, id)
    ensures var r := AddedToCart(AddedToCart(cart, products, id), products, id);
      r == cart + [CartLine(products[ProductIndex(products, id)], 2)]
  {
    var once := AddedToCart(cart, products, id);
    assert once[|cart|].product.id == id;
  }

  // ---------------------------------------------------------------------------
  // removeFromCart

  /** Removing an id the cart does not hold is a no-op. */
  lemma {:induction false} RemoveAbsent(cart: seq<CartLine>, id: int)
    requires !InCart(cart, id)
    ensures WithoutId(cart, id) == cart
    decreases |cart|
  {
    if cart != [] {
      RemoveAbsent(cart[1..], id);
    }
  }

  /** Editing a line for `id` in place, before removing `id`, makes no difference to the removal. */
  lemma {:induction false} RemoveAfterEdit(cart: seq<CartLine>, id: int, i: nat, line: CartLine)
    requires i < |cart| && cart[i].product.id == id && line.product.id == id
    ensures WithoutId(cart[i := line], id) == WithoutId(cart, id)
    decreases i
  {
    if i > 0 {
      assert cart[i := line][1..] == cart[1..][i - 1 := line];
      RemoveAfterEdit(cart[1..], id, i - 1, line);
    }
  }

  /** Removing keeps the cart well-formed. */
  lemma {:induction false} RemovePreservesWellFormed(cart: seq<CartLine>, id: int)
    requires WellFormed(cart)
    ensures WellFormed(WithoutId(cart, id))
    decreases |cart|
  {
    if cart != [] {
      var tail := WithoutId(cart[1..], id);
      RemovePreservesWellFormed(cart[1..], id);
      if cart[0].product.id != id {
        SubsequenceMembers(tail, cart[1..]);
        var r := [cart[0]] + tail;
        forall k | 0 < k < |r|
          ensures r[k].product.id != cart[0].product.id && r[k].quantity > 0
        {
          assert r[k] == tail[k - 1] && tail[k - 1] in cart[1..];
          var j :| 0 <= j < |cart| - 1 && cart[1..][j] == tail[k - 1];
          assert cart[j + 1] == r[k];
        }
        assert WellFormed(r);
      }
    }
  }

  /** Removing leaves the cart holding none of `id` and the same quantity of everything else. */
  lemma {:induction false} RemoveQuantities(cart: seq<CartLine>, id: int, x: int)
    ensures QuantityOf(WithoutId(cart, id), x) == if x == id then 0 else QuantityOf(cart, x)
    decreases |cart|
  {
    if cart != [] {
      RemoveQuantities(cart[1..], id, x);
      if cart[0].product.id != id {
        assert ([cart[0]] + WithoutId(cart[1..], id))[1..] == WithoutId(cart[1..], id);
      }
    }
  }

  /** Removing the one line for `id` takes exactly that line's term out of any sum. */
  lemma {:induction false} RemoveSum(cart: seq<CartLine>, id: int, i: nat, f: CartLine -> int)
    requires i < |cart| && cart[i].product.id == id
    requires forall j :: 0 <= j < |cart| && j != i ==> cart[j].product.id != id
    ensures SumOf(WithoutId(cart, id), f) == SumOf(cart, f) - f(cart[i])
    decreases i
  {
    if i == 0 {
      RemoveAbsent(cart[1..], id);
    } else {
      RemoveSum(cart[1..], id, i - 1, f);
      assert ([cart[0]] + WithoutId(cart[1..], id))[1..] == WithoutId(cart[1..], id);
    }
  }

  /** Removing a product's line from a well-formed cart lowers the badge by its quantity and
      the total by its price times quantity. */
  lemma RemoveTotals(cart: seq<CartLine>, id: int)
    requires WellFormed(cart) && InCart(cart, id)
    ensures var i := LineIndex(cart, id);
      BadgeCount(WithoutId(cart, id)) == BadgeCount(cart) - cart[i].quantity &&
      Total(WithoutId(cart, id)) == Total(cart) - cart[i].product.price * cart[i].quantity
  {
    var i := LineIndex(cart, id);
    RemoveSum(cart, id, i, LineQuantity);
    RemoveSum(cart, id, i, LineTotal);
  }

  // ---------------------------------------------------------------------------
  // updateQuantity

  /** Updating keeps the cart well-formed: a line whose quantity would reach zero or below is
      removed, never kept. */
  lemma UpdatePreservesWellFormed(cart: seq<CartLine>, id: int, change: int)
    requires WellFormed(cart)
    ensures WellFormed(QuantityUpdated(cart, id, change))
  {
    RemovePreservesWellFormed(cart, id);
  }

  /** A change that takes the line to zero or below removes the product: none of it is left,
      and every other product's quantity is unchanged. */
  lemma UpdateDropEffect(cart: seq<CartLine>, id: int, change: int)
    requires InCart(cart, id) && cart[LineIndex(cart, id)].quantity + change <= 0
    ensures var r := QuantityUpdated(cart, id, change);
      !InCart(r, id) && forall x :: QuantityOf(r, x) == if x == id then 0 else QuantityOf(cart, x)
  {
    var r := QuantityUpdated(cart, id, change);
    assert r == WithoutId(cart, id);
    forall x ensures QuantityOf(r, x) == if x == id then 0 else QuantityOf(cart, x) {
      RemoveQuantities(cart, id, x);
    }
  }

  /** A change that leaves the line positive moves that product's quantity, the badge and the
      total by `change` (the total at the line's stored price), and no other product's quantity. */
  lemma UpdateEditEffect(cart: seq<CartLine>, id: int, change: int)
    requires InCart(cart, id) && cart[LineIndex(cart, id)].quantity + change > 0
    ensures var r := QuantityUpdated(cart, id, change);
      var i := LineIndex(cart, id);
      (forall x :: QuantityOf(r, x) == QuantityOf(cart, x) + (if x == id then change else 0)) &&
      BadgeCount(r) == BadgeCount(cart) + change &&
      Total(r) == Total(cart) + cart[i].product.price * change
  {
    var i := LineIndex(cart, id);
    var line := cart[i].(quantity := cart[i].quantity + change);
    var r := QuantityUpdated(cart, id, change);
    assert r == cart[i := line];
    SumUpdate(cart, i, line, LineQuantity);
    SumUpdate(cart, i, line, LineTotal);
    forall x ensures QuantityOf(r, x) == QuantityOf(cart, x) + (if x == id then change else 0) {
      SumUpdate(cart, i, line, QuantityFor(x));
    }
  }

  /** On a well-formed cart, updating changes the held quantity of `id` by `change`, floored at
      zero by removal, leaves every other product's quantity alone, and moves the badge and the
      total to match. */
  lemma UpdateEffect(cart: seq<CartLine>, id: int, change: int)
    requires WellFormed(cart)
    ensures var r := QuantityUpdated(cart, id, change);
      var q := QuantityOf(cart, id);
      QuantityOf(r, id) == (if !InCart(cart, id) || q + change <= 0 then 0 else q + change)
    ensures var r := QuantityUpdated(cart, id, change);
      forall x :: x != id ==> QuantityOf(r, x) == QuantityOf(cart, x)
    ensures var r := QuantityUpdated(cart, id, change);
      InCart(cart, id) && InCart(r, id) ==>
        BadgeCount(r) == BadgeCount(cart) + change &&
        Total(r) == Total(cart) + cart[LineIndex(cart, id)].product.price * change
  {
    QuantityOfLine(cart, id);
    if InCart(cart, id) {
      if cart[LineIndex(cart, id)].quantity + change <= 0 {
        UpdateDropEffect(cart, id, change);
      } else {
        UpdateEditEffect(cart, id, change);
      }
    }
  }

  /** `updateQuantity(id, -q)`, where `q` is the line's quantity, removes the line. */
  lemma UpdateToZeroRemoves(cart: seq<CartLine>, id: int)
    requires InCart(cart, id)
    ensures !InCart(QuantityUpdated(cart, id, -cart[LineIndex(cart, id)].quantity), id)
  {
  }

  // ---------------------------------------------------------------------------

  /** The worked example: adding product 1 (price 8299) twice to an empty cart, then taking
      two away. */
  lemma WorkedExample(p: Product)
    requires p.id == 1 && p.price == 8299 && p.inStock
    ensures AddedToCart([], [p], 1) == [CartLine(p, 1)]
    ensures Total([CartLine(p, 1)]) == 8299
    ensures AddedToCart([CartLine(p, 1)], [p], 1) == [CartLine(p, 2)]
    ensures Total([CartLine(p, 2)]) == 16598
    ensures QuantityUpdated([CartLine(p, 2)], 1, -2) == []
    ensures Total([]) == 0
  {
    AddTwice([], [p], 1);
    assert [CartLine(p, 1)][1..] == [] && [CartLine(p, 2)][1..] == [];
    assert Total([CartLine(p, 1)]) == LineTotal(CartLine(p, 1)) + Total([]);
    assert Total([CartLine(p, 2)]) == LineTotal(CartLine(p, 2)) + Total([]);
  }
}
