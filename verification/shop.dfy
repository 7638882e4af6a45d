/** The shop's long-lived state and the operations the page triggers on it. */
module Shop {
  import opened Wrappers
  import opened Seqs
  import opened Catalog
  import opened Cart

  /** The storefront: the cart, the catalog, the stored search query and the connectivity flag,
      all updated in place by the page's event handlers. */
  class ShopPWA {
    var cart: seq<CartLine>
    var products: seq<Product>
    var searchQuery: string
    var isOnline: bool

    /** Start-up: the cart restored from storage (or empty when nothing was stored), an empty
        catalog and query, the browser's connectivity, then the first catalog load. */
    constructor (storedCart: Option<seq<CartLine>>, online: bool,
                 cached: Option<seq<Product>>, fetched: seq<Product>)
      ensures cart == (if storedCart.Some? then storedCart.value else [])
      ensures searchQuery == [] && isOnline == online
      ensures products == (if online then fetched
                           else if cached.Some? then cached.value
                           else [])
    {
      cart := if storedCart.Some? then storedCart.value else [];
      products := [];
      searchQuery := [];
      isOnline := online;
      new;
      LoadProducts(cached, fetched);
    }

    /** Shows the cached catalog snapshot if there is one, then, when online, replaces the
        catalog wholesale with the fetched list. The fetch cannot fail once it has produced the
        list: the error branch only reports, after the catalog has already been replaced. */
    method LoadProducts(cached: Option<seq<Product>>, fetched: seq<Product>)
      modifies this
      ensures isOnline ==> products == fetched
      ensures !isOnline ==> products == (if cached.Some? then cached.value else old(products))
      ensures cart == old(cart) && searchQuery == old(searchQuery) && isOnline == old(isOnline)
    {
      if cached.Some? {
        products := cached.value;
      }
      if isOnline {
        products := fetched;
      }
    }

    /** A manual or reconnect-triggered sync: refused while offline, where nothing changes;
        otherwise a catalog load. */
    method SyncData(cached: Option<seq<Product>>, fetched: seq<Product>) returns (synced: bool)
      modifies this
      ensures synced == isOnline && isOnline == old(isOnline)
      ensures !synced ==> products == old(products)
      ensures synced ==> products == fetched
      ensures cart == old(cart) && searchQuery == old(searchQuery)
    {
      if !isOnline {
        synced := false;
        return;
      }
      LoadProducts(cached, fetched);
      synced := true;
    }

    /** The browser reports the connection back: go online and sync. */
    method GoOnline(cached: Option<seq<Product>>, fetched: seq<Product>)
      modifies this
      ensures isOnline
      ensures products == fetched
      ensures cart == old(cart) && searchQuery == old(searchQuery)
    {
      isOnline := true;
      var _ := SyncData(cached, fetched);
    }

    /** The browser reports the connection lost: only the flag changes. */
    method GoOffline()
      modifies this
      ensures !isOnline
      ensures cart == old(cart) && products == old(products) && searchQuery == old(searchQuery)
    {
      isOnline := false;
    }

    /** Stores the typed query, lower-cased and trimmed. */
    method HandleSearch(query: string)
      modifies this
      ensures searchQuery == NormalizeQuery(query)
      ensures Text.IsBlank(query) ==> GetFilteredProducts() == products
      ensures cart == old(cart) && products == old(products) && isOnline == old(isOnline)
    {
      searchQuery := NormalizeQuery(query);
      if Text.IsBlank(query) {
        assert searchQuery == [];
      }
    }

    /** Empties the stored query, so the whole catalog is shown again. */
    method ClearSearch()
      modifies this
      ensures searchQuery == [] && GetFilteredProducts() == products
      ensures cart == old(cart) && products == old(products) && isOnline == old(isOnline)
    {
      searchQuery := [];
    }

    /** The products the grid shows for the stored query: all of them for an empty query,
        otherwise exactly the matching ones, in catalog order. */
    function GetFilteredProducts(): (r: seq<Product>)
      reads this
      ensures searchQuery == [] ==> r == products
      ensures IsSubsequence(r, products)
      ensures forall p :: p in r <==> p in products && Matches(p, searchQuery)
      ensures forall x {:trigger multiset(r)[x]} :: multiset(r)[x] == if Matches(x, searchQuery) then multiset(products)[x] else 0
    {
      FilteredProducts(products, searchQuery)
    }

    /** Adds one of product `productId`: ignored when the catalog does not list it or it is out
        of stock; otherwise its line's quantity goes up by one, or a new line with quantity 1 is
        appended. The catalog is never touched. */
    method AddToCart(productId: int)
      modifies this
      ensures cart == AddedToCart(old(cart), products, productId)
      ensures WellFormed(old(cart)) ==> WellFormed(cart)
      ensures products == old(products) && searchQuery == old(searchQuery) && isOnline == old(isOnline)
    {
      if WellFormed(cart) {
        AddPreservesWellFormed(cart, products, productId);
      }
      var k := ProductIndex(products, productId);
      if k == |products| || !products[k].inStock {
        return;
      }
      var product := products[k];
      var i := LineIndex(cart, productId);
      if i < |cart| {
        cart := cart[i := cart[i].(quantity := cart[i].quantity + 1)];
      } else {
        cart := cart + [CartLine(product, 1)];
      }
    }

    /** Drops every line for `productId`, keeping the others in order. */
    method RemoveFromCart(productId: int)
      modifies this
      ensures cart == WithoutId(old(cart), productId)
      ensures WellFormed(old(cart)) ==> WellFormed(cart)
      ensures products == old(products) && searchQuery == old(searchQuery) && isOnline == old(isOnline)
    {
      if WellFormed(cart) {
        RemovePreservesWellFormed(cart, productId);
      }
      cart := WithoutId(cart, productId);
    }

    /** Adds `change` to the quantity of the first line for `productId`; when the result is zero
        or below, the product is removed from the cart instead. */
    method UpdateQuantity(productId: int, change: int)
      modifies this
      ensures cart == QuantityUpdated(old(cart), productId, change)
      ensures WellFormed(old(cart)) ==> WellFormed(cart)
      ensures products == old(products) && searchQuery == old(searchQuery) && isOnline == old(isOnline)
    {
      var i := LineIndex(cart, productId);
      if i < |cart| {
        if WellFormed(cart) {
          UpdatePreservesWellFormed(cart, productId, change);
        }
        ghost var before := cart;
        var quantity := cart[i].quantity + change;
        var edited := cart[i].(quantity := quantity);
        RemoveAfterEdit(cart, productId, i, edited);
        cart := cart[i := edited];
        if quantity <= 0 {
          assert WithoutId(cart, productId) == QuantityUpdated(before, productId, change);
          RemoveFromCart(productId);
        } else {
          assert cart == QuantityUpdated(before, productId, change);
        }
      }
    }

    /** Places the order: nothing happens on an empty cart; otherwise the cart is emptied. */
    method Checkout() returns (placed: bool)
      modifies this
      ensures placed == (old(cart) != [])
      ensures cart == [] && Total(cart) == 0 && !BadgeShown(cart)
      ensures products == old(products) && searchQuery == old(searchQuery) && isOnline == old(isOnline)
    {
      if |cart| == 0 {
        placed := false;
        return;
      }
      cart := [];
      placed := true;
    }
  }

  /** A client of the class: the worked example of adding product 1 twice and taking two away,
      followed by an offline sync that leaves the catalog alone, proved from the contracts alone. */
  method WorkedSession(p: Product, other: seq<Product>)
    requires p.id == 1 && p.price == 8299 && p.inStock
  {
    var shop := new ShopPWA(None, true, None, [p]);
    assert shop.products == [p] && shop.cart == [];
    WorkedExample(p);
    shop.AddToCart(1);
    assert shop.cart == [CartLine(p, 1)] && Total(shop.cart) == 8299;
    shop.AddToCart(1);
    assert shop.cart == [CartLine(p, 2)] && Total(shop.cart) == 16598;
    shop.UpdateQuantity(1, -2);
    assert shop.cart == [] && Total(shop.cart) == 0;
    shop.GoOffline();
    var synced := shop.SyncData(None, other);
    assert !synced && shop.products == [p];
    var placed := shop.Checkout();
    assert !placed;
  }
}
