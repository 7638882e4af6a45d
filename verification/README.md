# ShopPWA storefront core, modelled in Dafny

This project models the cart and catalog-search logic of the `ShopPWA` class in `script.js`, a
browser storefront demo. It covers four things:

- The **catalog**: an ordered list of products. It is hydrated from a cached snapshot and
  replaced wholesale by a fetch when the browser is online.
- The **search filter**: it lower-cases and trims the typed query. For an empty query it shows
  the whole catalog. Otherwise it shows the products whose lower-cased name or description
  includes the query, in catalog order.
- The **cart manager**: add, remove, change a quantity and check out. Two figures are derived
  from the cart: the badge count (sum of quantities) and the total (sum of price times quantity).
- The **connectivity gate**: the online flag. Catalog refresh only happens while it is set.

Files:

- `basics.dfy`: `Option` and order-preserving subsequences.
- `text.dfy`: the JavaScript string built-ins the search uses: `toLowerCase` (ASCII),
  `trim` (the full ECMAScript whitespace set) and `includes`.
- `catalog.dfy`: `Product`, the first-match lookup, query normalisation and the filter.
- `cart.dfy`: cart lines and the three cart edits as pure transitions. It also holds the badge
  and total reductions, a per-product quantity view (`QuantityOf`, the cart seen as a bag) and
  the lemmas that relate them.
- `shop.dfy`: class `ShopPWA`. Its fields (`cart`, `products`, `searchQuery`, `isOnline`) are
  updated in place by methods that follow the source step by step. Each method is proved against
  the pure transition that specifies it, and each states that the catalog is never touched by a
  cart edit. `Shop.WorkedSession` is a client that replays a short session through the class
  using only these contracts: add product 1 twice, take two away, sync while offline, check out
  an empty cart.

The cart restored from storage is arbitrary: no operation requires it to be well-formed. The
invariant "at most one line per product id, every quantity positive" (`Cart.WellFormed`) is
proved to be preserved by every edit.

## Model

| member | source | states |
|---|---|---|
| `Text.ToLower` | script.js:215 | the lower-cased string has the same length and no ASCII capital. Each capital becomes its small letter (code point plus 32); every other character is kept as it is |
| `Text.LowerKeepsBlank` | script.js:215 | lower-casing neither makes nor unmakes a blank string |
| `Text.LowerIdempotent` | script.js:215 | lower-casing an already lower-cased query changes nothing |
| `Text.TrimStart` | script.js:215 | the result is a suffix that starts with a non-space; only whitespace was dropped |
| `Text.TrimEnd` | script.js:215 | the result is a prefix that ends with a non-space; only whitespace was dropped |
| `Text.Trim` | script.js:215 | the result is a contiguous piece of the input, and only whitespace lies before and after it. It has no whitespace at either end, and it is empty exactly when the input is blank |
| `Text.TrimPlacement` | script.js:215 | trimming both ends leaves the piece that starts where the leading whitespace ends, with only whitespace after it |
| `Text.TrimEnds` | script.js:215 | trimming both ends leaves no whitespace at either end, and leaves nothing exactly when the input is blank |
| `Text.OccursContains` | script.js:230-231 | an occurrence of the query at any index makes `includes` hold |
| `Text.ContainsOccurs` | script.js:230-231 | when `includes` holds, it returns an index at which the query occurs |
| `Text.ContainsIff` | script.js:230-231 | `includes` holds exactly when the needle occurs at some index |
| `Text.Contains` | script.js:230-231 | `includes` of the empty needle always holds, and a needle longer than the text never occurs |
| `Text.LowerContainsIff` | script.js:230-231 | the lower-cased text includes the needle exactly when some piece of the raw text lower-cases to the needle |
| `Catalog.ProductIndex` | script.js:280 | `find` by id: the index of the first product with that id, or the length when none has it |
| `Catalog.NormalizeQuery` | script.js:215 | the stored query is a piece of the lower-cased input with only whitespace around it and no whitespace at either end, and it is empty exactly when the typed text is blank |
| `Catalog.NormalizedHasNoCapitals` | script.js:215 | the stored query holds no ASCII capital |
| `Catalog.PieceHasNoCapitals` | script.js:215 | a piece of a string without ASCII capitals has none either |
| `Catalog.Matches` | script.js:229-232 | a product matches exactly when some piece of its name, or of its description, lower-cases to the query |
| `Catalog.FilterByQuery` | script.js:229-232 | the result is an order-preserving subsequence of the catalog, and every kept product matches on name or description. Each matching product is kept as many times as the catalog lists it; a product that does not match is not kept |
| `Catalog.FilteredProducts` | script.js:224-233 | empty query gives the catalog unchanged. Otherwise it gives exactly the matching products, as a subsequence in catalog order, each as many times as the catalog lists it |
| `Catalog.EmptyQueryKeepsAll` | script.js:225-232 | every product matches the empty query, so filtering with it returns the catalog |
| `Catalog.EarlyReturnAgrees` | script.js:224-233 | the early return for an empty query agrees with filtering |
| `Catalog.BlankSearchShowsAll` | script.js:214-227 | a whitespace-only search shows the whole catalog |
| `Catalog.SearchIgnoresQueryCase` | script.js:215 | lower-casing the typed text first gives the same results |
| `Cart.LineIndex` | script.js:283 | `find` by id on the cart: the index of the first line for that product, or the length when none |
| `Cart.WellFormed` | script.js:283-288 | in a cart with one line per id, looking a line's product up by id finds that very line |
| `Cart.SumOfBounds` | script.js:327 | a reduction is never negative when no term is, and is at least one per line when every term is positive |
| `Cart.BadgeCount` | script.js:327 | the badge count of an empty cart is 0 |
| `Cart.BadgeAtLeastLines` | script.js:327 | in a well-formed cart the badge counts at least one per line |
| `Cart.BadgeShown` | script.js:329-334 | for a well-formed cart the badge is shown exactly when the cart has a line |
| `Cart.Total` | script.js:348 | the total of an empty cart is 0 |
| `Cart.TotalNonNegative` | script.js:348 | a well-formed cart whose prices are not negative has a total that is not negative |
| `Cart.Addable` | script.js:280-281 | a product can be added exactly when the first catalog product with that id exists and is in stock |
| `Cart.AddedToCart` | script.js:279-288 | unknown or out-of-stock product: cart unchanged. Product already in the cart: that line's quantity goes up by 1, every other line is unchanged. Otherwise one line with quantity 1 is appended |
| `Cart.WithoutId` | script.js:301 | the result is an order-preserving subsequence with no line for the id. Every line for another id is kept as many times as the cart holds it |
| `Cart.QuantityUpdated` | script.js:307-319 | no line for the id: unchanged. Quantity plus change at or below 0: every line for the id removed. Otherwise only that line's quantity moves, by exactly `change` |
| `Cart.SumAppend` | script.js:348 | a reduction over two concatenated carts is the sum of their reductions |
| `Cart.SumUpdate` | script.js:348 | replacing one line changes a reduction by the difference of that line's terms |
| `Cart.QuantityOfLine` | script.js:283-288 | in a well-formed cart the held quantity of a product is that of its single line, or 0 |
| `Cart.AddPreservesWellFormed` | script.js:283-288 | adding keeps one line per id and positive quantities |
| `Cart.AddEffect` | script.js:279-288 | adding raises the held quantity of exactly that product by 1 and the badge by 1. The total rises by the line's stored price, or by the catalog price for a new line. Refused adds change nothing |
| `Cart.AddToLineEffect` | script.js:283-285 | an accepted add of a product already in the cart raises its quantity and the badge by 1, and the total by the price stored on its line |
| `Cart.AddNewLineEffect` | script.js:286-287 | an accepted add of a product not in the cart raises its quantity and the badge by 1, and the total by the catalog price |
| `Cart.AddTwice` | script.js:283-288 | adding the same product twice to a cart without it yields one new line of quantity 2 |
| `Cart.RemoveAbsent` | script.js:301 | removing an id the cart does not hold is a no-op |
| `Cart.RemoveAfterEdit` | script.js:310-312 | changing the quantity of the line in place before it is removed does not change the removal |
| `Cart.RemovePreservesWellFormed` | script.js:301 | removing keeps one line per id and positive quantities |
| `Cart.RemoveQuantities` | script.js:301 | after removal the cart holds none of that product and the same quantity of every other product |
| `Cart.RemoveSum` | script.js:301 | removing the single line for an id takes exactly that line's term out of a reduction |
| `Cart.RemoveTotals` | script.js:300-305 | in a well-formed cart, removing a product's line lowers the badge by its quantity and the total by its price times quantity |
| `Cart.UpdatePreservesWellFormed` | script.js:307-319 | updating keeps one line per id and all quantities positive; no line is kept at zero or below |
| `Cart.UpdateDropEffect` | script.js:310-312 | a change that takes the line to 0 or below leaves none of the product and every other quantity unchanged |
| `Cart.UpdateEditEffect` | script.js:310-311 | a change that leaves the line positive moves its quantity, the badge and the total (at the stored price) by `change`, and no other quantity |
| `Cart.UpdateEffect` | script.js:307-319 | in a well-formed cart, the held quantity of the product moves by `change`, floored at 0 by removal. Other products are untouched. If the line survives, the badge moves by `change` and the total by price times `change` |
| `Cart.UpdateToZeroRemoves` | script.js:310-312 | changing a line by minus its own quantity removes it |
| `Cart.WorkedExample` | script.js:279-319 | start empty, add product 1 (8299): total 8299. Add it again: quantity 2, total 16598. Change it by -2: empty cart, total 0 |
| `Shop.ShopPWA.constructor` | script.js:2-11 | the cart is the stored one or empty; the query is empty; the flag is the browser's. The catalog is the fetched list when online, otherwise the cached snapshot or empty |
| `Shop.ShopPWA.LoadProducts` | script.js:138-212 | the final catalog: when online, the fetched list, which replaces the catalog wholesale; offline, the cached snapshot, or the old catalog when there is none. Nothing else changes. The body assigns the snapshot first, as the source does; the contract states only the final state |
| `Shop.ShopPWA.SyncData` | script.js:429-438 | offline: the catalog is not touched and the sync reports failure. Online: the catalog becomes the fetched list |
| `Shop.ShopPWA.GoOnline` | script.js:99-104 | the flag is set and the catalog becomes the fetched list |
| `Shop.ShopPWA.GoOffline` | script.js:106-109 | only the flag changes |
| `Shop.ShopPWA.HandleSearch` | script.js:214-222 | the stored query is the lower-cased, trimmed input. After blank input the whole catalog is shown |
| `Shop.ShopPWA.ClearSearch` | script.js:272-277 | the query is emptied and the whole catalog is shown |
| `Shop.ShopPWA.GetFilteredProducts` | script.js:224-233 | the catalog for an empty query. Otherwise exactly the matching products, as a subsequence in catalog order, each as many times as the catalog lists it |
| `Shop.ShopPWA.AddToCart` | script.js:279-298 | the cart becomes `AddedToCart` of the old cart. Well-formedness is preserved. Catalog, query and flag are unchanged |
| `Shop.ShopPWA.RemoveFromCart` | script.js:300-305 | the cart becomes `WithoutId` of the old cart. Well-formedness is preserved. Nothing else changes |
| `Shop.ShopPWA.UpdateQuantity` | script.js:307-319 | edits the first line in place, then removes the product when the quantity reached 0 or below. The result is `QuantityUpdated` of the old cart, well-formedness is preserved, and nothing else changes |
| `Shop.ShopPWA.Checkout` | script.js:382-400 | an empty cart is left as it is and no order is placed. Otherwise the cart ends empty, with total 0 and the badge hidden |

## Left out

- The service worker registration (script.js:15-27) and the service worker source (script.js:48-95): browser cache and fetch APIs, not logic.
- All DOM rendering: the product grid, the cart list, the connection banner, and `toLocaleString('en-IN')` price formatting. The badge count, its visibility and the total are modelled as the pure functions `Cart.BadgeCount`, `Cart.BadgeShown` and `Cart.Total`. The two search inputs echoing the raw text are left out.
- `localStorage` persistence (`saveCart`, the catalog snapshot write at script.js:204). The stored cart and the cached catalog are parameters. JSON parsing of malformed stored data is not modelled: a stored cart is any sequence of lines.
- Timers and async delays in `loadProducts`, `checkout` and `syncData`. Only the resulting state change is modelled, as if each delay completed before the next event. The re-entrancy races they allow are not modelled; for example, a product added during the checkout delay is discarded by the clear.
- The sample product list that the simulated fetch assigns (script.js:152-201) is a parameter, `fetched`. Nothing in the `try` block can fail before that assignment, so the `catch` branch (script.js:207-210) only reports an error after the catalog has been replaced; it changes no modelled state.
- Toasts, vibration, notifications and the permission flow, and the install prompt: platform calls with no effect on the modelled state.
- Text.ToLower: only the ASCII case mapping is modelled; JavaScript's full Unicode mapping (including length-changing mappings) is not.
- JavaScript numbers are doubles. Prices, quantities and totals are modelled as unbounded integers, so rounding beyond 2^53 is not modelled.
- The unused `filteredProducts` field, and `deferredPrompt`, which only the install prompt uses.
