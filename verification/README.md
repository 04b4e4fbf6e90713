# ModernShop storefront core, modelled in Dafny

ModernShop is a client-side storefront demo. A fixed catalog of six
products is shown in a grid. The shopper can add products to a cart,
remove them, change quantities, toggle products on a wishlist, search the
catalog by text and narrow it to a price band.

This project models that logic from `script.js` as pure functions over
immutable values:

- `Catalog` holds the product record, the reference catalog and lookup by id.
- `Cart` is the cart store: add, remove, set quantity and the summary.
- `CartLaws` holds what the cart operations preserve and how the summary moves.
- `Session` covers runs of cart actions applied in order.
- `Wishlist` is the wishlist toggle.
- `Filters` holds the inclusive price filter and the case-insensitive search.
- `Seqs` gives the order-preserving filter and first-match search that the
  source gets from `Array.prototype.filter` and `find`.
- `Wrappers` and `Notifications` hold the `Option` type and the four
  notification kinds.

Prices are integer cents (99.99 is `9999`) and ratings are integer tenths
of a star. A notification is reduced to its kind. It is returned as an
outcome tag (`AddOutcome`, `ToggleOutcome`) beside the new state.

Two invariants are central:

- `Cart.WellFormed`: at most one line per product id, every quantity at
  least 1, and each line carries the catalog's own product record.
- `Cart.Valid`: well-formed, and no quantity exceeds its product's stock.

Adds and removes keep a cart `Valid`. Setting a quantity only keeps it
`WellFormed`, because `updateCartQuantity` has a floor of one and no
stock cap. `CartLaws.UpdateMayExceedStock` shows a concrete case of this.

Three behaviours of `script.js` shape the model:

- The wishlist is an ordered array, and new entries are appended at the
  end (script.js:209).
- `addToCart` gives an unknown id and a zero-stock product the same error
  notification (script.js:140-141).
- `toggleWishlist` drops every entry with the id (script.js:206).

## Model

| member | source | states |
|---|---|---|
| Catalog.ProductsUnique | script.js:6-67 | the reference catalog has six products with ids 1 to 6, pairwise distinct |
| Catalog.FindProduct | script.js:138 | lookup returns a catalog entry with the requested id; it fails exactly when no entry has that id; with unique ids it returns the one matching entry |
| Catalog.GetProductById | script.js:452-454 | over the reference catalog, lookup succeeds exactly for ids 1 to 6 and returns the entry at position id - 1 |
| Cart.LineIndex | script.js:145 | finds the first cart line for the id; nothing is found exactly when no line has that id |
| Cart.AddToCart | script.js:137-164 | an unknown or zero-stock product is rejected with an error kind and the cart unchanged; a new product gets a quantity-1 line appended at the end; an existing line below stock grows by exactly 1 and no other line changes; at the stock ceiling the cart is unchanged and the kind is warning |
| Cart.AddOutcome.Kind | script.js:141-159 | a rejected add notifies an error, an add at the stock ceiling a warning, and an increment or a new line a success; no add outcome is informational |
| Cart.RemoveFromCart | script.js:166-167 | no line with the id remains; the result is an order-preserving subsequence; every other line keeps all of its occurrences; a cart without the id comes back unchanged |
| Cart.UpdateCartQuantity | script.js:173-180 | the first line with the id gets quantity max(1, n), with no stock cap; every other line and every product snapshot is unchanged; the cart is unchanged when no line has the id |
| Cart.TotalItems | script.js:192 | with every quantity at least 1, the item count is at least the number of lines |
| Cart.TotalPrice | script.js:193 | with non-negative quantities, the total price is non-negative |
| Cart.GetCartSummary | script.js:191-195 | an empty cart sums to zero; a cart with positive quantities has at least one item per line and a non-negative total |
| Cart.TotalsAppend | script.js:192-193 | item count and total price of a concatenation are the sums over its parts |
| Cart.TotalsReplace | script.js:192-193 | replacing one line changes the totals by that line's difference only |
| CartLaws.AddPreservesWellFormed | script.js:145-158 | adding keeps lines unique, positive and catalog-backed |
| CartLaws.AddPreservesValid | script.js:145-158 | adding keeps the cart valid: unique ids and 1 <= quantity <= stock |
| CartLaws.RemovePreservesWellFormed | script.js:166-167 | removing keeps lines unique, positive and catalog-backed |
| CartLaws.RemovePreservesValid | script.js:166-167 | removing keeps the cart valid |
| CartLaws.UpdatePreservesWellFormed | script.js:173-176 | setting a quantity keeps lines unique, positive and catalog-backed |
| CartLaws.UpdateWithinStockPreservesValid | script.js:173-176 | setting a quantity no larger than the product's stock keeps the cart valid |
| CartLaws.UpdateMayExceedStock | script.js:176 | Premium Headphones (stock 15) set to 16 leaves a well-formed cart that is no longer valid |
| CartLaws.AddChangesSummary | script.js:145-160 | a successful add raises the item count by 1 and the total by the product's price; a rejected or capped add leaves the summary unchanged |
| CartLaws.RemoveChangesSummary | script.js:166-167 | removing takes exactly the removed line's quantity and value off the summary; removing an absent id leaves it unchanged |
| CartLaws.HeadphonesTwice | script.js:191-195 | adding product 1 twice to an empty cart gives one line of quantity 2, 2 items and 19998 cents |
| Session.RunAddRemoveKeepsValid | script.js:137-171 | any sequence of adds and removes keeps a valid cart valid |
| Session.FromEmptyCartValid | script.js:69 | starting from the empty cart, any sequence of adds and removes yields a valid cart |
| Session.RunKeepsWellFormed | script.js:137-180 | any sequence of adds, removes and quantity updates keeps lines unique, positive and catalog-backed |
| Session.AddUpToStock | script.js:145-158 | adding a stocked product n times, for n up to its stock, gives one line of quantity n |
| Session.StockCeiling | script.js:147-153 | once a line holds the whole stock, one more add is refused with a warning and leaves the cart as it was |
| Wishlist.ToggleWishlist | script.js:201-215 | the id is on the result exactly when it was absent and the catalog knows it; removal drops every entry with the id and keeps the rest in order; otherwise the catalog product is appended at the end |
| Wishlist.ToggleOutcome.Kind | script.js:207-210 | a removal notifies info and an addition a success; the model's unknown-id outcome is an error; no toggle warns |
| Wishlist.ToggleTwiceRestores | script.js:201-211 | for a catalog product absent from the wishlist, toggling twice adds then removes and restores the original wishlist |
| Wishlist.TogglePreservesUniqueIds | script.js:201-211 | toggling keeps at most one entry per product id |
| Wishlist.SmartwatchToggledTwice | script.js:201-211 | toggling product 2 on an empty wishlist gives [product 2]; toggling again gives [] |
| Filters.FilterByPrice | script.js:338-339 | the result is an order-preserving subsequence of the catalog holding exactly the products with min <= price <= max, each with its full multiplicity |
| Filters.Shown | script.js:324-327 | "Under $100", "$100 - $300" and "$300+" show, in catalog order, exactly the products priced 0-10000, 10000-30000 and 30000-100000 cents, both ends included; "All Products" shows the whole catalog |
| Filters.MidBandOfReferenceCatalog | script.js:325 | the $100 - $300 button shows products 2, 4 and 5 in catalog order; 299.99 is inside the inclusive bound |
| Filters.BandsShareBoundary | script.js:324-325 | a product priced exactly 100.00 appears under both "Under $100" and "$100 - $300" |
| Filters.Lower | script.js:297 | lower-casing keeps the length, leaves no ASCII capital, and changes only capitals, each to its small letter |
| Filters.LowerIdempotent | script.js:297 | lower-casing twice is lower-casing once |
| Filters.Includes | script.js:299 | the needle occurs in the string exactly when some position starts a matching slice; the empty needle occurs everywhere |
| Filters.IncludesLower | script.js:299-300 | a substring stays a substring after both strings are lower-cased |
| Filters.SearchProducts | script.js:297-301 | the result is an order-preserving subsequence of the catalog holding exactly the products whose lower-cased name or description contains the lower-cased term |
| Filters.EmptyTermShowsAll | script.js:297-301 | the empty search term shows the whole catalog |
| Filters.SearchIgnoresTermCase | script.js:297 | searching for a term and for its lower-cased form gives the same products |
| Filters.VerbatimNameIsFound | script.js:298-299 | a catalog product whose name contains the term verbatim is always found |

## Left out

- Rendering is not modelled: `renderProducts`, `updateCartDisplay`, the HTML templates, and the low-stock and out-of-stock markers. It is DOM manipulation.
- Persistence is not modelled: `saveCartToStorage`, `loadCartFromStorage`, `loadWishlist` and `saveWishlist`. They are `localStorage` and built-in JSON calls with no format logic of their own. For this reason the cart invariants are proved for carts built from the empty cart, not for carts loaded from storage.
- `showNotification` is reduced to the notification kind. Message texts, styling and the dismissal timers are dropped. The info notification of `removeFromCart` is not returned, since it is the same for every call.
- The contact form, the hamburger menu and the keyboard shortcuts are not modelled. They are UI and event wiring. The Escape shortcut re-renders the full catalog, which is the same as `Filters.EmptyTermShowsAll`.
- `sortProductsByPrice` and `sortProductsByRating` are not modelled. They wrap the built-in `Array.sort` with float comparators and render at once.
- The active-button styling in `filterByPrice` is not modelled. It reads the ambient `event.target`.
- Prices are integer cents and the summary total is in cents. The source sums floating-point numbers and formats them with `toFixed(2)`. Float rounding and the display string are not modelled.
- Wishlist.ToggleWishlist: for an id the catalog does not know, the source appends `undefined` and reports success. The model leaves the wishlist unchanged and reports `UnknownProduct` with an error kind.
- Filters.Lower: lower-cases ASCII capitals only. The source's `toLowerCase` folds all of Unicode, so `Filters.SearchProducts` matches case-insensitively only for ASCII letters.
- Cart.UpdateCartQuantity: the quantity is an integer. The source accepts any number, so a fractional quantity or `NaN` (for which `Math.max(1, NaN)` is `NaN`) is not modelled.
