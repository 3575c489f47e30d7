# Shop storefront and admin console: a Dafny model

This project models the core of a React storefront with an admin console,
which uses a hosted database as its store.

The storefront has four parts:

- **Catalog view.** Search, a category filter and a choice of sort order
  over the product list, plus the category menu.
- **In-memory cart.** Add, change quantity, remove, count the units.
- **Cart drawer.** Shows the in-memory cart and drives it.
- **Offers carousel.** Moves between the current offers.

The product page has a quantity selector. Its "add to cart" button merges
into a second cart, kept in the browser's local storage. The checkout page
reads that stored cart, validates the delivery form, builds the order
record, sends it, and clears the stored cart once the store accepts the
order.

The admin console manages four things:

- **Orders.** A search, status tabs, and a small status lifecycle.
- **Products.** Create, update, delete.
- **Offers.** Create, update, delete.
- **Advanced settings.** Export and import of the stored catalog as an
  `.xshop` JSON document, and a password change kept in local storage.

Layout:

- **Pure parts** are datatypes, functions and lemmas. They cover the cart
  rules, the catalog query, the sort, the cart's JSON form, the order
  lifecycle, and the export/import and password checks.
- **Stateful components** are classes. Their fields are the component's
  state, and their methods update those fields and local storage. Each
  method's `ensures` ties the new state to the pure functions, and the
  properties are proved about those functions.
- **Store calls** are parameters that carry the store's answer:
  - `Response<T>` is a returned row or an error;
  - `Ack` is done or failed.
- **Clock, fresh ids, `parseFloat` and `parseInt`** are parameters too.

Modules: `Outcomes`, `Strings`, `Lists`, `Storage`, `Products`, `Sorting`,
`Catalog`, `CartLines`, `CartStorage`, `ProductDetails`, `Storefront`,
`CartDrawer`, `Orders`, `Checkout`, `AdminProducts`, `AdminOffers`,
`AdvancedSettings`, `Carousel`.

## Model

| member | source | states |
|---|---|---|
| Strings.Lower | src/pages/Index.tsx:135-137 | `toLowerCase` on ASCII: same length, each character lowered one by one |
| Strings.LowerIdempotent | src/pages/Index.tsx:135-137 | lowering twice is lowering once |
| Strings.StrLessTotal | src/pages/Index.tsx:158 | the string order used for 'newest' relates any two different ids one way |
| Strings.IntToStringInjective | src/components/OffersManagement.tsx:142 | different integers have different decimal texts |
| Storage.LocalStorage.GetItem | src/pages/Checkout.tsx:38 | a value exactly when the key is stored, and that value |
| Storage.LocalStorage.SetItem | src/pages/ProductDetails.tsx:80 | the key maps to the new value; every other key is unchanged |
| Storage.LocalStorage.RemoveItem | src/pages/Checkout.tsx:98 | the key is gone; every other key is unchanged |
| Sorting.ParseSortOrder | src/pages/Index.tsx:147-163 | 'featured' behaviour exactly for keys other than the four named ones |
| Sorting.PrecedesIsStrictWeakOrder | src/pages/Index.tsx:148-159 | each of the four comparators is irreflexive, asymmetric and transitive in its incomparability |
| Sorting.SameRankTransitive | src/pages/Index.tsx:148-159 | ties under a comparator are transitive |
| Sorting.Sort | src/pages/Index.tsx:147-163 | the result is a permutation of the input |
| Sorting.SortOrdered | src/pages/Index.tsx:147-163 | no element of the result comes strictly before an earlier one |
| Sorting.SortStable | src/pages/Index.tsx:147-163 | every group of tied products keeps its input order |
| Sorting.SortFeaturedIsIdentity | src/pages/Index.tsx:160-162 | 'featured' keeps the input order |
| Sorting.OrderedStableUnique | src/pages/Index.tsx:147-163 | two ordered, stable permutations of the same sequence are equal |
| Sorting.SortIsTheStableSort | src/pages/Index.tsx:147-163 | any ordered, stable permutation the engine's sort produces equals `Sort` |
| Catalog.FilterStepsAreSelection | src/pages/Index.tsx:130-144 | the search and category steps filter exactly by "query matches (or is empty) and category matches (or is 'all')" |
| Catalog.FilterStepsSelect | src/pages/Index.tsx:129-166 | with 'featured' the view is the selection in catalog order |
| Catalog.ViewSpec | src/pages/Index.tsx:129-166 | the view is a permutation of the selection, comparator-ordered and stable; with 'featured' it is the selection |
| Catalog.ViewMembership | src/pages/Index.tsx:129-166 | a product is in the view iff it is in the catalog and selected |
| Catalog.ViewKeyOrder | src/pages/Index.tsx:147-159 | for each of the four sort keys, any two products of the view are in that key's order |
| Catalog.DefaultViewIsCatalog | src/pages/Index.tsx:123-124 | empty query, 'all' and 'featured' show the whole catalog unchanged |
| Catalog.EmptyQueryMatches | src/pages/Index.tsx:133-139 | an empty query matches every product |
| Catalog.QueryCaseInsensitive | src/pages/Index.tsx:135-137 | the search ignores the case of the query |
| Catalog.DistinctSpec | src/pages/Index.tsx:169 | `new Set` keeps each label once, in order of first appearance, and no others |
| Catalog.Categories | src/pages/Index.tsx:169 | the menu starts with 'all' |
| Catalog.CategoriesSpec | src/pages/Index.tsx:169 | after 'all', each product category appears exactly once, in order of first appearance |
| CartLines.Snapshot | src/pages/Index.tsx:181-187 | the new line copies id, title, price and image, with the given quantity |
| CartLines.FindLine | src/pages/Index.tsx:173 | the first index with the id; none iff no line has it |
| CartLines.AddOneExisting | src/pages/Index.tsx:174-179 | adding a product already in the cart raises that line by one; the length and other lines stay |
| CartLines.AddOneNew | src/pages/Index.tsx:180-188 | adding a new product appends one line of quantity 1 |
| CartLines.SetQuantityPositive | src/pages/Index.tsx:203-207 | a non-zero quantity replaces that line's quantity; nothing else changes |
| CartLines.SetQuantityZero | src/pages/Index.tsx:198-201 | quantity 0 removes the line |
| CartLines.SetQuantityUnknown | src/pages/Index.tsx:203-207 | an id not in the cart changes nothing |
| CartLines.RemoveLineSpec | src/pages/Index.tsx:210-211 | removing keeps, in order, exactly the lines with another id |
| CartLines.AddOneWellFormed | src/pages/Index.tsx:171-189 | ids stay distinct and quantities positive |
| CartLines.RemoveLineWellFormed | src/pages/Index.tsx:210-211 | removing keeps the cart well formed |
| CartLines.SetQuantityWellFormed | src/pages/Index.tsx:197-208 | a non-negative quantity keeps the cart well formed |
| CartLines.ReplayWellFormed | src/pages/Index.tsx:171-216 | from any well-formed cart (the empty one included), any run of add/update/remove with non-negative updates leaves one line per product with a positive quantity |
| CartLines.ItemCountAppend | src/pages/Index.tsx:230 | the count and total of an appended line add up |
| CartLines.AddOneSums | src/pages/Index.tsx:171-189 | adding raises the unit count by one and the total by one unit price |
| CartLines.SetQuantitySums | src/pages/Index.tsx:197-208 | the count and total move from the old line's quantity and amount to the new ones |
| CartLines.ItemCountBounds | src/pages/Index.tsx:230 | in a well-formed cart the unit count is at least the number of lines, and zero iff the cart is empty |
| CartStorage.DecodeLine | src/pages/Checkout.tsx:38 | a decoded line comes from an object carrying the five fields |
| CartStorage.DecodeLines | src/pages/Checkout.tsx:38 | an array decodes iff every element does, to as many lines |
| CartStorage.ReadCart | src/pages/ProductDetails.tsx:65 | a missing key reads as the empty cart |
| CartStorage.DecodeEncodeLines | src/pages/ProductDetails.tsx:80 | decoding the encoded lines gives the lines back |
| CartStorage.CartRoundTrip | src/pages/Checkout.tsx:38 | the cart written by the product page reads back unchanged |
| ProductDetails.MergeInto | src/pages/ProductDetails.tsx:66-78 | the search loop and update/push compute `Merge` |
| ProductDetails.MergeExisting | src/pages/ProductDetails.tsx:68-69 | a stored line of the product grows by the chosen quantity; others stay |
| ProductDetails.MergeNew | src/pages/ProductDetails.tsx:70-77 | otherwise one line with the chosen quantity is appended |
| ProductDetails.MergeWellFormed | src/pages/ProductDetails.tsx:62-87 | ids stay distinct; with quantity at least 1 the cart stays well formed |
| ProductDetails.MergeOneIsAddOne | src/pages/ProductDetails.tsx:62-87 | adding one unit here is exactly the storefront's `addToCart` |
| ProductDetails.MergeTwice | src/pages/ProductDetails.tsx:62-87 | adding a then b units equals adding a+b units |
| ProductDetails.MergeItemCount | src/pages/ProductDetails.tsx:62-87 | the stored cart gains exactly the chosen number of units |
| ProductDetails.SelectorMinus | src/pages/ProductDetails.tsx:195 | never below 1; one less when above 1 |
| ProductDetails.SelectorPlus | src/pages/ProductDetails.tsx:203 | never above stock; one more when below stock |
| ProductDetails.ClicksStayInRange | src/pages/ProductDetails.tsx:188-206 | from a quantity in [1, stock], any run of clicks stays in [1, stock] |
| ProductDetails.ProductDetailsPage.Decrement | src/pages/ProductDetails.tsx:195 | the quantity becomes the minus value and stays in range |
| ProductDetails.ProductDetailsPage.Increment | src/pages/ProductDetails.tsx:203 | the quantity becomes the plus value and stays in range |
| ProductDetails.ProductDetailsPage.AddToCart | src/pages/ProductDetails.tsx:62-87 | writes iff a product is shown and the stored cart reads; then the `cart` key holds the merged cart and nothing else changes |
| Storefront.StorefrontPage.constructor | src/pages/Index.tsx:123-124 | the view starts as the whole catalog, with an empty cart |
| Storefront.StorefrontPage.ApplyFilters | src/pages/Index.tsx:129-166 | the view becomes `Catalog.View` of the current inputs; nothing else changes |
| Storefront.StorefrontPage.SetSearchQuery | src/pages/Index.tsx:166 | a new query re-runs the filter effect, so the view stays in step |
| Storefront.StorefrontPage.SetSelectedCategory | src/pages/Index.tsx:166 | likewise for the category |
| Storefront.StorefrontPage.SetSortBy | src/pages/Index.tsx:166 | likewise for the sort key |
| Storefront.StorefrontPage.Categories | src/pages/Index.tsx:169 | the menu starts with 'all' |
| Storefront.StorefrontPage.CartItemsCount | src/pages/Index.tsx:230 | at least the number of lines; zero iff the cart is empty |
| Storefront.StorefrontPage.AddToCart | src/pages/Index.tsx:171-195 | the cart becomes `AddOne`, stays well formed, and the badge count goes up by one |
| Storefront.StorefrontPage.UpdateCartQuantity | src/pages/Index.tsx:197-208 | the cart becomes `SetQuantity` and stays well formed |
| Storefront.StorefrontPage.RemoveFromCart | src/pages/Index.tsx:210-216 | the cart loses exactly that product's line |
| CartDrawer.MinusRequest | src/components/CartDrawer.tsx:75 | never negative; one less for a positive quantity, so 0 exactly from 1 |
| CartDrawer.PlusRequest | src/components/CartDrawer.tsx:84 | exactly one more than the line's quantity |
| CartDrawer.HeaderCountsProducts | src/components/CartDrawer.tsx:40 | the header shows the number of distinct products, not units |
| CartDrawer.CheckoutDisabledWhenNoUnits | src/components/CartDrawer.tsx:116 | checkout is disabled exactly when the cart holds no units |
| CartDrawer.MinusOnLine | src/components/CartDrawer.tsx:75 | minus on a line of 1 removes it, otherwise lowers it by one; count -1, total minus one unit price |
| CartDrawer.RemoveOneLine | src/components/CartDrawer.tsx:94 | the bin removes exactly one line |
| CartDrawer.PlusOnLine | src/components/CartDrawer.tsx:84 | plus raises that line by one; count +1, total plus one unit price |
| CartDrawer.BinOnLine | src/components/CartDrawer.tsx:94 | the bin drops the line's units and amount from the count and total |
| Orders.FilterOrdersSpec | src/components/OrdersManagement.tsx:68-80 | the search keeps, in order, exactly the matching orders; an empty query keeps all |
| Orders.ByStatusSpec | src/components/OrdersManagement.tsx:123-125 | a tab lists exactly the searched orders of its status; no order is on two tabs |
| Orders.TabCountsAddUp | src/components/OrdersManagement.tsx:309-351 | with known statuses, the four tab counts add up to the searched orders |
| Orders.OfferedActions | src/components/OrdersManagement.tsx:155-209 | only 'requested' and 'shipping' orders show buttons |
| Orders.Target | src/components/OrdersManagement.tsx:159-204 | every button requests a known status other than 'requested' |
| Orders.OfferedAreTheTransitions | src/components/OrdersManagement.tsx:155-209 | the buttons offer exactly the lifecycle's transitions |
| Orders.ClicksMoveForward | src/components/OrdersManagement.tsx:155-209 | clicks keep the status known and never move it back; delivered and cancelled are final; a shipped order is never cancelled |
| Orders.SetStatusSpec | src/components/OrdersManagement.tsx:94-98 | only orders with that id change, and only in their status |
| Orders.SetStatusIdempotent | src/components/OrdersManagement.tsx:94-98 | the same update twice is the update once; an unknown id changes nothing |
| Orders.Patch | src/components/OrdersManagement.tsx:86-89 | the patch carries the status, and `cancel_reason` iff a non-empty reason is given |
| Orders.OrdersBoard.OrdersByStatus | src/components/OrdersManagement.tsx:123-125 | every listed order has that status and is in the searched list |
| Orders.OrdersBoard.SetSearchQuery | src/components/OrdersManagement.tsx:42-44 | a new query re-runs the search |
| Orders.OrdersBoard.UpdateOrderStatus | src/components/OrdersManagement.tsx:82-111 | the patch is sent; on success the list is `SetStatus`, on failure unchanged; the search stays in step |
| Orders.OrdersBoard.ConfirmCancel | src/components/OrdersManagement.tsx:188-191 | requests 'cancelled' with the typed reason and clears the reason box |
| Checkout.Validate | src/pages/Checkout.tsx:52-68 | missing name, phone or address first, then an empty cart; no rejection iff both checks pass |
| Checkout.CityNotChecked | src/pages/Checkout.tsx:52 | the city plays no part in validation |
| Checkout.NewOrder | src/pages/Checkout.tsx:72-83 | the order carries the form, the cart and the 'requested' status |
| Checkout.NewOrderSpec | src/pages/Checkout.tsx:72-83 | id "ORDER-" plus the time; subtotal is the cart total, shipping 50, total their sum; dispatch and cancel are offered |
| Checkout.NewOrderIdsDiffer | src/pages/Checkout.tsx:73 | orders placed at different times have different ids |
| Checkout.NonNegativeSubtotal | src/pages/Checkout.tsx:42 | non-negative prices and quantities give a non-negative total |
| Checkout.CheckoutPage.constructor | src/pages/Checkout.tsx:36-40 | the cart is the stored cart (empty when missing) |
| Checkout.CheckoutPage.TotalAmount | src/pages/Checkout.tsx:42 | non-negative for non-negative prices and quantities |
| Checkout.CheckoutPage.SubmitOrder | src/pages/Checkout.tsx:51-116 | a rejection sends nothing and keeps storage; the stored cart is removed only when the store accepts the order |
| AdminProducts.InsertRow | src/pages/Admin.tsx:133-144 | the row sent: the form's fields, the parsed price, the parsed stock or 0, rating 4.5 from 0 votes |
| AdminProducts.AcceptedPrice | src/pages/Admin.tsx:122 | a form that passes has title, description and price text, and no parsed price at or below 0 |
| AdminProducts.NonNumericPriceAccepted | src/pages/Admin.tsx:122 | a price text that does not parse passes the guard |
| AdminProducts.ReplaceByIdSpec | src/pages/Admin.tsx:186 | exactly the products with that id become the returned row |
| AdminProducts.DeleteByIdSpec | src/pages/Admin.tsx:211 | exactly the products with that id go; the rest keep their order |
| AdminProducts.AdminConsole.SaveProduct | src/pages/Admin.tsx:121-171 | a refused form sends nothing; on success the returned row goes first and the form clears; on error nothing changes |
| AdminProducts.AdminConsole.UpdateProduct | src/pages/Admin.tsx:173-200 | nothing without an edited product; on success the list is replaced by id and the dialog closes |
| AdminProducts.AdminConsole.DeleteProduct | src/pages/Admin.tsx:202-224 | on success the products with that id are removed; on failure nothing changes |
| AdminOffers.OfferInsertRow | src/components/OffersManagement.tsx:74-80 | title and description as typed; an empty image becomes null |
| AdminOffers.ReplaceOfferSpec | src/components/OffersManagement.tsx:115-117 | exactly the offers with that id become the returned row |
| AdminOffers.DeleteOfferById | src/components/OffersManagement.tsx:142 | filtering by the id's text removes exactly the offers with that id |
| AdminOffers.OffersAdmin.SaveOffer | src/components/OffersManagement.tsx:63-100 | a form without title or description sends nothing; on success the returned row goes first and the form clears |
| AdminOffers.OffersAdmin.UpdateOffer | src/components/OffersManagement.tsx:102-131 | nothing without an edited offer; on success replaced by id and the dialog closes |
| AdminOffers.OffersAdmin.DeleteOffer | src/components/OffersManagement.tsx:133-155 | on success the offers whose id reads as the text are removed |
| AdvancedSettings.DatePart | src/components/AdvancedSettings.tsx:29 | the prefix before the first 'T', without any 'T' |
| AdvancedSettings.ExportFileName | src/components/AdvancedSettings.tsx:29 | the export name ends in ".xshop" |
| AdvancedSettings.StoredOrEmpty | src/components/AdvancedSettings.tsx:16-17 | a missing key exports as an empty array |
| AdvancedSettings.Envelope | src/components/AdvancedSettings.tsx:19-24 | the document has exactly products, offers, exportDate and version "1.0" |
| AdvancedSettings.ApplyImport | src/components/AdvancedSettings.tsx:66-69 | products replaced; offers replaced only when truthy; no other key changes |
| AdvancedSettings.ImportResult | src/components/AdvancedSettings.tsx:42-84 | no file, then the extension, then the shape are checked in that order |
| AdvancedSettings.ExportImportRoundTrip | src/components/AdvancedSettings.tsx:14-84 | importing an export is accepted and restores the stored products and offers |
| AdvancedSettings.CheckPassword | src/components/AdvancedSettings.tsx:86-103 | weak iff shorter than 6; mismatch iff long enough but different; changed otherwise |
| AdvancedSettings.SettingsPanel.ExportData | src/components/AdvancedSettings.tsx:14-40 | the document and file name of the export |
| AdvancedSettings.SettingsPanel.HandleImport | src/components/AdvancedSettings.tsx:42-84 | only an accepted import changes storage, as `ApplyImport` |
| AdvancedSettings.SettingsPanel.ChangePassword | src/components/AdvancedSettings.tsx:86-114 | on success the password is stored and both fields clear; otherwise nothing changes |
| Carousel.JsRem | src/components/OffersCarousel.tsx:23 | JavaScript's remainder agrees with the mathematical one on non-negative operands |
| Carousel.MovesStayInRange | src/components/OffersCarousel.tsx:31-37 | from any non-negative index, next and previous land on a slide |
| Carousel.NextPrevInverse | src/components/OffersCarousel.tsx:31-37 | next then previous, and previous then next, return to the same slide |
| Carousel.AfterTicksAdvances | src/components/OffersCarousel.tsx:22-24 | k ticks within a round advance by k places, wrapping past the last offer |
| Carousel.FullRoundReturns | src/components/OffersCarousel.tsx:22-24 | one tick per offer returns to the starting slide |
| Carousel.OffersCarousel.NextSlide | src/components/OffersCarousel.tsx:31-33 | the slide becomes `(i + 1) % n` and is on screen |
| Carousel.OffersCarousel.PrevSlide | src/components/OffersCarousel.tsx:35-37 | the slide becomes `(i - 1 + n) % n` and is on screen |
| Carousel.OffersCarousel.Tick | src/components/OffersCarousel.tsx:19-27 | the timer, started only with offers, moves to the next slide |
| Carousel.OffersCarousel.SelectDot | src/components/OffersCarousel.tsx:89 | a dot shows its own offer |
| Carousel.OffersCarousel.SetCount | src/components/OffersCarousel.tsx:16-17 | a new offers list keeps the index as it is |

## Left out

- Store calls are not modelled. Every select, insert, update and delete is an outcome parameter, which is either the row returned or an error.
- The fetches that load products, offers and orders are constructors that take the loaded list.
- Toasts, navigation, loading spinners and the page layout are not modelled.
- Reviews are not modelled.
- The theme settings and the admin password gate on the admin page are not part of this model.
- JSON text is not modelled. `JSON.parse`, `JSON.stringify`, the data-URI download and the `FileReader` callback are replaced by a JSON value type. An import receives the file name and the parsed document, which is `None` when the text is not JSON.
- Numbers are exact reals and integers, not IEEE doubles, so rounding in prices and totals is not modelled. `parseFloat` and `parseInt` are parameters, with `None` standing for NaN.
- Lowercasing and `includes` cover ASCII letters only. Lengths count characters, not UTF-16 code units.
- `localeCompare` for 'newest' is the ordinal string order. The locale's collation is not modelled.
- Sorting.Sort: `Array.prototype.sort` is modelled by a stable insertion sort. `SortIsTheStableSort` shows that any stable sort gives the same result, but the engine's algorithm and its in-place update are not modelled.
- The dates and the timestamp are string parameters. These are `Date.now()`, `toISOString()` and the order's `created_at`. The order sent to the store omits `created_at` and the model carries it only in the record.
- ProductDetails.ProductDetailsPage.AddToCart writes nothing when the stored `cart` value is not an array of well-formed lines. The source behaves differently in two ways. It throws for a value that is not an array, or an array holding `null`. For an array whose elements are malformed (a number, a line without some field, a quantity stored as text), it still finds or pushes and writes a merged array back. For example, a text quantity `"2"` becomes `"22"`. The model does not capture what is written back for such malformed arrays.
- Checkout.CheckoutPage.constructor requires the stored cart to decode. The only writer of that key is the product page, and it keeps the key decodable.
- Storefront.StorefrontPage.UpdateCartQuantity requires a quantity of at least 0. These are the only values the cart drawer sends. A negative quantity is not modelled.
- React batching and effect timing are not modelled. State updates happen at once, and the filter effects run inside the setters. The order board's update maps the `orders` list it closed over, which is modelled as the current list.
- The order board's in-memory update copies only the new status, as the source does. The `cancel_reason` sent to the store is not copied into the held order.
- On the store side, offer deletion matches `parseInt(offerId)`. Only the held list's text comparison is modelled.
- The edit dialogs' per-field parsing of price and stock is not modelled. `SetEditing` receives the edited product.
- The admin password is stored as a JSON string value. The source stores the raw text.
- The carousel's slide animation and the 4000 ms interval are not modelled. A tick is a method call.
