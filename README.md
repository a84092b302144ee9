# The Twelfth Man storefront: cart store and page rules

This project models the business logic of a football-gear storefront written in
TypeScript/React:

- the shopping-cart store, which holds the cart lines, counts the units and merges an
  added product into an existing line;
- the "new drops" page, which picks the size family a product is sold in, handles the
  quick-add and size-picker flows, filters by category and groups products by subcategory;
- the cart and checkout pages, which compute the shipping rule, totals and line subtotals,
  run the image carousel, build the order header and detail rows, and order the steps of
  order submission;
- the administrator's screens, which filter and delete products, update and search
  orders, fill the add-product form, keep two parallel image lists aligned and choose
  default size variants;
- the customer's order history, with its sign-in check and status badges;
- the home page's category links.

Each source file is one Dafny module. A few helper modules hold the JavaScript built-ins
the pages rely on:

- `Strings`: `toLowerCase` on ASCII, `includes` and the decimal `toString`.
- `Seqs`: `filter`, subsequences and a bounded prefix.
- `JsNumber`: the truncating `%`.

Two more modules hold rules that two pages share. `Pricing` has the shipping rule, used by
the cart and checkout pages. `OrderStatus` has the status colours, used by the admin and
account order pages.

Money is an exact `real`, so no floating-point rounding is modelled. Database calls,
authentication and storage uploads are not modelled. Their outcomes are inputs: an
error flag, the returned row or id, the signed-in user. Effects such as toasts, navigation
and cart clearing are returned as a list of values in the order the source performs them.

The cart store is a class, `Cart.CartProvider`, with a `cartItems` sequence field. Its
`AddToCart` method is proved against the pure state updater `Cart.AddToCartUpdate`. The
lemmas about that updater carry the properties. The `groupedDrops` loop is a method with
loop invariants. It is proved against a reference definition: each group is the first two
products with that key. The default-sizes reassignment is also a method. Checkout
submission is a method on a page class that records the effects it performs.

**What the cart context defines:**
- The pages call `removeFromCart`, `updateQuantity`, `cartTotal` and `clearCart`
  (app/cart/page.tsx:136, app/checkout/page.tsx:32). `context/CartContext.tsx` defines none
  of them. It provides only `cartItems`, `cartCount` and `addToCart`. Its `addToCart`
  merges by product `id` only and adds exactly one unit, ignoring the incoming quantity.
  The model follows that file. Where a page needs the cart total, the total is an input.
  The checkout's `await clearCart()` has an outcome input: it resolves or it throws. With
  the context as written, it throws.
- The declared `CartItem` type has no `size`, but both add handlers pass one, and the
  object spread keeps it. `Cart.CartItem` therefore carries an optional `size`. Size plays
  no part in merging, so two sizes of one product share a single line. That line keeps
  the size it was first added with.

One cross-page observation is proved and not claimed as a bug:
`AdminAdd.GoalkeeperDefaultsNotOffered`. The add-product page gives a Goalkeeper product
the default letter sizes S/M/L/XL. The new-drops page offers that product only glove
sizes.

## Model

| member | source | states |
|---|---|---|
| `Cart.FindById` | context/CartContext.tsx:31 | Returns nothing exactly when no line has the id. Otherwise it returns the first line with that id. |
| `Cart.BumpMatching` | context/CartContext.tsx:34-38 | Length is kept. Every line with the id gains one unit. Every other line is the same value. |
| `Cart.SumQuantitiesAppend` | context/CartContext.tsx:26 | The count of a list extended by one line is the old count plus that line's quantity. An empty cart counts 0. |
| `Cart.AddNewIdAppends` | context/CartContext.tsx:31-41 | An absent id is appended as the last line. Earlier lines are unchanged and keep their order. |
| `Cart.AddKnownIdMerges` | context/CartContext.tsx:33-38 | A present id keeps the length. The matching line gains exactly one unit, whatever the incoming quantity. That line keeps its own name, price, image and size. Other lines are untouched. |
| `Cart.AddLeavesOtherLines` | context/CartContext.tsx:34-38 | A line of another product is unchanged at its position, whichever branch runs. |
| `Cart.AddPreservesUniqueIds` | context/CartContext.tsx:31-41 | If ids are unique before an add, they are unique after it. |
| `Cart.CartCountAfterAdd` | context/CartContext.tsx:26-41 | `cartCount` grows by the incoming quantity on an append. On a merge it grows by the number of matching lines, which is exactly 1 when ids are unique. |
| `Cart.RepeatedAddsMerge` | context/CartContext.tsx:28-42 | Start with a cart that lacks the id and add it k times. The result has one line for it: the first incoming line with its quantity raised by k - 1. |
| `Cart.CartProvider.constructor` | context/CartContext.tsx:23 | The cart starts empty with count 0. |
| `Cart.CartProvider.AddToCart` | context/CartContext.tsx:28-43 | The new `cartItems` is the updater applied to the old value. The method also states the length, append, uniqueness and count facts. |
| `CartPage.SubtotalAfterMerge` | app/cart/page.tsx:118 | A line subtotal is price × quantity. A merge raises it by one unit price. |
| `CartPage.ItemLabelAgreement` | app/cart/page.tsx:206 | The label is "Item" exactly when there is one line, and "Items" otherwise. |
| `CartPage.DecrementKeepsOne` | app/cart/page.tsx:259 | The decrement button is enabled exactly when one unit less still leaves at least one. |
| `CartPage.ImagesAfterFetch` | app/cart/page.tsx:27-31 | A non-empty fetched list replaces the images. The list is kept on an error, a missing row or a missing or empty list. |
| `CartPage.ImagesNeverEmpty` | app/cart/page.tsx:14-30 | The image list is never empty. |
| `CartPage.NextImage` | app/cart/page.tsx:37 | With JavaScript's `%`, forward keeps the index in [0, n). It moves one place and wraps from n - 1 to 0. |
| `CartPage.PrevImage` | app/cart/page.tsx:38 | Back keeps the index in [0, n). It moves one place back and wraps from 0 to n - 1. |
| `CartPage.PrevUndoesNext` | app/cart/page.tsx:37-38 | Back undoes forward, and forward undoes back. |
| `CartPage.FullTurnIsIdentity` | app/cart/page.tsx:37 | n forward presses return to the starting image. |
| `JsNumber.Rem` | app/cart/page.tsx:37-38 | The remainder takes the dividend's sign, unlike Dafny's `%`. It lies in [0, b) for a non-negative dividend. |
| `Pricing.ShippingRule` | app/cart/page.tsx:138 | Shipping is 0 exactly when the total is above 150, and 15 otherwise. Exactly 150 pays 15. |
| `Pricing.ShippingNeverRisesWithSpend` | app/checkout/page.tsx:47 | A larger cart total never pays more shipping. |
| `Pricing.GrandTotalBounds` | app/cart/page.tsx:305 | The grand total is the cart total plus shipping. It equals the cart total above 150 and is the total + 15 otherwise. |
| `Checkout.InitialShippingData` | app/checkout/page.tsx:35-45 | The form starts with the user's name and e-mail (or ""), country "India", and every other field empty. |
| `Checkout.UpdateShipping` | app/checkout/page.tsx:57-59 | Only the named form field changes. |
| `Checkout.OrderHeaderFor` | app/checkout/page.tsx:68-76 | The header has `order_total` = cart total, shipping by the rule, and total = sum. It also has status "Processing", payment "Mock Payment", the form and the user's id. |
| `Checkout.OrderDetails` | app/checkout/page.tsx:91-98 | There is one row per cart line, in cart order. Each row copies id, name, price, quantity and size, and carries the given order id. |
| `Checkout.DetailsKeepCartCount` | app/checkout/page.tsx:91-98 | The detail rows order as many units as the cart count. |
| `Checkout.SuccessPathCarriesOrderId` | app/checkout/page.tsx:116 | The success URL is the fixed prefix followed by the decimal order id, which reads back to the id. |
| `Checkout.ClearCartOnlyAfterBothInserts` | app/checkout/page.tsx:86-108 | The cart is cleared exactly when both inserts succeed. It is cleared only after the header insert and then the detail insert. |
| `Checkout.HeaderFailureWritesNothingElse` | app/checkout/page.tsx:86 | A header error or a missing row means no detail insert, no cart clearing and no navigation. The run ends with a non-empty error toast. |
| `Checkout.DetailsUseReturnedId` | app/checkout/page.tsx:88-98 | Every detail row carries the id the header insert returned, and the rows cover the whole cart. |
| `Checkout.CheckoutPage.constructor` | app/checkout/page.tsx:34 | The page starts with no submission in progress. |
| `Checkout.NavigatesOnlyOnFullSuccess` | app/checkout/page.tsx:100-117 | The page navigates exactly when the header insert, the detail insert and `clearCart` all succeed. It then navigates last, to the new order's success page. |
| `Checkout.ClearCartThrowAfterWrites` | app/checkout/page.tsx:105-122 | If `clearCart` throws after both inserts, the header and detail rows have been written. There is no success toast and no navigation, and the run ends with a non-empty error toast. |
| `Checkout.CheckoutPage.HandleOrderSubmission` | app/checkout/page.tsx:62-126 | The effects performed are the submission's effect sequence, including the branch where `clearCart` throws, and `loading` is reset. An empty cart then meets the redirect-to-/cart condition of lines 51-55. |
| `NewDrops.DetermineSizeType` | app/shop/new-drops/page.tsx:155-171 | The result is always a family of `SIZE_CONFIG` with a non-empty size list. |
| `NewDrops.SizeTypePrecedence` | app/shop/new-drops/page.tsx:156-170 | Exact lower-cased categories come first: boots, goalkeeper, footballs. Then sock, then shin/guard. These beat the training gear/accessories → equipment rules. Equipment arises only from those two categories. When none of those fired, the substring tests run in order: boot/shoe → footwear, then glove → gloves, then ball → balls. |
| `NewDrops.ExactCategoryFamily` | app/shop/new-drops/page.tsx:159-161 | "boots" → footwear, "goalkeeper" → gloves, "footballs" → balls, case-insensitively and whatever the subcategory. |
| `NewDrops.UnmatchedIsApparel` | app/shop/new-drops/page.tsx:166-170 | A product matching no keyword is sized as apparel. |
| `NewDrops.SizesAreNonEmpty` | app/shop/new-drops/page.tsx:26-32 | Every offered size is a non-empty string. |
| `NewDrops.EquipmentIsOnlySingleSize` | app/shop/new-drops/page.tsx:31 | Equipment is the only family with a single size, "One Size". |
| `NewDrops.QuickAdd` | app/shop/new-drops/page.tsx:173-196 | A single-size product adds one unit in its only size, and the picker is untouched. Any other product opens the picker on it with no size. |
| `NewDrops.QuickAddEquipmentAppends` | app/shop/new-drops/page.tsx:180-188 | Quick-adding new equipment appends one line with quantity 1 and size "One Size". |
| `NewDrops.CurrentSizes` | app/shop/new-drops/page.tsx:230-231 | The picker's size list is never empty. It is the apparel sizes when no product is selected. |
| `NewDrops.ConfirmAdd` | app/shop/new-drops/page.tsx:198-213 | Nothing is added without a selected product and a non-empty size. Otherwise one unit in the chosen size is added and the picker closes and resets. |
| `NewDrops.PickedSizeIsAdded` | app/shop/new-drops/page.tsx:193-213 | After the picker opens, choosing any offered size adds that product in that size, and the size belongs to the product's family. |
| `NewDrops.HandleQuickAdd` | app/shop/new-drops/page.tsx:173-196 | The shared cart gets `addToCart` exactly when quick-add adds a line. |
| `NewDrops.HandleAddToCart` | app/shop/new-drops/page.tsx:198-213 | The shared cart gets `addToCart` exactly when the confirm adds a line. |
| `NewDrops.FilteredProducts` | app/shop/new-drops/page.tsx:216-218 | "All" keeps every product. Otherwise the result holds every copy of each product whose category equals the active one, no other product, and keeps their order. |
| `NewDrops.BucketStep` | app/shop/new-drops/page.tsx:224-226 | One more product joins its own group only while the group holds fewer than two. |
| `NewDrops.GroupStep` | app/shop/new-drops/page.tsx:221-226 | One loop turn keeps the groups equal to their reference buckets and keeps the key order. |
| `NewDrops.GroupDrops` | app/shop/new-drops/page.tsx:220-227 | The keys are the products' subcategories, with "General" for a missing one. Each group is the first two filtered products with that key. The key order is first-seen order. |
| `NewDrops.GroupOrderKeys` | app/shop/new-drops/page.tsx:397 | The listed group keys are exactly the products' keys, each listed once. |
| `NewDrops.GroupsAreSmall` | app/shop/new-drops/page.tsx:220-226 | Every group holds one or two products, all with its key, in filtered order. |
| `NewDrops.GroupLink` | app/shop/new-drops/page.tsx:411 | A group links to its first product's category page, or to "#" when it is empty. |
| `AdminDashboard.FilteredProducts` | app/admin/dashboard/page.tsx:94-98 | A product is listed exactly when its lower-cased name includes the lower-cased term and the category is "All" or its own. Every copy of a listed product is kept, in order, and a blank search with "All" keeps all. |
| `AdminDashboard.NoFilterKeepsAll` | app/admin/dashboard/page.tsx:95-96 | An empty search with "All" shows every product. |
| `AdminDashboard.WithoutId` | app/admin/dashboard/page.tsx:81 | `filter(p => p.id !== id)` keeps every copy of every product with another id, in order, and nothing with the id. |
| `AdminDashboard.AfterDelete` | app/admin/dashboard/page.tsx:70-82 | A failed delete leaves the list on screen unchanged. A successful one replaces it with the list captured when the confirmation opened, minus the id. |
| `AdminDashboard.StaleDeleteRestoresProduct` | app/admin/dashboard/page.tsx:49-81 | Two confirmations open on one list: confirming the delete of A and then of another product brings A back on screen. |
| `AdminDashboard.DeleteFromLatest` | app/admin/dashboard/page.tsx:81 | The corrected delete filters the list on screen: it removes exactly the id and keeps every other product, in order. A failed delete changes nothing. |
| `AdminDashboard.TwoDeletesRemoveBoth` | app/admin/dashboard/page.tsx:81 | With the corrected delete, two confirmed deletes remove both ids and keep every other product. |
| `AdminDashboard.AbsentIdKeepsAll` | app/admin/dashboard/page.tsx:81 | Deleting an id that is not listed removes nothing. |
| `AdminDashboard.DeleteCommutesWithFilter` | app/admin/dashboard/page.tsx:81-98 | Filtering after a (corrected) delete equals deleting from the filtered list. |
| `AdminOrders.SetStatus` | app/admin/orders/page.tsx:62-64 | Length and order are kept. Orders with the id take the new status, and every other field and order is unchanged. |
| `AdminOrders.SetStatusIdempotent` | app/admin/orders/page.tsx:62-64 | Applying the same update twice equals applying it once. |
| `AdminOrders.SetStatusEffect` | app/admin/orders/page.tsx:62-64 | Every order with the id shows the new status. Other orders are the same values. |
| `AdminOrders.HandleStatusUpdate` | app/admin/orders/page.tsx:48-66 | An error leaves the list unchanged and shows the error toast. Success updates the list and names the order and status in the toast. |
| `AdminOrders.StatusUpdateTwice` | app/admin/orders/page.tsx:20-64 | Choosing a menu status twice gives the same list as choosing it once. |
| `AdminOrders.FilteredOrders` | app/admin/orders/page.tsx:68-71 | An order is listed exactly when its lower-cased name includes the lower-cased term, or its decimal id includes the term. Every copy of a listed order is kept, in order, and an empty term keeps all. |
| `AdminOrders.EmptySearchKeepsAll` | app/admin/orders/page.tsx:68-71 | An empty search term shows every order. |
| `AdminOrders.SearchByNumberFindsOrder` | app/admin/orders/page.tsx:70 | Searching for an order's number finds it. |
| `OrderStatus.StatusColor` | app/admin/orders/page.tsx:193-198 | Green exactly for Delivered, blue for Shipped and red for Cancelled. Yellow for every other string. |
| `OrderStatus.SelectableStatusesDistinct` | app/admin/orders/page.tsx:20 | The four selectable statuses get four different colours, and Processing gets yellow. |
| `OrderStatus.UnknownStatusIsYellow` | app/admin/orders/page.tsx:197 | A status outside the menu is yellow. |
| `AccountOrders.BadgeClass` | app/account/orders/page.tsx:56-61 | The history uses the same mapping. Delivered is green, Shipped blue, Cancelled red, and Processing yellow. |
| `AccountOrders.CheckAuthAndFetch` | app/account/orders/page.tsx:27-52 | With no user: a toast and a push to /login, no query, and `loading` stays raised. With a user: one query for that user. Its rows are shown, or an error toast appears and the list is kept. |
| `AccountOrders.SignedOutRedirectsWithoutQuery` | app/account/orders/page.tsx:31-36 | A signed-out visitor is sent to /login. No orders query is issued and the spinner stays. |
| `AccountOrders.SignedInQueriesOwnOrders` | app/account/orders/page.tsx:38-51 | A signed-in user's query is for that user only, there is no redirect and the spinner goes away. |
| `AdminAdd.HandleInputChange` | app/admin/add/page.tsx:37-39 | Only the named form field changes. |
| `AdminAdd.HandleCategoryChange` | app/admin/add/page.tsx:41-47 | Sets the category and clears the subcategory. Other fields are kept. |
| `AdminAdd.HandleImageChange` | app/admin/add/page.tsx:50-58 | Chosen files are appended to the files list, and their previews in the same order to the previews list. With no files chosen nothing changes. |
| `AdminAdd.ImageChangeKeepsAlignment` | app/admin/add/page.tsx:55-56 | Both lists grow by the same count. Each new preview belongs to the file at its index. |
| `AdminAdd.RemoveAt` | app/admin/add/page.tsx:62 | Exactly position i is dropped. An out-of-range index changes nothing. |
| `AdminAdd.RemoveImageKeepsPairs` | app/admin/add/page.tsx:61-68 | After a removal the lists keep equal length. Each remaining file keeps its own preview. |
| `AdminAdd.DefaultSizes` | app/admin/add/page.tsx:120-122 | Boots get US 8–US 11, Footballs get Size 5, Size 4, and every other category gets S/M/L/XL. |
| `AdminAdd.VariantRows` | app/admin/add/page.tsx:124-128 | There is one variant per size, in order, each with the product id and stock 20. |
| `AdminAdd.MainImageUrl` | app/admin/add/page.tsx:109 | The first uploaded URL, or "" when none was uploaded. |
| `AdminAdd.ProductRowFor` | app/admin/add/page.tsx:103-112 | The row copies the form's text fields and the parsed price, and is featured. `image_urls` is the whole upload list, and `image_url` is its first entry or "". |
| `AdminAdd.BootDefaultsOfferedOnShop` | app/admin/add/page.tsx:121 | The Boots defaults are the upper footwear sizes the shop offers. |
| `AdminAdd.FootballDefaultsOfferedOnShop` | app/admin/add/page.tsx:122 | The Footballs defaults are the two ball sizes the shop offers, in reverse order. |
| `AdminAdd.GoalkeeperDefaultsNotOffered` | app/admin/add/page.tsx:120 | A Goalkeeper product gets letter sizes that the shop, which sizes it as gloves, does not offer. |
| `Home.Slug` | app/page.tsx:334 | The slug has the title's length. |
| `Home.SlugReplacesSpaces` | app/page.tsx:334 | Each ' ' becomes '-'. Every other character, other whitespace included, stays in place, and no space remains. |
| `Home.SlugFixedPoints` | app/page.tsx:334 | Slugging is idempotent, and a title without spaces is its own slug. |
| `Home.CardHref` | app/page.tsx:337 | The link is "/shop/" followed by the slug. |
| `Home.KitsCardHref` | app/page.tsx:285-288 | "Kits & Apparel" links to "/shop/Kits-&-Apparel". |
| `Strings.ToLower` | app/admin/dashboard/page.tsx:95 | Length is kept, and each character is lower-cased on its own. |
| `Strings.ToLowerIdempotent` | app/admin/dashboard/page.tsx:95 | Lower-casing twice equals lower-casing once. |
| `Strings.ContainsIff` | app/admin/dashboard/page.tsx:95 | `includes` holds exactly when the term occurs at some position. |
| `Strings.NatToStringValue` | app/admin/orders/page.tsx:70 | The decimal `toString` of an id reads back to the id. |
| `Seqs.FilterMembers` | app/admin/dashboard/page.tsx:94 | `filter` keeps exactly the elements that satisfy the predicate. |
| `Seqs.FilterCounts` | app/admin/dashboard/page.tsx:94 | `filter` keeps every copy of each element that satisfies the predicate and no copy of any other. |
| `Seqs.FilterIsSubsequence` | app/admin/dashboard/page.tsx:94 | `filter` keeps order: the result is a subsequence. |

## Findings

| source | as written | input that shows it | evidently intended | confidence | as-written member | corrected member |
|---|---|---|---|---|---|---|
| app/admin/dashboard/page.tsx:81 | The delete confirmation runs `setProducts(products.filter(...))` on the `products` list captured when `handleDelete` opened the confirmation toast. The toast stays open until clicked (line 90). | Products [A, B]. Open the delete confirmation for A and for B, confirm A, then confirm B: the list becomes [A], although A is deleted in the database. | Filter the list on screen, with the updater form `setProducts(prev => prev.filter(...))` used at app/admin/orders/page.tsx:62. Both A and B are then gone. | medium, not executed | `AdminDashboard.StaleDeleteRestoresProduct` | `AdminDashboard.TwoDeletesRemoveBoth` |

## Left out

- Cart operations that `context/CartContext.tsx` does not define are not modelled: `removeFromCart`, `updateQuantity`, `cartTotal` and `clearCart`. The pages use them. Where they matter, the cart total is an input. A `clearCart` call is a recorded effect, and whether it resolves or throws is an input.
- Also not modelled: cart persistence (browser storage or remote rows), merging by (product, size) and reloading on sign-in. The cart context shown has none of them.
- Database calls, auth and storage uploads are foreign asynchronous I/O. Their results are inputs: error flags, returned rows and ids, the signed-in user. The effects (toasts, navigation, cart clearing) are values in the order they happen.
- The upload loop of the add-product submit is not modelled. Neither are its random, time-based file names or the error path of its variant insert. `AdminAdd.ProductRowFor` takes the uploaded URL list as input.
- Float formatting and parsing (`toFixed(2)`, `parseFloat`) are left out. Money is an exact `real`, and the parsed price is an input.
- `URL.createObjectURL`/`revokeObjectURL` are left out. The preview URL is a function parameter of `AdminAdd.HandleImageChange`.
- Strings.ToLower: lower-cases the ASCII letters A–Z only. JavaScript's `toLowerCase` also folds non-ASCII letters, and modelling Unicode case mapping is out of scope.
- NewDrops.GroupOrder: lists groups in insertion order. JavaScript's `Object.entries` lists integer-like keys (such as a subcategory "2024") first, in numeric order, and that is not modelled.
- The new-drops picker's close buttons and backdrop reset the picker state. They only clear the three state cells, and the model has no separate member for them.
- The add-product page's category-to-subcategory menu is not modelled. It is configuration for a select element.
- Animation, smooth scrolling, scroll locking, timers (the 50 ms navigation delay, the 1.5 s preloader) and rendering are left out.
- The success page, the login, signup and contact pages, the auth callback route, the navigation bar and the layouts are not part of this model.
