# Storefront cart, FAQ filter and order-status rules in Dafny

This project models the logic of an Angular storefront client.

The main part is the shopping-cart service. It keeps an ordered list of line items `(productId, quantity, priceAtPurchase)` and changes it through four operations: add, update, remove and clear. Every change is committed the same way: the list is published, the total is recomputed, the list is persisted and a change event is emitted. The list is persisted to local storage when the user is not logged in, and sent to the remote cart gateway when the user is. At login the local cart is merged into the server cart, and the server's line wins for any product both carts hold.

Two smaller pieces are modelled beside it:
- the FAQ page's filter: a case-insensitive search, optionally restricted to one category, plus per-category counts;
- the order-history page's status rules: which orders may be cancelled, and which badge style each status gets.

Files:
- `wrappers.dfy`: `Option`.
- `seqs.dfy`: an order-preserving filter (the meaning of `Array.prototype.filter`) and the sub-sequence relation.
- `cart.dfy` (module `Cart`): the line-item values each cart operation computes, the derived total and item count, lookup by product, the login merge, and replay of any sequence of operations.
- `cart_service.dfy` (module `CartStore`): the service object `CartService`. Its fields are the item list, the total, the authentication flag, the local-storage entry, and two ghost records: the requests sent to the gateway and the number of change events. The module's method `LoginScenario` walks through one end-to-end case: an anonymous user adds a product at 19.99, then logs in while the server cart holds 3 of that product at 18.50; after the sync the cart is exactly the server cart, the item count is 3 and the total is 55.50 (5550 cents).
- `faq.dfy` (module `Faq`): the FAQ filter predicates and the component `FaqComponent`.
- `order_history.dfy` (module `OrderHistory`): the order statuses, `canCancel`, `getStatusClass` and the guard of `openCancelModal`.

Prices are integer cents, so the total is an exact sum.

Three behaviours of the code are worth stating:
- `clearCart` commits the empty list through `updateCart`. So while the user is logged in, it does send the empty cart to the server (`CartService.ClearCart` records that request).
- `clearCart` also removes the local-storage key whether or not the user is logged in.
- Item quantities are never validated on `addItem`, and a cart read back from local storage is not checked for duplicate products. So "one line per product" is proved as a property every operation preserves, not as an invariant of the object.

## Model

| member | source | states |
|---|---|---|
| `Cart.IndexOf` | frontend/src/app/services/cart.service.ts:73 | the position returned holds the first line for the product; there is no position exactly when the product has no line |
| `Cart.Find` | frontend/src/app/services/cart.service.ts:253-255 | a line is found exactly when the product is in the cart, and the line found is the first line for that product |
| `Cart.Added` | frontend/src/app/services/cart.service.ts:71-87 | the list addItem commits: the first line for the product gains the quantity at its own price, or a new line is appended; `Cart.AddedIds`, `Cart.AddedExisting` and `Cart.AddedAbsent` state its products, and prove it equal to the in-place update and to the append |
| `Cart.AddedIds` | frontend/src/app/services/cart.service.ts:71-87 | after addItem the cart's products are the old ones plus the added product; the length grows by one only for a product that had no line |
| `Cart.AddedExisting` | frontend/src/app/services/cart.service.ts:72-76 | for a product already in the cart, addItem raises that one line's quantity by the amount added; length, order and every other line are unchanged |
| `Cart.AddedAbsent` | frontend/src/app/services/cart.service.ts:77-84 | for a product not in the cart, addItem appends exactly one line at the end, with the given quantity and price |
| `Cart.AddedUnique` | frontend/src/app/services/cart.service.ts:71-87 | addItem keeps every product on at most one line |
| `Cart.AddedTwice` | frontend/src/app/services/cart.service.ts:71-87 | two adds of the same product equal one add of the summed quantity, at the first add's price |
| `Cart.TotalAdded` | frontend/src/app/services/cart.service.ts:71-87 | addItem raises the total by the quantity added times the line's locked price, or times the given price for a new line |
| `Cart.ItemCountAdded` | frontend/src/app/services/cart.service.ts:71-87 | addItem raises the item count by exactly the quantity added |
| `Cart.WithQuantity` | frontend/src/app/services/cart.service.ts:95-97 | updateItem's map keeps the length, and every line's product and price, in place |
| `Cart.WithQuantityAbsent` | frontend/src/app/services/cart.service.ts:95-99 | updating a product that has no line leaves the list unchanged |
| `Cart.WithQuantityAt` | frontend/src/app/services/cart.service.ts:95-99 | in a cart with unique products, only the product's line changes, and its quantity becomes the new one |
| `Cart.Removed` | frontend/src/app/services/cart.service.ts:102-105 | removeItem keeps exactly the lines of other products, and the product leaves the cart's product set |
| `Cart.RemovedCount` | frontend/src/app/services/cart.service.ts:102-105 | removeItem's filter keeps every copy of each other product's line and no copy of the product's lines, so duplicate lines survive as the filter keeps them |
| `Cart.RemovedIsSubsequence` | frontend/src/app/services/cart.service.ts:103 | the lines removeItem keeps stay in their original order |
| `Cart.RemovedAbsent` | frontend/src/app/services/cart.service.ts:102-105 | removing a product that has no line leaves the list unchanged |
| `Cart.RemovedIdempotent` | frontend/src/app/services/cart.service.ts:102-105 | a second removal of the same product is a no-op |
| `Cart.RemovedAt` | frontend/src/app/services/cart.service.ts:102-105 | in a cart with unique products, removal deletes exactly the product's one line and keeps the rest in order |
| `Cart.FilterUnique` | frontend/src/app/services/cart.service.ts:103 | filtering a cart with unique products keeps them unique |
| `Cart.Total` | frontend/src/app/services/cart.service.ts:233-238 | the sum of price times quantity over the lines, by head recursion; `Cart.TotalSnoc` shows it is the left fold `reduce` computes, and `Cart.TotalAdded` and `Cart.RemovedTotal` give its change under add and remove |
| `Cart.TotalSnoc` | frontend/src/app/services/cart.service.ts:234-236 | one step of `reduce`: appending a line adds that line's price times quantity to the sum |
| `Cart.ItemCount` | frontend/src/app/services/cart.service.ts:249-251 | the sum of quantities over the lines, by head recursion; `Cart.ItemCountSnoc` shows it is the left fold `reduce` computes, and `Cart.ItemCountAdded` and `Cart.RemovedItemCount` give its change under add and remove |
| `Cart.ItemCountSnoc` | frontend/src/app/services/cart.service.ts:250 | one step of `reduce`: appending a line adds its quantity to the count |
| `Cart.RemovedTotal` | frontend/src/app/services/cart.service.ts:102-105 | with unique products, removal lowers the total by exactly the removed line's price times quantity |
| `Cart.RemovedItemCount` | frontend/src/app/services/cart.service.ts:102-105 | with unique products, removal lowers the item count by exactly the removed line's quantity |
| `Cart.TotalNonNegative` | frontend/src/app/services/cart.service.ts:233-238 | the sum of price times quantity is never negative when no price or quantity is |
| `Cart.ItemCountAtLeastLines` | frontend/src/app/services/cart.service.ts:249-251 | the sum of quantities is at least the number of lines when every quantity is at least one |
| `Cart.Merged` | frontend/src/app/services/cart.service.ts:139-143 | the merge starts with every server line unchanged and in order; a line is in the merge exactly when it is a server line or a local line whose product the server lacks; its products are the union of both carts' products |
| `Cart.MergedCount` | frontend/src/app/services/cart.service.ts:139-143 | after the server lines, the merge holds every copy of each local line whose product the server lacks, and no copy of any other line |
| `Cart.MergedLocalOrder` | frontend/src/app/services/cart.service.ts:140-142 | the local lines after the server lines keep their local order |
| `Cart.MergedFind` | frontend/src/app/services/cart.service.ts:139-143 | remote wins: for each product, the merged line is the server's line if the server has one, else the local line; a local quantity is never summed with a server one |
| `Cart.MergedUnique` | frontend/src/app/services/cart.service.ts:139-143 | if both carts have unique products, so does the merge |
| `Cart.MergedSubsumed` | frontend/src/app/services/cart.service.ts:139-143 | when the server already holds every local product, the merge is the server cart unchanged |
| `Cart.MergedDisjoint` | frontend/src/app/services/cart.service.ts:139-143 | when the carts share no product, the merge is the server cart followed by the whole local cart in its order |
| `Cart.MergeRemoteWinsExample` | frontend/src/app/services/cart.service.ts:139-143 | local (A, 2, 10.00) merged into server (A, 5, 9.00) gives exactly the server line |
| `Cart.MergeUnionExample` | frontend/src/app/services/cart.service.ts:139-143 | disjoint carts merge to the server line followed by the local line |
| `Cart.Apply` | frontend/src/app/services/cart.service.ts:71-110 | the list each mutation commits; an update to a quantity of zero or less is a removal, as updateItem routes it; `Cart.ApplyUnique` proves each keeps products unique |
| `Cart.ApplyUnique` | frontend/src/app/services/cart.service.ts:71-110 | each of add, update, remove and clear keeps products unique |
| `Cart.ReplayUnique` | frontend/src/app/services/cart.service.ts:71-110 | starting from unique products, any sequence of add, update, remove and clear keeps them unique |
| `CartStore.CartService.constructor` | frontend/src/app/services/cart.service.ts:49-68 | with no token, the cart is rehydrated from local storage and unparsable content is removed; with a token, the cart starts empty pending the sync; the total matches the lines |
| `CartStore.CartService.LoadLocalCart` | frontend/src/app/services/cart.service.ts:57-68 | a stored list becomes the cart and the total is recomputed, with no persist and no change event; unparsable content is removed and the cart is left as it was |
| `CartStore.CartService.AddItem` | frontend/src/app/services/cart.service.ts:71-87 | the in-place update or append commits exactly the list `Cart.Added` describes, and the total, the store and the events follow updateCart |
| `CartStore.CartService.UpdateItem` | frontend/src/app/services/cart.service.ts:89-100 | a quantity of zero or less leaves the same state as RemoveItem; otherwise the list `Cart.WithQuantity` describes is committed |
| `CartStore.CartService.RemoveItem` | frontend/src/app/services/cart.service.ts:102-105 | commits the list `Cart.Removed` describes |
| `CartStore.CartService.ClearCart` | frontend/src/app/services/cart.service.ts:107-110 | the list is empty, the total zero and the local key absent; the empty list is sent to the gateway only when the user is logged in; one change event |
| `CartStore.CartService.SyncWithServer` | frontend/src/app/services/cart.service.ts:113-137 | without a token nothing changes; with one, the merge of the local and fetched carts is sent to the gateway, and the gateway's reply is committed, or nothing else changes when the save fails |
| `CartStore.CartService.UpdateCart` | frontend/src/app/services/cart.service.ts:226-231 | the list is replaced, the total is the exact sum for the new list, the list is persisted by authentication state, and exactly one change event is emitted |
| `CartStore.CartService.UpdateTotal` | frontend/src/app/services/cart.service.ts:233-238 | the loop folds price times quantity left to right as `reduce` does, and the total becomes the sum `Cart.Total` over the current lines |
| `CartStore.CartService.PersistCart` | frontend/src/app/services/cart.service.ts:240-246 | without a token, local storage holds exactly the new list and no gateway request is made; with one, the list is sent to the gateway and local storage is untouched |
| `CartStore.CartService.GetItemCount` | frontend/src/app/services/cart.service.ts:249-251 | the loop folds the quantities left to right as `reduce` does, and the count it returns is the cart's item count `Cart.ItemCount` |
| `CartStore.CartService.GetItem` | frontend/src/app/services/cart.service.ts:253-255 | a line is returned exactly when the product is in the cart, and it is the first line for that product, as `find` returns |
| `Faq.ToLower` | frontend/src/app/components/faq/faq.component.ts:133-134 | `toLowerCase` on the ASCII letters: the length is kept, each upper-case letter becomes its lower-case partner (its code plus 32), no upper-case letter remains and every other character is unchanged |
| `Faq.Includes` | frontend/src/app/components/faq/faq.component.ts:133-134 | `includes`: the needle is a prefix of the text or of one of its suffixes, so it is never longer than the text |
| `Faq.IncludesIff` | frontend/src/app/components/faq/faq.component.ts:133-134 | `includes` holds exactly when the needle occurs in the text at some position |
| `Faq.LowerOfUpper` | frontend/src/app/components/faq/faq.component.ts:133-134 | lower-casing a string forgets any earlier upper-casing |
| `Faq.MatchesSearch` | frontend/src/app/components/faq/faq.component.ts:132-134 | an empty query matches every entry; otherwise the lower-cased query must occur in the lower-cased question or answer; `Faq.FilteredCaseInsensitive` shows only the query's lower-cased form matters |
| `Faq.MatchesCategory` | frontend/src/app/components/faq/faq.component.ts:136-137 | no category, or the empty one, matches every entry; otherwise the entry's category must equal it; `Faq.Filtered` and `Faq.FilteredUnrestricted` state the resulting filter |
| `Faq.Filtered` | frontend/src/app/components/faq/faq.component.ts:130-141 | an entry is shown exactly when it is in the list and matches both the search and the category; with a non-empty category selected, every shown entry has that category |
| `Faq.FilteredIsSubsequence` | frontend/src/app/components/faq/faq.component.ts:131-140 | the shown entries are a sub-sequence of the list: the filter never reorders |
| `Faq.FilteredUnrestricted` | frontend/src/app/components/faq/faq.component.ts:130-141 | with an empty query and no category, the whole list is shown |
| `Faq.FilteredCaseInsensitive` | frontend/src/app/components/faq/faq.component.ts:132-134 | two queries that agree after lower-casing show the same entries |
| `Faq.FilteredIgnoresUpperCase` | frontend/src/app/components/faq/faq.component.ts:132-134 | typing the query in capitals shows the same entries |
| `Faq.CategoryCount` | frontend/src/app/components/faq/faq.component.ts:148-150 | a category's count is never more than the number of entries |
| `Faq.CountsSumIsTotal` | frontend/src/app/components/faq/faq.component.ts:148-150 | when the categories are distinct and cover every entry, their counts add up to the number of entries |
| `Faq.DefaultCountsSum` | frontend/src/app/components/faq/faq.component.ts:16-127 | on the page's own list, the four category counts add up to all 17 entries |
| `Faq.FaqComponent.constructor` | frontend/src/app/components/faq/faq.component.ts:14-128 | the page starts with no query, no category and the whole list shown |
| `Faq.FaqComponent.FilterFAQs` | frontend/src/app/components/faq/faq.component.ts:130-141 | the shown list becomes the filter of the list by the current query and category |
| `Faq.FaqComponent.SelectCategory` | frontend/src/app/components/faq/faq.component.ts:143-146 | the category is set and the shown list is refiltered with it; the list itself is a constant and never changes |
| `Faq.FaqComponent.GetCategoryCount` | frontend/src/app/components/faq/faq.component.ts:148-150 | the number of entries in the category, at most the list's length |
| `OrderHistory.ParseStatus` | frontend/src/app/models/order.ts:42-51 | a string is read as the status whose spelling it is, and as none exactly when no status is spelled that way |
| `OrderHistory.StatusNameInjective` | frontend/src/app/models/order.ts:42-51 | no two statuses share a spelling |
| `OrderHistory.CanCancel` | frontend/src/app/components/order-history/order-history.component.ts:54-56 | canCancel compares the raw status string with PENDING and PROCESSING; `OrderHistory.CanCancelIff` and `OrderHistory.CanCancelByClass` tie it to the statuses and their styles |
| `OrderHistory.CanCancelIff` | frontend/src/app/components/order-history/order-history.component.ts:54-56 | an order can be cancelled exactly when its status is PENDING or PROCESSING |
| `OrderHistory.StatusClass` | frontend/src/app/components/order-history/order-history.component.ts:85-101 | the fallback style is returned exactly for strings that are not one of the six statuses |
| `OrderHistory.StatusClassTotal` | frontend/src/app/components/order-history/order-history.component.ts:85-101 | no status in ORDER_STATUSES gets the fallback style |
| `OrderHistory.StatusClassTable` | frontend/src/app/components/order-history/order-history.component.ts:85-101 | the style of each of the six statuses: warning, primary, info, success for both DELIVERED and COMPLETED, danger |
| `OrderHistory.StatusClassShared` | frontend/src/app/components/order-history/order-history.component.ts:93-95 | two different statuses share a style only when they are DELIVERED and COMPLETED |
| `OrderHistory.CanCancelByClass` | frontend/src/app/components/order-history/order-history.component.ts:85-90 | the cancellable orders are exactly those shown with the warning or the primary style |
| `OrderHistory.OpenCancelModal` | frontend/src/app/components/order-history/order-history.component.ts:58-70 | a cancellation of the order's own id is requested exactly when the order can be cancelled and the dialog closes with "confirm"; an order that cannot be cancelled never reaches cancelOrder |

## Left out

- HTTP: fetching, creating and replacing the remote cart, including the existence check before each save. A save is recorded in `serverWrites` as the list sent. `SyncWithServer` takes the fetched server cart and the gateway's reply as parameters.
- `CartStore.CartService.SyncWithServer` does not model the gateway's field names, for the fetched server cart or for the reply. Both the fetched lines that enter `Cart.Merged` and the lines of the reply that is committed are taken as `CartItem`s with a `priceAtPurchase`. frontend/src/app/models/cart.ts names the server's price `priceAtAddition`, and the service never renames it when reading. If the gateway answers in that shape, the server lines that win the merge carry no `priceAtPurchase`, `saveToServer` sends an undefined `priceAtAddition` for them, and the committed total is NaN. The model cannot represent such lines, so `Cart.MergedFind` ("the server line wins, with its price") holds only under this naming assumption.
- Asynchrony and RxJS: the ordering of concurrent persistence requests, the `forkJoin` of the sync, and the subscribers of the `cart`, `total` and `changes` subjects. Emissions are counted in `changeEvents`; the values each subscriber sees are not modelled.
- Aliasing of line objects: `addItem` changes the quantity of the existing line object in place, so an earlier emission of the list that still shares that object sees the new quantity. The same holds for a pending gateway save: `saveToServer` builds its request body only after its existence check answers, so an `addItem` on the same product in between makes the body carry the later quantity, while `serverWrites` records the list as it was when the save was issued. The model works on values.
- JSON serialisation of the local-storage entry: the store holds the list itself, or an "unparsable" marker.
- Product ids and quantities are JavaScript numbers (doubles, exact only up to 2^53, possibly fractional); the model makes them unbounded integers.
- The `addedAt` timestamp (a clock reading, unused by any comparison).
- `CartStore.CartService.UpdateTotal`: does not model `toFixed(2)` rounding or floating-point sums. Prices are integer cents and the total is exact.
- The authentication service and token checks: authentication is the boolean field `authenticated`, which the authentication service may assign.
- `Faq.ToLower`: `toLowerCase` is modelled on the ASCII letters only. Other Unicode case mappings are not modelled.
- `Faq.FilteredCaseInsensitive`: case-insensitivity is proved for the ASCII case mapping only, for the reason above.
- Order loading and the cancel request itself (`loadOrders`, `cancelOrder`): network calls. `OpenCancelModal` returns the id whose cancellation would be requested.
- Checkout and cart-page tax, shipping and rounding arithmetic, rating stars, routing, forms and the other HTTP services are not part of this model.
