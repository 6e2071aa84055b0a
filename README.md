# Order placement, modelled in Dafny

This project models the order-creation endpoint of a baby-products storefront
(`POST` in `app/api/order/route.ts`). A checkout request names items from four
product collections (clothes, toy, bath, newborn). Inside one database
transaction the handler does the following for each item, in input order:

- validate the item;
- look up its product in the collection its category tag selects;
- check the requested quantity against the product's current stock;
- save the product with its stock decremented;
- upsert the product's entry in the stock ledger;
- append a line-item snapshot and add price × quantity to the subtotal.

After the loop it charges delivery by weight: whole kilograms rounded up, at 30
per kg for Gujarat and 90 elsewhere. It then builds the order number, saves a
"pending" order and commits. Any error aborts the transaction, so no stock or
ledger write survives.

Modules:

- `Wrappers` (`wrappers.dfy`): `Option` and `Result`.
- `Text` (`text.dfy`): JavaScript's `slice(-n)`, `toLowerCase` and `toUpperCase`.
- `Inventory` (`inventory.dfy`): categories and their tags, products, the four
  tables (`Catalog`), the ledger upsert, the fallback product code and the line
  snapshot.
- `Pricing` (`pricing.dfy`): the subtotal and weight folds, ceiling to whole
  kilograms, the per-kg rate, the delivery charge and the order number.
- `Reservation` (`reservation.dfy`): the loop as a pure fold.
  - `ReserveItem` is one iteration. `ReserveFrom` runs the items in order and
    stops at the first error.
  - `Demand` is the total quantity requested of a product. `Refers` says
    whether an item names it.
  - The lemmas cover stock, ledger, lines and subtotal after the loop, and the
    exact condition under which the loop succeeds.
- `OrderPlacement` (`order_placement.dfy`):
  - `PlaceOrderSpec` says what one request does to the committed store.
  - The lemmas state the route's promises about it.
  - Class `Store` holds the four collections, the ledger and the orders as
    fields. Its `PlaceOrder` is the handler, written imperatively: the loop
    (`ReserveAll`, one pass per `ReserveOne`) saves products and upserts the
    ledger in place. On error `Rollback` restores the state taken when the
    transaction opened.
  - `PlaceOrder` is proved equal to `PlaceOrderSpec` on every input.

Modelling conventions:

- A JavaScript falsy value is modelled by the empty value of its type. An empty
  string stands for a missing id, tag, e-mail or product code. A zero weight
  stands for an unset weight, so it becomes 100 g. A zero quantity stands for a
  missing one; the same guard rejects both.
- A missing `customerInfo` or `deliveryAddress` is `None`. So is a
  `selectedItems` that is missing or not an array, and a missing
  `deliveryAddress.state`.
- The current time and the random suffix are parameters:
  - `timestamp` is the text of `Date.now()`;
  - `suffix` is the random upper-case part of the order number;
  - `now` is the value written as the ledger's `lastUpdated` and the order's
    `orderDate`.

Details of the code that the model keeps:

- An empty item list gets its own error (`NoItemsSelected`). It is not folded
  into "missing fields".
- Each error raised inside the transaction keeps its own kind
  (`InvalidItem`, `InvalidCategory`, `ProductNotFound`, `InsufficientStock`,
  `MissingState`). Each ends in a `Failure` that leaves the store unchanged.
  The route answers all of them with the same status, 500.
- A delivery address without a `state` makes `toLowerCase` throw after the
  loop. That aborts the transaction (`MissingState`).
- The order number uses the last six *characters* of the timestamp text.

## Model

| member | source | states |
|---|---|---|
| `Text.SliceLast` | app/api/order/route.ts:14 | `slice(-n)` returns the last n characters, or the whole string when it is shorter, and that result is a suffix of the input |
| `Text.ToLower` | app/api/order/route.ts:116 | lower-casing keeps the length and maps each character independently |
| `Text.ToUpper` | app/api/order/route.ts:91 | upper-casing keeps the length and maps each character independently |
| `Text.LowerOfUpper` | app/api/order/route.ts:116 | lower-casing forgets any earlier upper-casing, so a comparison after `toLowerCase` ignores case |
| `Text.LowerIdempotent` | app/api/order/route.ts:116 | lower-casing twice is the same as lower-casing once |
| `Inventory.ParseCategory` | app/api/order/route.ts:53-68 | the category switch accepts exactly the four tags and is the inverse of `Tag`; every other tag is rejected |
| `Inventory.Catalog.Put` | app/api/order/route.ts:79-80 | saving into one category's table changes that table at that id only; the other three tables are unchanged |
| `Inventory.PutAt` | app/api/order/route.ts:79-80 | saving a product replaces the document at its own key and no other, and adds no key other than its own |
| `Inventory.CodeOf` | app/api/order/route.ts:91 | an order always has a non-empty product code, and a product's own code wins when it has one |
| `Inventory.FallbackCodeNamesCategory` | app/api/order/route.ts:91 | a derived code starts with the category tag upper-cased, which reads back to the same category, then '-' |
| `Inventory.FallbackCodeEndsWithId` | app/api/order/route.ts:104 | a derived code ends with the last six characters of the product id, or the whole id when it is shorter |
| `Inventory.Upsert` | app/api/order/route.ts:83-97 | the upsert adds only its own key. The entry gets the new stock and the time. An existing entry keeps its code, name and source. A new one gets the product code (or the derived one), the name and source "online". Other entries are unchanged |
| `Inventory.WeightOrDefault` | app/api/order/route.ts:109 | a line's weight is never zero: a set weight is kept, a missing one becomes 100 g, and a non-negative weight gives a positive one |
| `Inventory.LineOf` | app/api/order/route.ts:103-110 | a line item records the product's code (its own or the derived one), the category, the product name, the selling price as `priceAtOrder`, the quantity, and the weight with a 100 g default that is never zero |
| `Pricing.LinesTotal` | app/api/order/route.ts:100-101 | the sum of price × quantity over lines whose prices and quantities are non-negative is non-negative |
| `Pricing.LinesTotalAppend` | app/api/order/route.ts:100-101 | each item adds exactly its price × quantity to the running subtotal |
| `Pricing.TotalWeight` | app/api/order/route.ts:114 | the `reduce` of weight × quantity over lines with non-negative weights and quantities is non-negative |
| `Pricing.TotalWeightPositive` | app/api/order/route.ts:114 | the total weight of lines with positive weight and quantity is positive, and never negative |
| `Pricing.CeilKg` | app/api/order/route.ts:115 | `Math.ceil(w/1000)` is the whole number of kg k with (k-1)·1000 < w ≤ k·1000 |
| `Pricing.CeilKgIsLeast` | app/api/order/route.ts:115 | that k is unique: any k with that property is the ceiling |
| `Pricing.IsGujarat` | app/api/order/route.ts:116 | a state counts as Gujarat exactly when it has seven characters that lower-case one by one to "gujarat" |
| `Pricing.RatePerKg` | app/api/order/route.ts:117 | the rate is 30 exactly when the state is Gujarat and 90 exactly when it is not |
| `Pricing.DeliveryCharge` | app/api/order/route.ts:114-117 | the charge is a whole multiple of the rate, and the number of kilograms billed is the least that holds the total weight |
| `Pricing.RateIgnoresCase` | app/api/order/route.ts:116-117 | the per-kg rate of a state does not change when the state is written in upper or lower case |
| `Pricing.GujaratSpellings` | app/api/order/route.ts:116 | "Gujarat", "GUJARAT" and "gujarat" all count as Gujarat; "Maharashtra" does not |
| `Pricing.DeliveryChargeMonotone` | app/api/order/route.ts:115-117 | a heavier shipment never costs less, and Gujarat never pays more than another state for the same weight |
| `Pricing.DeliveryChargeExamples` | app/api/order/route.ts:114-117 | 2500 g costs 90 to Gujarat and 270 to Maharashtra |
| `Pricing.OrderNumber` | app/api/order/route.ts:11-15 | every order number starts with "ORD" |
| `Pricing.OrderNumberParts` | app/api/order/route.ts:14 | for a timestamp of at least six characters, the number is "ORD", then the timestamp's last six characters, then the suffix, and these three parts can be read back |
| `Pricing.OrderNumberCollision` | app/api/order/route.ts:11-15 | two order numbers are equal exactly when the timestamps' last six characters and the suffixes are both equal |
| `Reservation.ReserveItem` | app/api/order/route.ts:45-110 | one iteration succeeds exactly when the item resolves and its product's current stock covers the quantity. Otherwise the error depends on where it stopped. A missing id or tag, or a quantity that is not positive, raises `InvalidItem` with the item. A tag that is not one of the four raises `InvalidCategory` with the tag. A product absent from its table raises `ProductNotFound` with the id. A found product with too little stock raises `InsufficientStock` with the name, available and requested counts |
| `Reservation.ReserveFrom` | app/api/order/route.ts:44-111 | a successful loop produces exactly one line per item, on top of the lines it started with |
| `Reservation.FirstFailure` | app/api/order/route.ts:44-76 | a failed loop reports its first failing item's error: the items before it all went through, and that item, checked against the stock they left, raised the error the loop returns |
| `Reservation.UnreferencedHasNoDemand` | app/api/order/route.ts:44-80 | a product that no item names is requested in quantity 0 |
| `Reservation.DemandNonNegative` | app/api/order/route.ts:47 | with every quantity positive, total demand is never negative, and a named product's demand is positive |
| `Reservation.StepFacts` | app/api/order/route.ts:47-80 | a successful iteration had a resolvable item whose product had enough stock; it decrements that product by the quantity and changes no other product |
| `Reservation.ReserveStockAt` | app/api/order/route.ts:44-80 | after the loop, each product's stock is its initial stock minus the total quantity requested of it. A named product had at least that total in stock, because a repeated product is checked against its already-decremented stock. No product appears or disappears |
| `Reservation.ReserveSucceedsIff` | app/api/order/route.ts:44-80 | the loop succeeds if and only if every item has an id, a known tag, a positive quantity and an existing product, and no product's total demand exceeds its initial stock |
| `Reservation.FailedStepInfeasible` | app/api/order/route.ts:47-76 | a list whose first item fails its own iteration is not feasible, so the loop over it cannot succeed either way |
| `Reservation.FeasibleAfterStep` | app/api/order/route.ts:74-80 | after one successful iteration, the remaining items are feasible against the decremented stock exactly when the whole list was feasible against the stock before it |
| `Reservation.SnapshotAfterStep` | app/api/order/route.ts:79-80 | an iteration changes only a stock count, so every other item resolves and is snapshotted as before it |
| `Reservation.SnapshotsAfterStep` | app/api/order/route.ts:79-80 | an iteration leaves the snapshots of all later items as they were before it |
| `Reservation.StepLine` | app/api/order/route.ts:103-110 | one iteration appends exactly the snapshot of its item's product, taken before its stock was decremented |
| `Reservation.SnapshotsAt` | app/api/order/route.ts:103-110 | entry j of a list's snapshots is the snapshot of item j |
| `Reservation.ReserveLines` | app/api/order/route.ts:44-111 | after a successful loop every item resolved, and the lines are the starting lines followed by the snapshot of each item's product, in input order |
| `Reservation.ReserveLineAt` | app/api/order/route.ts:100-110 | line j is the snapshot of item j's product: its code (or the fallback), category, name, quantity, selling price and weight |
| `Reservation.ReserveSubtotal` | app/api/order/route.ts:99-101 | the accumulated subtotal equals Σ priceAtOrder × quantity over the lines |
| `Reservation.ReserveLedgerAt` | app/api/order/route.ts:82-97 | each named product's ledger entry holds its final stock and the order time. An existing entry keeps its code, name and source. A new one gets the product code (or the fallback), the name and source "online". Other entries are untouched |
| `OrderPlacement.NewOrder` | app/api/order/route.ts:113-134 | the order's total is subtotal + delivery. Delivery is a whole multiple of the rate, for the least number of kg that holds the lines' weight. The status is "pending". It carries the given number, lines, subtotal, e-mail, customer name and phone, address and date |
| `OrderPlacement.PlaceOrderSpec` | app/api/order/route.ts:28-146 | every failure leaves the committed store exactly as it was; a success appends exactly one order and keeps the earlier ones |
| `OrderPlacement.RejectedRequestChangesNothing` | app/api/order/route.ts:30-36 | a request missing `userEmail`, `customerInfo`, `deliveryAddress` or an array `selectedItems` gets `MissingFields`; a complete one with no items gets `NoItemsSelected`; either way nothing changes |
| `OrderPlacement.PlaceOrderSucceedsIff` | app/api/order/route.ts:30-118 | an order is placed if and only if all of these hold: the request is complete and non-empty, every item resolves, no product is over-requested in total, and the address has a state |
| `OrderPlacement.MissingStateRefused` | app/api/order/route.ts:116 | a complete request whose items all go through, but whose address has no state, is refused with `MissingState` and changes nothing |
| `OrderPlacement.InfeasibleOrderError` | app/api/order/route.ts:44-76 | a complete request whose items are not feasible is refused with its first failing item's error (checked against the stock the earlier items left) and changes nothing |
| `OrderPlacement.PlacedOrderStock` | app/api/order/route.ts:44-80 | after a placed order each product's stock is its initial stock minus the total quantity ordered of it. An ordered product's stock is lower and not negative. Other products are unchanged |
| `OrderPlacement.PlacedOrderKeepsStockNonNegative` | app/api/order/route.ts:74-80 | if no product's stock was negative before an order, none is negative after it |
| `OrderPlacement.PlacedOrderLedgerInSync` | app/api/order/route.ts:82-97 | after a placed order each ordered product's ledger entry exists and equals the product's new stock; other entries are unchanged |
| `OrderPlacement.PlacedOrderContents` | app/api/order/route.ts:99-146 | the saved order contains: the generated number; status "pending"; the request's e-mail, customer name, phone and address; one snapshot line per item in input order; subtotal = Σ priceAtOrder × quantity; the weight-based delivery charge; total = subtotal + delivery. The response reports that number and total |
| `OrderPlacement.PlacedOrderPaysForWeight` | app/api/order/route.ts:109-117 | when no product has a negative weight, a placed order's lines weigh something. So it pays at least one kilogram's rate, and never more than the non-Gujarat price for the same weight |
| `OrderPlacement.Store.SaveProduct` | app/api/order/route.ts:79-80 | `product.save` changes only that product's document in its own collection |
| `OrderPlacement.Store.Rollback` | app/api/order/route.ts:151-157 | aborting restores the products, ledger and orders to what they were when the transaction opened |
| `OrderPlacement.Store.ReserveOne` | app/api/order/route.ts:45-110 | one pass validates, dispatches on the tag, checks stock, saves the product and upserts the ledger exactly as `ReserveItem` describes; on an error it writes nothing |
| `OrderPlacement.Store.ReserveAll` | app/api/order/route.ts:44-111 | the in-place loop ends in the state `ReserveFrom` computes, or on the first error with the store restored |
| `OrderPlacement.Store.PlaceOrder` | app/api/order/route.ts:17-177 | the handler's answer and final store equal `PlaceOrderSpec` on every input, so every failure leaves the store unchanged |

## Left out

- Database connection and the 503 answer when it is not ready (`dbConnect`, `readyState`). The model starts from a connected store.
- The session machinery: `startSession`, `startTransaction`, `commitTransaction`, `abortTransaction`, `endSession`. Errors from aborting or from ending the session are only logged and change no outcome. The transaction is modelled only as "commit the new state or keep the old one".
- Isolation between concurrent checkouts. It depends on the database, not on this code.
- `Date.now()`, `new Date()` and `Math.random()`. They become the `timestamp`, `now` and `suffix` parameters. The source calls `new Date()` separately for each write; the model uses one value for all of them.
- Uniqueness of order numbers. Nothing checks them against existing orders. `OrderNumberCollision` states exactly when two numbers coincide.
- Failures of the database itself: a malformed id that `findById` cannot cast, a schema or unique-index violation when the order is saved. Only lookup misses are modelled.
- JavaScript number and type coercion:
  - non-integer, `NaN` or string quantities;
  - fractional prices and weights;
  - fields of unexpected types.
  Quantities, prices, weights and stock are mathematical integers, with no overflow.
- Non-ASCII case mapping in `toLowerCase`/`toUpperCase`. Only ASCII letters change case. No non-ASCII character lower-cases to one of the letters of "gujarat", so the state comparison is the same as the source's.
- HTTP response shaping: status codes, the `details` text and the success message. Logging is left out too.
