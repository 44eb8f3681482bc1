# Order controller: a verified model

This project models the write paths and the listing reduce of the order
controller of a small order-management service (a Node.js service on a MySQL
pool):

- **createOrder** takes a connection from the pool and opens a transaction. It
  looks up the highest `order_no` of today, numbers the new order one higher
  (or 1), and computes `order_total` as Σ price × count rounded to two
  decimals. It then inserts a `pending` `order_master` row and one
  `order_cart` row per cart item (`insertCartItems`), and commits. Every
  failure after the transaction began goes through `rollbackWithError`: roll
  back, release the connection, reject with code 500 and a step-specific
  message.
- **markOrderAsDone** and **markOrderAsClose** read the order's status and
  reject when the order is missing or not in the expected status. Otherwise
  they update the status (`pending → done`, `done → completed`) and commit,
  with the same rollback path.
- **The listing reduce** (shared by the pending and done listings) folds
  joined header × cart rows into one order per `order_id`, in the order ids
  are first seen, each with its cart items in row order.

Modules:

- `OrderTypes` holds the shared values: table rows, cart items, results,
  rejections, and the `Fault` value naming which driver call fails.
- `Pricing` holds the total.
- `OrderNumber` holds the daily order number.
- `OrderStatus` holds the status column's lookup, update and state machine.
- `OrderStore` holds the `Database` class:
  - the two tables and the AUTO_INCREMENT counter;
  - the open transaction with its rollback snapshot;
  - counts of connections acquired and released;
  - one method per driver call.
- `OrderController` holds the controller's methods.
- `OrderGrouping` holds the reduce, with an independent description of its
  result.

Conventions of the model:

- Money is exact. Cart prices are integers in thousandths of the currency
  unit. Totals are integers in hundredths.
- Each driver callback's error is a `Fault` parameter.
- "Today" is a parameter.
- `Database.Valid()` is the invariant between two controller calls: no open
  transaction, as many releases as acquisitions, and consistent tables. The
  tables are consistent when:
  - `order_id` is a key below AUTO_INCREMENT;
  - `order_no` is at least 1 and unique within a day;
  - every cart row has its order.

Three points of the code that the model follows:

- Every live rejection carries code 500 (src/controllers/orders/orderController.js:207-214), including "Order not
  found" and the failed status guard. Only a commented-out variant of
  markOrderAsClose uses 404 and 400.
- An empty cart is accepted: the route checks only that `cartItems` is an
  array (src/routes/orders/orderRoutes.js:15). It gives an order with total 0
  and no cart rows.
- `toFixed(2)` (src/controllers/orders/orderController.js:48) rounds to the nearest hundredth, with a tie going away
  from zero. It does not truncate.

## Model

| member | source | states |
|---|---|---|
| Pricing.RoundToHundredths | src/controllers/orders/orderController.js:41-49 | the result, times 10, is within half a step of the amount; ties round away from zero on both signs |
| Pricing.RawTotal | src/controllers/orders/orderController.js:42-47 | the reduce `sum + price * count` from 0, left to right over the cart |
| Pricing.OrderTotal | src/controllers/orders/orderController.js:41-49 | the stored total: the exact sum rounded to the nearest hundredth, within half a hundredth of it, ties away from zero |
| Pricing.RawTotalAppend | src/controllers/orders/orderController.js:42-47 | the reduce's sum over a concatenation is the sum of the two parts |
| Pricing.RawTotalIsSumOfLines | src/controllers/orders/orderController.js:42-47 | every item's price × count enters the sum exactly once |
| Pricing.WholeHundredthsTotalIsExact | src/controllers/orders/orderController.js:41-49 | when every price is a whole number of hundredths, rounding loses nothing: 10 × total == exact sum |
| Pricing.TotalNonNegative | src/controllers/orders/orderController.js:41-49 | non-negative prices and counts give a non-negative sum and total |
| OrderNumber.LatestOrderNo | src/controllers/orders/orderController.js:27-30 | the day's highest order_no: None iff the day has no order; otherwise it is some order's number of that day and no order of that day has a larger one |
| OrderNumber.LatestOrderRows | src/controllers/orders/orderController.js:27-30 | the lookup's result rows: none for a day without orders, else the one highest order_no |
| OrderNumber.NextOrderNo | src/controllers/orders/orderController.js:39-40 | the new number exceeds every number of the day; it is 1 when the day has no order, and otherwise one more than an existing number of that day |
| OrderNumber.NextOrderNoPositive | src/controllers/orders/orderController.js:39-40 | when all stored numbers are at least 1, so is the next |
| OrderNumber.LargerNumberKeepsDayNumbersUnique | src/controllers/orders/orderController.js:39-53 | inserting an order numbered above its day's numbers keeps (day, order_no) unique |
| OrderNumber.NextOrderNoAfterInsert | src/controllers/orders/orderController.js:39-53 | after storing the numbered order, the same day's next number is one higher and other days' are unchanged (orders of a day run 1, 2, 3, …) |
| OrderNumber.StaleReadRepeatsNumber | src/controllers/orders/orderController.js:27-53 | two creations that read the day before either inserts take the same number and break per-day uniqueness |
| OrderStatus.OrderIndex | src/controllers/orders/orderController.js:238-250 | the position of the first row with the id, or -1 exactly when no row has it |
| OrderStatus.FindOrder | src/controllers/orders/orderController.js:238-254 | `results[0]` of the SELECT by id: a row with that id from the table, or None exactly when no row has the id |
| OrderStatus.SetStatus | src/controllers/orders/orderController.js:263-265 | the table after `UPDATE ... SET status WHERE order_id = ?`: matching rows take the new status, all else unchanged |
| OrderStatus.MatchingRows | src/controllers/orders/orderController.js:263-267 | affectedRows of the UPDATE: 0 iff no row has the id, never more than the rows |
| OrderStatus.ProgressesByAppend | src/controllers/orders/orderController.js:51-53 | appending a new order changes no existing order |
| OrderStatus.ProgressesTransitive | src/controllers/orders/orderController.js:216-297 | a table that keeps the orders of `a`, followed by one progressing call, still keeps every order of `a` with every column but status unchanged, and no status moved backwards |
| OrderStatus.ProgressesRun | src/controllers/orders/orderController.js:480-561 | over any run of progressing calls, every order of the first table is kept in place with every column but status unchanged, and no status moves backwards |
| OrderStatus.OnlyMatch | src/controllers/orders/orderController.js:238-254 | with order_id unique, the row the SELECT returns is the only row with that id |
| OrderStatus.GuardedUpdateProgresses | src/controllers/orders/orderController.js:250-265 | a guarded update from `from` to the next status moves only that order, by one step |
| OrderStatus.UpdatedOrderFound | src/controllers/orders/orderController.js:263-265 | after the UPDATE the order reads back with the new status and its other columns |
| OrderStore.Database.GetConnection | src/controllers/orders/orderController.js:5-12 | a successful getConnection counts one acquisition |
| OrderStore.Database.Release | src/controllers/orders/orderController.js:74 | release counts one release |
| OrderStore.Database.BeginTransaction | src/controllers/orders/orderController.js:14-22 | a successful begin opens the transaction with the current tables as the rollback snapshot |
| OrderStore.Database.Commit | src/controllers/orders/orderController.js:66-73 | a successful commit closes the transaction and keeps the writes |
| OrderStore.Database.Rollback | src/controllers/orders/orderController.js:208 | rollback restores the snapshot and closes the transaction; AUTO_INCREMENT is not given back |
| OrderStore.Database.SelectLatestOrderNo | src/controllers/orders/orderController.js:27-30 | the lookup returns no row or the day's highest order_no |
| OrderStore.Database.InsertOrderMaster | src/controllers/orders/orderController.js:51-55 | the header gets the next AUTO_INCREMENT id, which becomes insertId unless the driver omits it |
| OrderStore.Database.InsertOrderCart | src/controllers/orders/orderController.js:194-196 | a successful insert appends exactly the given cart row |
| OrderStore.Database.SelectOrder | src/controllers/orders/orderController.js:502-505 | the first row with the id, or none |
| OrderStore.Database.UpdateStatus | src/controllers/orders/orderController.js:525-529 | sets the status of every row with the id and reports how many there were |
| OrderController.CartRowsAt | src/controllers/orders/orderController.js:190-205 | one order_cart row per item, in cart order: (order id, product_id, quantity = count, price) |
| OrderController.CartRowOf | src/controllers/orders/orderController.js:195-196 | the order_cart row for one item: (order id, product_id, quantity = count, price) |
| OrderController.InsertedRows | src/controllers/orders/orderController.js:190-205 | the rows left by the cart inserts when item `failing` fails: one per other item, all with the order id, one fewer than the items when the failing index is in range |
| OrderController.CartRows | src/controllers/orders/orderController.js:190-205 | the rows of a fully successful insertCartItems |
| OrderController.CreateFailureMessage | src/controllers/orders/orderController.js:10-101 | createOrder's reject message for each failing step |
| OrderController.TransitionFailureMessage | src/controllers/orders/orderController.js:216-297 | a transition's reject message: connection, begin, lookup, not found, guard, update, then commit, in the source's order |
| OrderController.InsertedRowsWithoutFailure | src/controllers/orders/orderController.js:190-205 | with no failing insert in range, every item's row is inserted |
| OrderController.CreatedTablesConsistent | src/controllers/orders/orderController.js:39-64 | adding the new header (next id, number above its day's) and its cart rows keeps the tables consistent |
| OrderController.ConsistentUnderLargerBound | src/controllers/orders/orderController.js:54-61 | an id handed out and rolled back leaves the tables consistent |
| OrderController.StatusUpdateConsistent | src/controllers/orders/orderController.js:263-267 | a status update keeps keys, numbers, days and cart rows consistent |
| OrderController.RollbackWithError | src/controllers/orders/orderController.js:207-214 | rolls back to the snapshot, releases the connection once, rejects with 500 and the message |
| OrderController.InsertCartItems | src/controllers/orders/orderController.js:190-205 | fails iff some item's insert fails; every non-failing item's row is appended in cart order |
| OrderController.CreateOrder | src/controllers/orders/orderController.js:3-107 | succeeds iff no step fails; on success the receipt carries the next id, NextOrderNo and OrderTotal, and the tables gain exactly the pending header and its cart rows; on failure the tables are unchanged and the rejection is 500 with that step's message; the connection is released exactly once when one was taken; AUTO_INCREMENT advances iff the header insert ran; no existing order changes |
| OrderController.CreateInTransaction | src/controllers/orders/orderController.js:24-49 | the same contract from the open transaction on: lookup, then number and total, then insert |
| OrderController.InsertOrder | src/controllers/orders/orderController.js:51-64 | header insert: a failure or a missing insertId rolls back with "Error inserting into order_master" |
| OrderController.InsertCartAndCommit | src/controllers/orders/orderController.js:64-92 | cart inserts then commit; either failing restores the snapshot with its own message; the connection is released on every path |
| OrderController.Transition | src/controllers/orders/orderController.js:216-297 | succeeds iff no driver step fails and the order exists with status `from`; on success only that order's status becomes `to`; on failure the tables are unchanged and the rejection is 500 with the first failing check's message; released exactly once |
| OrderController.TransitionInTransaction | src/controllers/orders/orderController.js:237-260 | the transition from the open transaction on: read, guard, update |
| OrderController.CheckAndUpdate | src/controllers/orders/orderController.js:250-292 | "Order not found" when there is no row, the guard message when the status is not `from`, otherwise update and commit |
| OrderController.UpdateAndCommit | src/controllers/orders/orderController.js:263-290 | a failed or empty UPDATE rolls back with "Failed to update order status"; a failed commit with "Transaction commit failed" |
| OrderController.MarkOrderAsDone | src/controllers/orders/orderController.js:216-297 | pending → done, and only from pending, with its own lookup and guard messages |
| OrderController.MarkOrderAsClose | src/controllers/orders/orderController.js:480-561 | done → completed, and only from done; answers with the id and the order_no read before the update |
| OrderGrouping.FindGroup | src/controllers/orders/orderController.js:165 | `acc.find` by order_id: the first group with the id, or -1 when none has it |
| OrderGrouping.Accumulate | src/controllers/orders/orderController.js:165-180 | one reducer step: find the row's group, push a new one for an unseen id, push the row's item onto it |
| OrderGrouping.GroupByOrder | src/controllers/orders/orderController.js:153-181 | the reduce from `[]` over the rows in order, as in the pending listing and again at 343-371 |
| OrderGrouping.FirstRow | src/controllers/orders/orderController.js:153-181 | the first row with an id, or -1 when none has it |
| OrderGrouping.SeenIdsCover | src/controllers/orders/orderController.js:153-181 | the listed ids are exactly the ids that occur in the rows |
| OrderGrouping.SeenIdsAreFirstSeen | src/controllers/orders/orderController.js:153-181 | the listed ids are distinct and ordered by first occurrence |
| OrderGrouping.NoRowsNoItems | src/controllers/orders/orderController.js:179 | an id with no row has no items |
| OrderGrouping.AppendRowKeepsFirstRows | src/controllers/orders/orderController.js:153-181 | a new row moves no first row and adds an item to its own id only |
| OrderGrouping.ExpectedOfOtherId | src/controllers/orders/orderController.js:153-181 | a new row leaves every other id's group as it was |
| OrderGrouping.AccumulateOpens | src/controllers/orders/orderController.js:167-179 | a row of an unseen id pushes a new group holding its item |
| OrderGrouping.AccumulateJoins | src/controllers/orders/orderController.js:165-179 | a row of a seen id adds its item to that group only |
| OrderGrouping.AccumulateNewId | src/controllers/orders/orderController.js:165-180 | a step with an unseen id keeps the accumulator the grouping of the rows so far |
| OrderGrouping.AccumulateSeenId | src/controllers/orders/orderController.js:165-180 | a step with a seen id keeps the accumulator the grouping of the rows so far |
| OrderGrouping.GroupByOrderSnoc | src/controllers/orders/orderController.js:153-181 | one more row is one more reduce step |
| OrderGrouping.GroupByOrderIsGrouping | src/controllers/orders/orderController.js:153-181 | one group per distinct id in first-seen order, with the header of its first row and the items of all its rows in row order, however the rows interleave |
| OrderGrouping.InterleavedRowsGroupById | src/controllers/orders/orderController.js:343-371 | rows of orders 1, 2, 1 give order 1 with both items, then order 2 |
| OrderGrouping.TotalItemsUpdate | src/controllers/orders/orderController.js:179 | replacing one group changes the item count by the difference |
| OrderGrouping.GroupedItemCount | src/controllers/orders/orderController.js:343-371 | the number of items over all groups equals the number of rows |
| OrderGrouping.GroupRows | src/controllers/orders/orderController.js:153-181 | the loop over the result rows with its linear find computes GroupByOrder |

## Left out

- Floating point: prices and counts are exact integers (prices in thousandths), so `parseFloat` and binary rounding error before `toFixed(2)` are not modelled. Pricing.RoundToHundredths rounds the exact sum.
- Concurrency is left out; every call runs to completion before the next. The race between two createOrder calls on the same day is only exhibited (OrderNumber.StaleReadRepeatsNumber). Per-day uniqueness is claimed for serial runs only.
- Concurrent transitions: the status SELECT of markOrderAsDone and markOrderAsClose takes no row lock, so two interleaved calls can both pass the guard, and a stale `done` UPDATE could overwrite `completed`. OrderStatus.Progresses, and the transition contracts that establish it, are claimed for serial runs only.
- OrderController.InsertCartItems: the inserts that `Promise.all` issues at once are modelled in cart order. When one fails, the others still go through before the rollback discards them all.
- OrderController.UpdateAndCommit: with the order found in the same transaction, the UPDATE changes a row. `affectedRows === 0` is reached only through the `ZeroAffectedRows` fault, which stands for a concurrent delete.
- A failing `connection.rollback` is not modelled. Its callback releases the connection either way.
- The synchronous `catch` around the createOrder lookup ("Unexpected error while creating order") is not modelled. The code in that `try` only issues a callback query and formats the date.
- The clock: `new Date().toISOString()` becomes the `today` parameter.
- getPendingOrders and getDoneOrders: the connection handling and the SQL join, filter and ordering that produce the rows are not modelled. Their reduce is, over the rows as given.
- The commented-out earlier markOrderAsClose is not modelled.
- Routes, sockets, the product and category controllers and the pool configuration are not part of this model.
- Column types: MySQL's DECIMAL storage of totals and prices, and the string form `Number(order_no)` parses, are not modelled.
