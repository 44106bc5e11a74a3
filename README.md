# Restaurant point of sale — a verified model of the renderer's core

The renderer of this desktop point-of-sale application (`src/renderer/js/app.js`) keeps a
draft order for the selected table (`currentOrder`: table, lines, total) and a selected
cashier. It moves data between that draft and four document collections: products,
orders, tables and settings. The operations are:

- building the draft (`selectTable`, `addToOrder`, `updateItemQuantity`, `removeFromOrder`);
- turning the draft into an active order that occupies its table and takes stock
  (`completeOrder`);
- taking payment for a table (`processPayment`);
- administration (stock updates, adding, deleting and clearing);
- the summary page's reports (period summary, top five products, sales chart).

The model has these modules:

- `Records`: the documents and the outcome of every operation.
  - Prices and totals are integers in minor units (kuruş).
  - Each error is one of the messages the source shows.
- `Totals`: the `reduce` folds over the lines.
- `Draft`: the three draft edits, as functions on the line list, with lemmas about them.
- `Store`:
  - the collections, held in memory as maps keyed by document identifier, inside the
    class `Database`;
  - the store updates the operations make;
  - an occupancy invariant: a table is occupied exactly when it has an active order.
- `App`: the class `Pos`, whose fields are the renderer's globals. Its methods are the
  operations, and each method is proved against the `Draft` and `Store` functions.
- `Tally`: a JavaScript object used as a dictionary of sums, as an association list in
  key-insertion order.
- `Reports`: the report computations. Each loop is a method, proved against a fold
  function, and lemmas state what the folds mean.
- `Chart`: the chart intervals, and the monthly chart's bucketing (see Findings).

Effects the model takes as parameters:

- A store call can fail. The parameter `faults: set<Call>` lists the calls that report an
  error, and the model follows each callback chain step by step.
- The clock is a parameter `now`.
- Order dates enter the reports through a label function, `labelOf`, `dayOf` or `hourOf`
  depending on the chart.
- New identifiers come from a counter in `Database`.

Where the design description and the code disagree, the model follows the code:

- Table numbers are described as unique, but the add-table handler stores any number
  (`app.js:697-703`).
- Deleting an occupied table is described as forbidden. `deleteTable` does not check
  this; the only guard is the disabled button drawn at `app.js:792`. So
  `App.Pos.DeleteTable` removes any table, and the lemma shows that occupancy is kept anyway.
- Stock is described as never negative. `completeOrder` decrements it without a
  clamp, so `Store.DecrementedStock` allows negative stock.

## Model

| member | source | states |
|---|---|---|
| Totals.SumUpdate | src/renderer/js/app.js:78-81 | changing one line changes the draft total by the difference of the two line totals |
| Totals.AbsentProduct | src/renderer/js/app.js:64 | a product with no line has quantity and subtotal 0 |
| Totals.SingleLine | src/renderer/js/app.js:64-67 | with unique product ids, a product's quantity and subtotal are those of its one line |
| Draft.Find | src/renderer/js/app.js:64 | the index found is the first line with that product id; none is found only when no line has it |
| Draft.AddedLines | src/renderer/js/app.js:64-81 | adding a product raises its quantity by exactly 1 and leaves every other product's quantity alone; a new line copies the product's id, name and price with quantity 1 and is appended; the total rises by that line's price; unique ids and positive quantities are kept |
| Draft.WithQuantityLines | src/renderer/js/app.js:157-163 | setting quantity q changes only the product's line, which gets quantity q; an unknown product changes nothing; the total changes by price × (q − old quantity); other products keep their quantities; unique ids are kept, and so are positive quantities when q > 0 |
| Draft.WithoutTotals | src/renderer/js/app.js:170-174 | after removal the product's quantity is 0, other products' quantities are unchanged, and the total drops by the product's subtotal |
| Draft.WithoutMembers | src/renderer/js/app.js:170 | the remaining lines are exactly the lines of other products; removing an absent product changes nothing |
| Draft.WithoutKeepsUnique | src/renderer/js/app.js:170 | removal keeps product ids unique |
| Draft.WithoutKeepsPositive | src/renderer/js/app.js:170 | removal keeps every quantity at least 1 |
| Store.SetStatus | src/renderer/js/app.js:206-210 | `$set: { status }` on one table: the same keys, that table's status is replaced, and every other table is unchanged |
| Store.SetStock | src/renderer/js/app.js:902-906 | `$set: { stock }` on one product: the same keys, only that product's stock changes, and every other product is unchanged |
| Store.DecrementedStock | src/renderer/js/app.js:219-224 | after the per-line `$inc` each product keeps its other fields, and its stock drops by the total quantity of its lines, possibly below zero |
| Store.PayTableEffect | src/renderer/js/app.js:297-306 | the multi-update pays every active order of the table (paid status, cashier, paid time; lines and total untouched), leaves every other order unchanged, leaves the table no active order, does not change which other tables have one, and keeps order totals equal to their line sums |
| Store.CompleteKeepsOccupancy | src/renderer/js/app.js:201-212 | storing an active order and marking its table occupied keeps the occupancy invariant |
| Store.PayKeepsOccupancy | src/renderer/js/app.js:297-316 | paying a table's orders and marking it free keeps the occupancy invariant |
| Store.NewTableKeepsOccupancy | src/renderer/js/app.js:697-703 | a new free table that no order refers to keeps the occupancy invariant |
| Store.InsertWithoutTableUpdate | src/renderer/js/app.js:201-216 | when the order is stored but the table update fails, a free table has an active order and the invariant is broken |
| Store.PayWithoutTableUpdate | src/renderer/js/app.js:297-316 | when orders are paid but the table update fails, an occupied table has no active order and the invariant is broken |
| Store.Database.InsertOrder | src/renderer/js/app.js:201 | the order is stored under a fresh identifier; the other collections are unchanged |
| Store.Database.InsertTable | src/renderer/js/app.js:703 | the table is stored under a fresh identifier that no order refers to; the other collections are unchanged |
| Store.Database.UpdateTableStatus | src/renderer/js/app.js:206-210 | the tables become `SetStatus` of the old tables; nothing else changes |
| Store.Database.UpdateStock | src/renderer/js/app.js:902-906 | the products become `SetStock` of the old products; nothing else changes |
| Store.Database.IncrementStock | src/renderer/js/app.js:220-223 | one product's stock rises by delta, which is negative for the decrements; nothing else changes |
| Store.Database.DecrementStock | src/renderer/js/app.js:219-224 | the loop applies each line's decrement in turn: the products become `Decremented` of the old products; nothing else changes |
| Store.Database.FindActive | src/renderer/js/app.js:287 | the result holds exactly the table's active orders; it is empty exactly when the table has none |
| Store.Database.PayActive | src/renderer/js/app.js:297-306 | the orders become `PayTable` of the old orders; nothing else changes |
| Store.Database.RemoveTable | src/renderer/js/app.js:825 | the table's key is removed; nothing else changes |
| Store.Database.RemoveAll | src/renderer/js/app.js:1383-1385 | each chosen collection becomes empty; settings are never touched |
| App.Pos.constructor | src/renderer/js/app.js:23-27 | the draft starts with no table, no lines and total 0; no cashier is selected (line 257) |
| App.Pos.SelectTable | src/renderer/js/app.js:30-44 | selecting a stored table changes only the table id; lines, total and cashier carry over; an unknown id changes nothing |
| App.Pos.AddToOrder | src/renderer/js/app.js:47-85 | the errors in order: no table, product not found or lookup error, stock ≤ 0; each leaves the draft unchanged; otherwise the lines become `Added` and the total is their sum; unique ids and positive quantities hold |
| App.Pos.UpdateItemQuantity | src/renderer/js/app.js:151-166 | q ≤ 0 removes the product's line exactly as `removeFromOrder` does; q > 0 sets the quantity with `WithQuantity`; the total stays the sum of the lines; no stock is consulted |
| App.Pos.RemoveFromOrder | src/renderer/js/app.js:169-176 | the lines become `Without` the product, and the total is their sum |
| App.Pos.CompleteOrder | src/renderer/js/app.js:179-233 | see below the table |
| App.Pos.SelectCashier | src/renderer/js/app.js:260-261 | the selected cashier is set; the draft is unchanged |
| App.Pos.ProcessPayment | src/renderer/js/app.js:281-333 | see below the table |
| App.Pos.UpdateStock | src/renderer/js/app.js:896-919 | NaN or a negative value is refused with no change; a store error changes nothing; otherwise only that product's stock field is set |
| App.Pos.AddTable | src/renderer/js/app.js:694-712 | a table with the given number and status free is stored under a fresh identifier, with no uniqueness check; an insert error changes nothing; occupancy is kept |
| App.Pos.DeleteTable | src/renderer/js/app.js:820-833 | any table is removed whatever its status; a store error changes nothing; orders are untouched; occupancy is kept |
| App.Pos.ClearDatabase | src/renderer/js/app.js:1377-1391 | products, orders and tables are each emptied unless their own removal fails; errors are ignored; settings and the draft stay |
| Tally.IndexOf | src/renderer/js/app.js:1013 | the position found holds the key; no position is found only when the key is absent |
| Tally.AddSpec | src/renderer/js/app.js:1013 | adding v under k: the keys are the old keys plus k, in the same order, and stay unique; a new key goes last; k's value rises by v and no other key's changes; the sum of values rises by v |
| Tally.AddKeys | src/renderer/js/app.js:1013 | adding under k: the keys are the old keys plus k, in the same order; a new key goes last |
| Tally.AddSum | src/renderer/js/app.js:1013 | adding v under k raises the sum of the values by v |
| Tally.AddGet | src/renderer/js/app.js:1013 | with unique keys, adding v under k keeps keys unique, raises k's value by v and no other key's |
| Tally.EntryIsGet | src/renderer/js/app.js:1043 | with unique keys, each entry `Object.entries` lists is what a lookup of its key returns |
| Reports.Matching | src/renderer/js/app.js:996-999 | the query keeps exactly the paid orders created at or after the start |
| Reports.CashierSalesKeys | src/renderer/js/app.js:1010-1015 | each cashier is listed once, and exactly when some order carries that non-empty name |
| Reports.CashierSalesGet | src/renderer/js/app.js:1010-1015 | a cashier's sum is the total of exactly the orders that carry that name |
| Reports.CashierSalesSum | src/renderer/js/app.js:1005-1015 | the listed sums plus the orders with no cashier make up the total sales |
| Reports.CashierSalesSpec | src/renderer/js/app.js:1010-1015 | each cashier is listed once, and exactly when some order carries that non-empty name; the cashier's sum is the total of their orders; the listed sums plus the orders with no cashier make up the total sales |
| Reports.CashierSalesBounded | src/renderer/js/app.js:1005-1015 | with non-negative totals the per-cashier sums add up to at most total sales |
| Reports.Average | src/renderer/js/app.js:1007 | the average is 0 when there is no order, and otherwise average × count = total |
| Reports.PeriodSummary | src/renderer/js/app.js:1005-1015 | the loop computes total sales, count, average and exactly the per-cashier tally; with non-negative totals the tally's sum is at most total sales |
| Reports.ItemSalesSpec | src/renderer/js/app.js:1069-1071 | tallying one order's lines keeps names unique, adds exactly its line names, and raises each name's sum by its quantity on those lines |
| Reports.ProductSalesSpec | src/renderer/js/app.js:1067-1072 | the product tally is keyed by item name, lists each name once and exactly when some line carries it, and holds its total quantity sold |
| Reports.InsertMultiset | src/renderer/js/app.js:1074-1075 | inserting adds exactly that entry |
| Reports.InsertSorted | src/renderer/js/app.js:1074-1075 | inserting into a non-increasing list keeps it non-increasing |
| Reports.SortDescSpec | src/renderer/js/app.js:1074-1075 | sorting by `b - a` yields a permutation of the entries, in non-increasing order of value |
| Reports.TopFiveSpec | src/renderer/js/app.js:1074-1076 | the top list has min(5, n) entries, all from the tally, in non-increasing order; no entry left out has a larger value than any listed |
| Reports.TopProducts | src/renderer/js/app.js:1067-1076 | the nested loops build exactly the product tally, and the result is its top five |
| Reports.InitBucketsKeys | src/renderer/js/app.js:1109-1111 | one bucket per distinct label, listed once |
| Reports.InitBucketsZero | src/renderer/js/app.js:1109-1111 | every bucket starts at 0 |
| Reports.InitBucketsSpec | src/renderer/js/app.js:1109-1111 | one bucket per distinct label, each 0 |
| Reports.InitBucketsOrder | src/renderer/js/app.js:1109-1111 | with distinct labels the buckets come in the labels' order, one per label |
| Reports.BucketedSpec | src/renderer/js/app.js:1113-1119 | the orders loop keeps the buckets and their order; each bucket gains the total of the orders with its label; orders with another label are dropped |
| Reports.ChartSpec | src/renderer/js/app.js:1108-1119 | the chart's buckets are exactly the labels; each holds the total of the orders with that label; the chart sums to the total of the orders whose label is a bucket |
| Reports.ChartBucket | src/renderer/js/app.js:1113-1119 | a bucket's value is the total of any filter that selects exactly the orders with its label |
| Reports.ChartSum | src/renderer/js/app.js:1113-1119 | the chart's sum is the total of any filter that selects exactly the orders whose label is a bucket |
| Reports.SalesChart | src/renderer/js/app.js:1108-1123 | the two loops build exactly the chart tally; the drawn labels and data are its keys and values, paired in order |
| Chart.ChartIntervals | src/renderer/js/app.js:1183-1235 | the interval offsets: 24 hours 23…0, 7 days 6…0, the 6 days 29, 24, 19, 14, 9, 4 back, and 12 months 11…0 |
| Chart.DailyChartComplete | src/renderer/js/app.js:1191-1198 | every hour 0–23 is a daily bucket, so the daily chart accounts for every order (label rule at line 1241) |
| Chart.MonthlyChartMissesToday | src/renderer/js/app.js:1213-1220 | as written, an order placed today is in no monthly bucket (label rule at line 1245) |
| Chart.MonthlyChartAsWritten | src/renderer/js/app.js:1213-1220 | as written, the monthly chart holds only the orders placed on the six labelled days |
| Chart.MonthlyBucket | src/renderer/js/app.js:1213-1220 | corrected: every day of the last 30 maps to the labelled day that starts its five-day span; other days map to no label |
| Chart.MonthlyChartCorrected | src/renderer/js/app.js:1213-1220 | corrected: each monthly bucket holds exactly the orders of its five days, and the chart sums to the total of the last 30 days |
| Chart.MonthlyChartComplete | src/renderer/js/app.js:1213-1220 | corrected: a monthly chart over orders of the last 30 days accounts for all of them |

`App.Pos.CompleteOrder` states:

- The errors come in order: no table or no lines; lookup error or table missing; insert
  error; table-update error.
- The first two store nothing, and neither does an insert error.
- A table-update error leaves the new active order stored.
- Every error keeps the draft; the tables and the stock stay as they were.
- On success:
  - exactly one new order is stored under a fresh identifier: active, with the draft's
    table id, lines and total, and the table's number;
  - the table is occupied;
  - each product's stock becomes `Decremented`;
  - the draft is reset to no table, no lines, total 0;
  - occupancy and the order totals are kept.

`App.Pos.ProcessPayment` states:

- The errors come in order: no cashier; an error loading the orders; no active order; an
  update error; a table-update error.
- The first four change nothing.
- A table-update error leaves the orders paid.
- On success the table's orders become `PayTable` and the table is free.
- The draft, the products and the settings are not touched.
- Occupancy and the order totals are kept.

## Left out

- Rendering is left out: the page loaders, the table and menu grids, the filters, the
  cashier buttons' styling, `updateActiveOrder` and the `showMessage` toasts. They only
  draw and do not change state. Each error in the model corresponds to one toast message.
- The NeDB callbacks are modelled as one sequential chain of steps.
  - Concurrency between callbacks is not modelled.
  - The stock decrements at `app.js:219-224` are not awaited and report no error. The
    model applies them one after another and lets each one succeed.
- Date arithmetic, the clock and the locale are left out: `getStartDate`, the `Date`
  objects of `getChartIntervals`, `getIntervalLabel` and `toLocaleDateString`. The reports
  take the query's result as their input. The chart takes an order's label as a function
  parameter, and `Chart` uses day and hour numbers as labels.
- Weekly and yearly label collisions are not modelled. An order from seven days ago, or
  from the same month a year ago, gets the label of a current bucket. This falls out of
  the label function passed in, so the model does not single it out.
- `formatPrice` and floating-point prices are left out, because amounts are integers in
  minor units.
- Reports.Average: the model divides exactly in `real`. JavaScript's floating-point
  rounding of the quotient is not modelled.
- App.Pos.UpdateStock: `parseInt` is not modelled; the method takes the already-parsed
  value, with `None` for NaN.
- App.Pos.AddTable: `parseInt` is not modelled; the method takes an integer table number,
  so a NaN number is not modelled.
- The confirmation and prompt dialogs are left out, because they are browser I/O. Each
  operation is modelled after the user has confirmed, and cancelling amounts to not
  calling it.
- Also left out, as I/O and browser APIs: `backupDatabase`, image reading, the product
  form (`saveProduct`), `deleteProduct`, the settings form, and the recent-order and
  table-status panels.
- The store's deep copy on insert is not modelled; the model's values are immutable
  anyway.
- Reports.SortDescSpec: it does not state that the sort is stable. `Insert` places an
  entry after the equal ones, but the order among ties is not proved.
- Tally: JavaScript objects list integer-like keys first. Keys that collide with
  `Object.prototype` names are a further case. The model keeps every key in insertion
  order and ignores both.
- Identifiers are natural numbers drawn from a counter. NeDB's random string `_id`s are
  modelled only by being fresh.

## Findings

| source | as written | input that shows it | evidently intended | confidence | as-written member | corrected member |
|---|---|---|---|---|---|---|
| src/renderer/js/app.js:1213-1220, 1245 | the monthly chart has six buckets labelled with the exact dates 29, 24, 19, 14, 9 and 4 days ago; an order's label is its own date, so only orders placed on exactly those six days are counted | a paid order placed today with a positive total; the chart sums to 0 | six five-day buckets that cover the last 30 days, so every order in that window is counted | not executed | Chart.MonthlyChartMissesToday | Chart.MonthlyChartCorrected |
