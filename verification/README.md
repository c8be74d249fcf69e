# Order data-access layer, modelled in Dafny

This project models the data-access core of a small order-management backend:
the order document's schema, its CRUD operations, two status queries, the
total-sales aggregation, and the helper that turns an optional start and end
date into a filter on an order's `createdAt`. The document store is an
immutable map from store-assigned ids to orders, and the menu-items
collection is a price table.

Modules, one per concern:

- `Wrappers` (`wrappers.dfy`): `Option` and `Result`.
- `DateRange` (`date_range.dfy`): the date-range helper, the filter conditions
  it and the queries build, and the inclusive membership test `Matches`.
- `Orders` (`orders.dfy`): the status enum and its default, the stored
  `Order`, the creating `Body`, schema validation with error paths, and the
  static `calcTotal` (`CalcTotal`).
- `OrderStore` (`order_store.dfy`): the store, `find`, `getAll`, `getStatus`,
  `getByStatus`, `getOne`, `create`, `update` and `remove`.
- `OrderSales` (`order_sales.dfy`): `getTotalSales` as its pipeline stages
  (match, unwind, lookup/multiply, group/sum), with lemmas tying it to
  per-order sales, to `calcTotal`, and to `create`, `remove` and `update`.

Modelling choices:

- Dates are integer timestamps. A date argument is `Missing` (undefined or
  null), `EmptyText`, `Text(t)` (a non-empty date string) or `Number(n)`.
  JavaScript truthiness decides whether a bound is used. So the number 0 adds
  no bound, while a date string for the same instant does.
- The stored `status` is a string. Validators run on `create` only.
  `findByIdAndUpdate` is called without `runValidators`, so `update` stores
  whatever status or field values the patch gives
  (`OrderStore.UpdateSkipsValidation` exhibits it).
- A required string must be present and non-empty, as the store's required
  validator for strings demands.
- Ids come from a counter held in the store (`nextId`). `Valid` says every
  stored id is below the counter, and every operation preserves it.
  Insertion order is ascending id order. `getTotalSales` visits the ids
  below the counter in that order. In a store that satisfies `Valid`, which
  is every store the operations produce from `EmptyStore`, those are all
  the stored ids (`OrderSales.MatchedCoversFind`). The result is a sum, so
  the visiting order is immaterial.
- A line whose menu item is absent, or has no price, contributes nothing to
  the total. The product of a missing price is null, and the sum skips nulls.
- `remove` on an absent id deletes nothing and then fails when it reads `id`
  of null. The model returns `Failure(ReadIdOfNull)` with the store unchanged.
- `update` never refreshes `updatedAt` unless the patch sets it.
- The current time is a parameter (`now`) of `create`.

## Model

| member | source | states |
|---|---|---|
| DateRange.QueryDateRange | helpers/queryDateRange.js:1-10 | the only key ever produced is `createdAt`; it is present iff some bound is truthy; it carries `$gte` iff the start is truthy and `$lte` iff the end is truthy, each holding that argument's timestamp |
| DateRange.Matches | helpers/queryDateRange.js:4-7 | a filter without `createdAt` restricts nothing; both ends are inclusive, so a one-instant range holds its instant; a timestamp before the lower bound or after the upper bound is excluded; an equality condition on `createdAt` matches no timestamp |
| DateRange.MatchesIff | helpers/queryDateRange.js:3-7 | a timestamp matches the built filter iff it is at or after a truthy start and at or before a truthy end |
| DateRange.NoBoundsMatchesAll | helpers/queryDateRange.js:2-9 | with neither bound truthy the filter is empty and every timestamp matches |
| DateRange.FalsyIsAbsent | helpers/queryDateRange.js:3-6 | a falsy start or end gives the same filter as an absent one |
| DateRange.OnlyStart | helpers/queryDateRange.js:4-6 | only a start gives a lower bound and no upper bound |
| DateRange.OnlyEnd | helpers/queryDateRange.js:4-6 | only an end gives an upper bound and no lower bound |
| DateRange.BothBounds | helpers/queryDateRange.js:4-7 | both bounds are present, and membership is start <= t <= end with both ends inclusive |
| DateRange.ZeroNumberIsNoBound | helpers/queryDateRange.js:3-6 | the number 0 is falsy and adds no bound, but a date string for the epoch does bound the range |
| Orders.ParseStatus | db/models/orders.js:30-35 | a string parses to an enum value exactly when that value's name is the string; the four names are the only accepted ones |
| Orders.ParseName | db/models/orders.js:30-35 | parsing a status name gives back that status |
| Orders.Validate | db/models/orders.js:4-43 | a body is accepted iff no rule is broken; a rejection names every broken path; an accepted body yields a valid order keeping the body's fields and items, status `pending` when omitted, and `now` for omitted timestamps |
| Orders.CalcTotal | db/models/orders.js:48-49 | the left fold gives the same total as taking the entries front to back: the first entry's price times quantity plus the total of the rest |
| Orders.CalcTotalAppend | db/models/orders.js:48-49 | `calcTotal` of the empty list is 0, and of a concatenation is the sum of the two totals |
| Orders.CalcTotalSingle | db/models/orders.js:48-49 | one entry totals its price times its quantity |
| Orders.CalcTotalExample | db/models/orders.js:48-49 | 10 x 2 and 5 x 3 total 35 |
| OrderStore.FindJoin | db/models/orders.js:63-68 | spreading two filters on different fields into one query selects exactly the ids both filters select |
| OrderStore.SatisfiesDateRange | db/models/orders.js:77-80 | an order passes the date filter alone iff its `createdAt` matches the range |
| OrderStore.EmptyStoreValid | db/models/orders.js:52 | a fresh collection is well formed and holds no orders |
| OrderStore.GetAll | db/models/orders.js:54-59 | every stored order is returned |
| OrderStore.SatisfiesStatusQuery | db/models/orders.js:63-66 | an order passes the spread status-plus-range filter iff its status equals the requested one and its `createdAt` matches the range |
| OrderStore.GetStatus | db/models/orders.js:61-73 | returns exactly the stored orders whose status equals the argument and whose `createdAt` matches the range, unchanged |
| OrderStore.GetByStatus | db/models/orders.js:136-139 | returns exactly the stored orders whose status equals the argument, with no date restriction |
| OrderStore.GetByStatusIsUndated | db/models/orders.js:136-139 | `getByStatus(s)` equals `getStatus(s)` with both dates absent |
| OrderStore.GetStatusOnlyThatStatus | db/models/orders.js:61-69 | every order `getStatus` returns carries the requested status, and its ids are among those `getByStatus` returns |
| OrderStore.GetOne | db/models/orders.js:116-119 | an order is found iff its id is stored, and it is the stored order |
| OrderStore.Create | db/models/orders.js:121-124 | rejected iff the body breaks a rule, reporting every broken path; otherwise the stored order is exactly the validated body, it is valid, it goes in under the fresh id over the prior map, the store stays valid, and `getOne` on that id returns it |
| OrderStore.CreateThenGetOne | db/models/orders.js:121-124 | after a valid create, reading the new id gives the body's name, address, phone and items (same references and quantities, in order), the given or default status and the given or current `createdAt` and `updatedAt`, and every earlier order reads as before |
| OrderStore.Update | db/models/orders.js:126-129 | an absent id returns nothing and leaves the store unchanged; a present id returns the order as stored afterwards, every other order and the id set are unchanged, and `updatedAt` changes only when the patch sets it |
| OrderStore.UpdateSetsGivenFields | db/models/orders.js:126-129 | each field the patch gives is stored and each field it omits is kept |
| OrderStore.UpdateKeepsValidity | db/models/orders.js:126-129 | a patch that itself respects the schema keeps a valid order valid |
| OrderStore.UpdateSkipsValidation | db/models/orders.js:126-129 | an update can store a status outside the enum, leaving an invalid order |
| OrderStore.Remove | db/models/orders.js:131-134 | a present id is returned and deleted, so `getOne` then finds nothing, while all other orders are untouched; an absent id fails reading `id` of null and changes nothing |
| OrderStore.RemoveUndoesCreate | db/models/orders.js:121-134 | removing an order just created returns its id and restores the previous orders |
| OrderSales.GetTotalSales | db/models/orders.js:75-114 | the total, including the no-group 0 branch, equals the sum of the sales of the date-matched orders; it is 0 when no stored order was created inside the range |
| OrderSales.MatchedCoversFind | db/models/orders.js:79-80 | in a well-formed store (every id below the counter, which every operation keeps), the orders the total walks are exactly the orders the date filter selects |
| OrderSales.NoneMatchedIsEmpty | db/models/orders.js:77-80 | when no stored order was created inside the range, the match stage passes nothing on |
| OrderSales.UnwindSales | db/models/orders.js:81-106 | summing the unwound line totals equals summing each order's sales in turn |
| OrderSales.OrderSalesIsCalcTotal | db/models/orders.js:90-104 | an order's sales equal `calcTotal` of its lines that have a price |
| OrderSales.TotalSalesWithout | db/models/orders.js:75-110 | the total equals the total without any one order, plus that order's sales when its `createdAt` is in range; status plays no part |
| OrderSales.CreateAddsSales | db/models/orders.js:75-124 | a valid create raises the total of a range by the new order's sales when its creation time is in that range, and leaves other ranges unchanged |
| OrderSales.TotalSalesIgnoresStatus | db/models/orders.js:77-80 | changing only an order's status leaves every range's total unchanged |
| OrderSales.TotalSalesExample | db/models/orders.js:75-110 | one order of two units of an item priced 10 totals 20 over an open range |

## Left out

- The database connection loaded from `db.js` (orders.js line 1). That file is not part of this model, and the connection is I/O.
- The `populate` joins in `getAll`, `getStatus`, `getOne` and `getByStatus`. Orders come back with item references unresolved. Dangling references are not modelled.
- `async`/`await` and the try/catch in `getStatus` and `getTotalSales`, which return a caught error as their value. Store and cast errors are not modelled, so these catch blocks never fire in the model.
- Date parsing with `new Date(...)`, including strings that parse to an invalid date. Dates are integer timestamps.
- Floating-point prices and quantities. These are integers.
- The `toJSON` virtuals option, ObjectId generation (replaced by a counter), and `Date.now` defaults (replaced by the `now` parameter).
- The schema's casting of values to the declared types, and the dropping of fields outside the schema. `Body` and `Patch` carry only schema fields, already typed.
- OrderStore.Update: a patch's items are typed line items, so an update that stores an item without a quantity is not modelled. Update operators such as `$set` and `$push` in the body are not modelled either.
- OrderStore.GetStatus: the status argument is always a string; a call that omits it is not modelled. Results are a map from id to order. The order of the returned list is not stated; the same holds for `Find`, `GetAll` and `GetByStatus`.
- OrderSales.GetTotalSales: a line whose menu item has a non-numeric price is not modelled. Prices are integers in the price table.
