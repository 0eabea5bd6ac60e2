# Orders service model

A Dafny model of `OrdersService` in the orders microservice
(`src/orders/orders.service.ts`). The service creates purchase orders, lists
them page by page, looks one up, and changes an order's status. The model
turns each operation into a pure function over an abstract order store.

- `Wrappers` (`wrappers.dfy`) holds `Option` and `Result`.
- `Catalog` (`catalog.dfy`) holds the catalog entries that the remote
  `validate_products` command answers with. `Lookup` is the first-match
  search that `Array.find` performs.
- `OrderModel` (`order_model.dfy`) holds the records. An `Order` is the
  order row. An `OrderLine` is a persisted line with its frozen catalog price.
  A `NamedLine` is a response line with the product name added. A `Store` is
  the order table, rows in insertion order, each row stored with its lines.
  `Thrown` and `RpcError` are the caught error and the rethrown error. `Valid`
  is the store invariant: ids are unique, and each order's totals equal the
  sums over its lines.
- `Pricing` (`pricing.dfy`) holds the reference sums `AmountSum` and
  `ItemSum`. It also holds the two `reduce` loops, written as methods and
  proved equal to those sums, and the construction of the persisted and
  named lines.
- `OrderCreation` (`order_creation.dfy`) models `create`. The catalog
  response is a parameter: either the product list or the error the remote
  call rejected with. Every failure path answers with an `RpcError` and leaves
  the store unchanged.
- `OrderQueries` (`order_queries.dfy`) models `findOne` and `findAll`.
  `findAll` is offset pagination under an optional status filter.
- `OrderStatusChange` (`order_status.dfy`) models `changeStatus`.

Behaviour of `OrdersService` worth noting:

- `findOne` fails with status BAD_REQUEST (400) and the message
  "Product with id … not found", even though it looks up an order.
- `create` sends the requested product ids to the catalog as they are,
  duplicates included.
- `create` accepts an empty item list and stores an order with no lines and
  zero totals.
- `changeStatus` writes any requested status, whatever the current one is.
- `findOne` returns the bare order row, without its lines and without
  product names.

## Model

| member | source | states |
|---|---|---|
| Catalog.FirstIndex | src/orders/orders.service.ts:33 | the index found is the first entry whose id matches, and there is none exactly when no entry matches |
| Catalog.Lookup | src/orders/orders.service.ts:33 | `find` returns a catalog entry with the requested id, and `undefined` exactly when the catalog has no such entry |
| Catalog.LookupPrefersEarlierEntry | src/orders/orders.service.ts:33 | when an id occurs more than once in the catalog, the earliest entry is the one used |
| Pricing.ReduceTotalAmount | src/orders/orders.service.ts:32-35 | the `totalAmount` fold succeeds exactly when every requested id is in the catalog, and then equals the sum of first-match catalog price times quantity; otherwise it throws the TypeError, which has no status |
| Pricing.ReduceTotalItems | src/orders/orders.service.ts:37-39 | the `totalItems` fold equals the sum of the requested quantities |
| Pricing.BuildLinesMatchRequest | src/orders/orders.service.ts:48-52 | there is one persisted line per requested item, in request order; productId and quantity are copied, and price is the first-match catalog price |
| Pricing.NameLinesDecorate | src/orders/orders.service.ts:69-72 | each response line keeps price, quantity and productId, and gains the name of the first catalog entry with that id |
| Pricing.TotalsMatchLines | src/orders/orders.service.ts:32-53 | the totals computed from the request equal the sums over the lines that get persisted |
| OrderCreation.Create | src/orders/orders.service.ts:22-82 | a failure leaves the store unchanged; success happens exactly when the catalog call resolved and covers every requested id; success appends exactly one row, under the new id, and keeps every earlier row |
| OrderCreation.CreateFailsWhenCatalogFails | src/orders/orders.service.ts:75-80 | a rejected catalog call is rethrown with its own status and message, defaulting to BAD_REQUEST and the fallback message; nothing is stored |
| OrderCreation.CreateFailsOnUnknownProduct | src/orders/orders.service.ts:32-35 | a requested id that is missing from the catalog aborts creation with BAD_REQUEST before anything is persisted |
| OrderCreation.CreateTotals | src/orders/orders.service.ts:42-45 | a created order has totalItems equal to the sum of quantities and totalAmount equal to the sum of catalog price times quantity; it is PENDING and unpaid, with both timestamps set to the creation time |
| OrderCreation.CreateStoresLines | src/orders/orders.service.ts:46-53 | the stored lines match the requested items one to one, in order, with catalog prices, and the stored totals agree with those lines |
| OrderCreation.CreateViewDecoratesLines | src/orders/orders.service.ts:67-73 | the answer carries the persisted order's fields unchanged; its lines are the stored lines, each with the catalog entry's name, and that entry's price is the line's price |
| OrderCreation.CreatePreservesValid | src/orders/orders.service.ts:42-65 | creation keeps order ids unique and every stored order's totals consistent with its lines |
| OrderCreation.CreateThenFindOne | src/orders/orders.service.ts:42-65 | after a successful creation, `findOne` on the new id returns exactly the order that was answered |
| OrderCreation.FailedCreateIsInvisible | src/orders/orders.service.ts:75-81 | after a failed creation, every `findOne` and `findAll` answers as it did before |
| OrderCreation.CreateWidgetExample | src/orders/orders.service.ts:32-73 | two of a product priced 10 give totalAmount 20, totalItems 2, and one line priced 10 named after the product |
| OrderQueries.OrderIndex | src/orders/orders.service.ts:108 | the row found has the requested id and no earlier row has it; no row is found exactly when the id is absent |
| OrderQueries.FindOne | src/orders/orders.service.ts:107-117 | `findOne` succeeds exactly when the id is stored, returning a stored row with that id; otherwise it fails with BAD_REQUEST and the not-found message |
| OrderQueries.FindOneReturnsTheRow | src/orders/orders.service.ts:108-116 | with unique ids, `findOne` returns exactly the row that carries the id |
| OrderQueries.Filter | src/orders/orders.service.ts:92-95 | the status filter keeps only orders with the requested status; with no status given it lists every stored order, position by position |
| OrderQueries.FilterCountsMatchingRows | src/orders/orders.service.ts:88 | the filtered list has exactly one entry per stored row that passes the filter, so its length is what `count({ where: { status } })` answers |
| OrderQueries.FilterMembership | src/orders/orders.service.ts:88-95 | an order is listed exactly when it is a stored row whose status passes the filter |
| OrderQueries.CeilDiv | src/orders/orders.service.ts:89 | `Math.ceil(total / limit)` is the unique r with (r-1)·limit < total ≤ r·limit, and it is 0 exactly when total is 0 |
| OrderQueries.Window | src/orders/orders.service.ts:96-97 | `skip`/`take` return at most `take` rows, each at position skip + i of the source, and none once skip reaches the end |
| OrderQueries.Paginate | src/orders/orders.service.ts:89-103 | a page holds the rows from offset (page-1)·limit on, min(limit, total − offset) of them when the offset is inside the rows; meta carries the page number, the row count, and lastPage with (lastPage-1)·limit < total ≤ lastPage·limit |
| OrderQueries.FindAll | src/orders/orders.service.ts:84-105 | `findAll` paginates the status-filtered rows; `total` counts under the same filter as the data, and every returned order passes the filter |
| OrderQueries.PageNonEmptyIff | src/orders/orders.service.ts:89-98 | a page holds rows exactly when its number is at most lastPage |
| OrderQueries.PagesArePrefix | src/orders/orders.service.ts:96-97 | pages 1 through n, concatenated, are the first n·limit filtered rows |
| OrderQueries.AllPagesListFilter | src/orders/orders.service.ts:84-105 | walking pages 1 through lastPage lists every filtered order exactly once, in order |
| OrderStatusChange.ChangeStatus | src/orders/orders.service.ts:119-129 | the change fails exactly when the id is absent, and then gives `findOne`'s error with the store unchanged; on success the returned order has the new status and the same id |
| OrderStatusChange.ChangeStatusTouchesOnlyStatus | src/orders/orders.service.ts:125-128 | on a stored order only `status` changes, plus the repository's `updatedAt`; its lines and every other row are unchanged |
| OrderStatusChange.ChangeStatusIdempotent | src/orders/orders.service.ts:119-129 | repeating the same status change leaves the same store and the same answer |
| OrderStatusChange.ChangeStatusPreservesValidIds | src/orders/orders.service.ts:125-128 | a status change keeps order ids unique |
| OrderStatusChange.ChangeStatusPreservesValid | src/orders/orders.service.ts:125-128 | a status change keeps the store invariant, because totals and lines are not rewritten |
| OrderStatusChange.ChangeStatusThenFindOne | src/orders/orders.service.ts:119-129 | after a successful change, `findOne` returns the updated order with the new status |

## Left out

- Payment confirmation (`paidOrder`) and payment session creation (`createPaymentSession`) are not modelled. The controller calls them, but they are not defined in `orders.service.ts`, so there is no source to model.
- Database access is not modelled: inheriting from `PrismaClient`, `$connect` at start-up, and query execution. The table is abstracted as a sequence of rows in insertion order. The database's own row order is not modelled. This covers `findMany`, and also the lines that `create` reads back through `include`: the model assumes they come back in request order.
- Order id and timestamp generation are parameters (`newId`, `now`). `Create` requires that `newId` is not already stored, as a fresh generated id never is. Failures of the insert itself are not modelled.
- The remote `validate_products` call (through `ClientProxy` and `firstValueFrom`) is a parameter. Its outcome is either the product list or the error it rejected with.
- Logging (`Logger`, `console.log`) is not modelled; it has no effect on results.
- Input validation in the DTOs is not modelled. `PaginationDto`, which makes `page` and `limit` positive, is not part of this model; those bounds appear as `requires` on `FindAll` and `Paginate`. Invalid status values are also not modelled.
- Prices and amounts are integers. JavaScript number arithmetic and the float division inside `Math.ceil` are not modelled.
- Concurrency between requests and events is not modelled.
- The schema is not part of this model. The model assumes the repository refreshes `updatedAt` on every update, so a status change also sets `updatedAt`.
- OrderCreation.NewOrder: assumes the schema's column defaults for a new row, which `create` does not set itself. These are status PENDING, paid false, paidAt null, and createdAt = updatedAt = the creation time. `CreateTotals` states these values on the same assumption.
