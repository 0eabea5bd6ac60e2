/**
  Records of the orders service: the order row, its persisted lines, the
  request items, the response view, the abstract order store and the
  error values the service throws.
*/
module OrderModel {
  import opened Wrappers
  import opened Catalog

  /** Repository timestamps (`createdAt`, `updatedAt`, `paidAt`), abstract instants. */
  type Timestamp = int

  /** The order status enumeration; `Pending` is the status a new row starts in. */
  datatype Status = Pending | Paid | Delivered | Cancelled

  /** One requested item of a create request: `{productId, quantity}`. */
  datatype RequestItem = RequestItem(productId: ProductId, quantity: int)

  /** A persisted order line; `price` is the catalog price frozen at creation. */
  datatype OrderLine = OrderLine(price: int, quantity: int, productId: ProductId)

  /** A line of the create response: a persisted line decorated with the product name. */
  datatype NamedLine = NamedLine(price: int, quantity: int, productId: ProductId, name: string)

  /** The scalar columns of an order row. */
  datatype Order = Order(
    id: string,
    status: Status,
    totalAmount: int,
    totalItems: int,
    paid: bool,
    paidAt: Option<Timestamp>,
    createdAt: Timestamp,
    updatedAt: Timestamp)

  /** What `create` answers: the order's columns with its lines decorated by name. */
  datatype OrderView = OrderView(order: Order, lines: seq<NamedLine>)

  /** An order row together with the lines created with it. */
  datatype StoredOrder = StoredOrder(order: Order, lines: seq<OrderLine>)

  /** The order table, rows in insertion order. */
  type Store = seq<StoredOrder>

  /** HTTP status codes the service uses. */
  const BAD_REQUEST: int := 400

  /** A JavaScript error as the `catch` block sees it: `status` and `message` may be undefined. */
  datatype Thrown = Thrown(status: Option<int>, message: Option<string>)

  /** The payload of an `RpcException`: a status and a message. */
  datatype RpcError = RpcError(status: int, message: string)

  /** What a service operation leaves behind: the store after it and its answer. */
  datatype Outcome<+T> = Outcome(store: Store, result: Result<T, RpcError>)

  /** True when some row of the store has the order id `id`. */
  predicate HasId(store: Store, id: string) {
    exists k :: 0 <= k < |store| && store[k].order.id == id
  }

  /** Order ids are a primary key: no two rows share one. */
  predicate UniqueIds(store: Store) {
    forall j, k :: 0 <= j < k < |store| ==> store[j].order.id != store[k].order.id
  }

  /** Sum of `price * quantity` over a sequence of persisted lines. */
  function LinesAmount(lines: seq<OrderLine>): int {
    if |lines| == 0 then 0 else lines[0].price * lines[0].quantity + LinesAmount(lines[1..])
  }

  /** Sum of `quantity` over a sequence of persisted lines. */
  function LinesItems(lines: seq<OrderLine>): int {
    if |lines| == 0 then 0 else lines[0].quantity + LinesItems(lines[1..])
  }

  /** An order's stored totals agree with the lines it was created with. */
  predicate TotalsAgree(so: StoredOrder) {
    so.order.totalAmount == LinesAmount(so.lines) && so.order.totalItems == LinesItems(so.lines)
  }

  /** The invariant every reachable store keeps. */
  predicate Valid(store: Store) {
    UniqueIds(store) && forall k :: 0 <= k < |store| ==> TotalsAgree(store[k])
  }
}
