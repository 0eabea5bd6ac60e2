/**
  `OrdersService.create`: price the request with the catalog's answer, persist
  the order with its lines, and answer with the lines decorated by name. Any
  error thrown on the way is caught and rethrown as an `RpcException`.
*/
module OrderCreation {
  import opened Wrappers
  import opened Catalog
  import opened OrderModel
  import opened Pricing
  import opened OrderQueries

  /** The message the `catch` block falls back to when the error has none. */
  const CreateFallbackMessage: string := "Check logs on create order service"

  /** The `catch` block: keep the error's status and message, defaulting each. */
  function Rethrow(e: Thrown): RpcError {
    RpcError(
      match e.status case Some(s) => s case None => BAD_REQUEST,
      match e.message case Some(m) => m case None => CreateFallbackMessage)
  }

  /** The row `order.create` inserts: a fresh id, PENDING, unpaid, with the given totals. */
  function NewOrder(id: string, totalAmount: int, totalItems: int, now: Timestamp): Order {
    Order(id, Pending, totalAmount, totalItems, false, None, now, now)
  }

  /**
    Create an order. `response` is what the remote `validate_products` call
    resolved or rejected with; `newId` and `now` are the id and timestamp the
    repository generates for the new row.
  */
  function Create(store: Store, items: seq<RequestItem>, response: Result<seq<Product>, Thrown>,
                  newId: string, now: Timestamp): (o: Outcome<OrderView>)
    requires !HasId(store, newId)
    ensures o.result.Failure? ==> o.store == store
    ensures o.result.Success? <==> response.Success? && Resolved(response.value, items)
    ensures o.result.Success? ==>
      && |o.store| == |store| + 1
      && o.store[..|store|] == store
      && o.store[|store|].order == o.result.value.order
      && o.result.value.order.id == newId
  {
    match response
    case Failure(e) => Outcome(store, Failure(Rethrow(e)))
    case Success(products) =>
      if !Resolved(products, items) then Outcome(store, Failure(Rethrow(MissingPrice)))
      else
        var order := NewOrder(newId, AmountSum(products, items), ItemSum(items), now);
        var lines := BuildLines(products, items);
        BuildLinesMatchRequest(products, items);
        Outcome(store + [StoredOrder(order, lines)], Success(OrderView(order, NameLines(products, lines))))
  }

  /**
    A rejected catalog call aborts creation with the rejection's status and
    message (BAD_REQUEST and the fallback message when absent); nothing is stored.
  */
  lemma CreateFailsWhenCatalogFails(store: Store, items: seq<RequestItem>, e: Thrown, newId: string, now: Timestamp)
    requires !HasId(store, newId)
    ensures var o := Create(store, items, Failure(e), newId, now);
      && o.store == store
      && o.result.Failure?
      && o.result.error.status == (if e.status.Some? then e.status.value else BAD_REQUEST)
      && o.result.error.message == (if e.message.Some? then e.message.value else CreateFallbackMessage)
  {
  }

  /**
    A requested product id with no catalog entry aborts creation with status
    BAD_REQUEST (the TypeError carries none); nothing is stored.
  */
  lemma CreateFailsOnUnknownProduct(store: Store, items: seq<RequestItem>, products: seq<Product>,
                                    i: int, newId: string, now: Timestamp)
    requires !HasId(store, newId)
    requires 0 <= i < |items| && forall p :: p in products ==> p.id != items[i].productId
    ensures var o := Create(store, items, Success(products), newId, now);
      && o.store == store
      && o.result == Failure(RpcError(BAD_REQUEST, MissingPrice.message.value))
  {
  }

  /**
    A successful creation stores a PENDING, unpaid order whose totals are the
    sum of the requested quantities and the sum of catalog price times quantity.
  */
  lemma CreateTotals(store: Store, items: seq<RequestItem>, products: seq<Product>, newId: string, now: Timestamp)
    requires !HasId(store, newId) && Resolved(products, items)
    ensures var o := Create(store, items, Success(products), newId, now);
      && o.result.Success?
      && o.result.value.order.totalItems == ItemSum(items)
      && o.result.value.order.totalAmount == AmountSum(products, items)
      && o.result.value.order.status == Pending
      && !o.result.value.order.paid && o.result.value.order.paidAt == None
      && o.result.value.order.createdAt == now && o.result.value.order.updatedAt == now
  {
  }

  /**
    The stored lines are the requested items in order, each with the price of
    the first catalog entry for its product, and the stored totals agree with them.
  */
  lemma CreateStoresLines(store: Store, items: seq<RequestItem>, products: seq<Product>, newId: string, now: Timestamp)
    requires !HasId(store, newId) && Resolved(products, items)
    ensures var o := Create(store, items, Success(products), newId, now);
      && |o.store| == |store| + 1
      && |o.store[|store|].lines| == |items|
      && (forall i :: 0 <= i < |items| ==>
            o.store[|store|].lines[i] == OrderLine(PriceOf(products, items[i].productId), items[i].quantity, items[i].productId))
      && TotalsAgree(o.store[|store|])
  {
    BuildLinesMatchRequest(products, items);
    TotalsMatchLines(products, items);
  }

  /**
    The answer is the stored order with each stored line decorated by the
    name of its product's first catalog entry (whose price is the line's
    frozen price), all other fields unchanged.
  */
  lemma CreateViewDecoratesLines(store: Store, items: seq<RequestItem>, products: seq<Product>, newId: string, now: Timestamp)
    requires !HasId(store, newId) && Resolved(products, items)
    ensures var o := Create(store, items, Success(products), newId, now);
      var stored := o.store[|store|];
      var view := o.result.value;
      && view.order == stored.order
      && |view.lines| == |stored.lines|
      && forall i :: 0 <= i < |view.lines| ==>
           && view.lines[i].price == stored.lines[i].price
           && view.lines[i].quantity == stored.lines[i].quantity
           && view.lines[i].productId == stored.lines[i].productId
           && Lookup(products, view.lines[i].productId)
                == Some(Product(view.lines[i].productId, view.lines[i].name, view.lines[i].price))
  {
    BuildLinesMatchRequest(products, items);
    NameLinesDecorate(products, BuildLines(products, items));
  }

  /** Creation keeps the store valid: ids stay unique and every order's totals match its lines. */
  lemma CreatePreservesValid(store: Store, items: seq<RequestItem>, response: Result<seq<Product>, Thrown>,
                             newId: string, now: Timestamp)
    requires Valid(store) && !HasId(store, newId)
    ensures Valid(Create(store, items, response, newId, now).store)
  {
    var o := Create(store, items, response, newId, now);
    if o.result.Success? {
      CreateStoresLines(store, items, response.value, newId, now);
      forall k | 0 <= k < |store| ensures store[k].order.id != newId && o.store[k] == store[k] {
        assert o.store[..|store|][k] == o.store[k];
      }
    }
  }

  /** A created order is found by `findOne` under its new id, exactly as answered. */
  lemma CreateThenFindOne(store: Store, items: seq<RequestItem>, products: seq<Product>, newId: string, now: Timestamp)
    requires UniqueIds(store) && !HasId(store, newId) && Resolved(products, items)
    ensures var o := Create(store, items, Success(products), newId, now);
      FindOne(o.store, newId) == Success(o.result.value.order)
  {
  }

  /** A failed creation leaves every lookup and listing answering as before. */
  lemma FailedCreateIsInvisible(store: Store, items: seq<RequestItem>, response: Result<seq<Product>, Thrown>,
                                newId: string, now: Timestamp, id: string, page: nat, limit: nat, status: Option<Status>)
    requires !HasId(store, newId) && page >= 1 && limit >= 1
    requires !(response.Success? && Resolved(response.value, items))
    ensures var o := Create(store, items, response, newId, now);
      && FindOne(o.store, id) == FindOne(store, id)
      && FindAll(o.store, page, limit, status) == FindAll(store, page, limit, status)
  {
  }

  /**
    Two of product 1 at a catalog price of 10 make an order of 20 in total
    with 2 items and a single line priced 10 named after the product.
  */
  lemma CreateWidgetExample(store: Store, newId: string, now: Timestamp)
    requires !HasId(store, newId)
    ensures var o := Create(store, [RequestItem(1, 2)], Success([Product(1, "Widget", 10)]), newId, now);
      && o.result.Success?
      && o.result.value.order.totalAmount == 20
      && o.result.value.order.totalItems == 2
      && o.store[|store|].lines == [OrderLine(10, 2, 1)]
      && o.result.value.lines == [NamedLine(10, 2, 1, "Widget")]
  {
    var items := [RequestItem(1, 2)];
    var products := [Product(1, "Widget", 10)];
    assert Lookup(products, 1) == Some(Product(1, "Widget", 10));
    assert items[1..] == [];
    var lines := BuildLines(products, items);
    assert lines == [OrderLine(10, 2, 1)];
    assert lines[1..] == [];
    assert NameLines(products, lines) == [NamedLine(10, 2, 1, "Widget")];
  }
}
