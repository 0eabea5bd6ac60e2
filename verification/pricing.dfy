/**
  The arithmetic of order creation: totals over the requested items priced by
  the catalog, and the persisted and decorated lines built from them.
*/
module Pricing {
  import opened Wrappers
  import opened Catalog
  import opened OrderModel

  /**
    What `undefined.price` throws: a TypeError, which carries no `status`.
    The message is the wording of Node.js 16 and later (V8 9.x onwards);
    older runtimes say "Cannot read property 'price' of undefined".
  */
  const MissingPrice: Thrown :=
    Thrown(None, Some("Cannot read properties of undefined (reading 'price')"))

  /** Every requested product id has a catalog entry. */
  predicate Resolved(catalog: seq<Product>, items: seq<RequestItem>) {
    forall i :: 0 <= i < |items| ==> Lookup(catalog, items[i].productId).Some?
  }

  /** Every line's product id has a catalog entry. */
  predicate LinesResolved(catalog: seq<Product>, lines: seq<OrderLine>) {
    forall i :: 0 <= i < |lines| ==> Lookup(catalog, lines[i].productId).Some?
  }

  /** Dropping the first item keeps every remaining id resolved. */
  lemma ResolvedTail(catalog: seq<Product>, items: seq<RequestItem>)
    requires |items| > 0 && Resolved(catalog, items)
    ensures Resolved(catalog, items[1..])
  {
  }

  /** Dropping the first line keeps every remaining id resolved. */
  lemma LinesResolvedTail(catalog: seq<Product>, lines: seq<OrderLine>)
    requires |lines| > 0 && LinesResolved(catalog, lines)
    ensures LinesResolved(catalog, lines[1..])
  {
  }

  /** The price of the first catalog entry with this id. */
  function PriceOf(catalog: seq<Product>, id: ProductId): int
    requires Lookup(catalog, id).Some?
  {
    Lookup(catalog, id).value.price
  }

  /** Reference total: the sum over the items of catalog price times quantity. */
  function AmountSum(catalog: seq<Product>, items: seq<RequestItem>): int
    requires Resolved(catalog, items)
    decreases |items|
  {
    if |items| == 0 then 0
    else
      ResolvedTail(catalog, items);
      PriceOf(catalog, items[0].productId) * items[0].quantity + AmountSum(catalog, items[1..])
  }

  /** Reference count: the sum of the requested quantities. */
  function ItemSum(items: seq<RequestItem>): int
    decreases |items|
  {
    if |items| == 0 then 0 else items[0].quantity + ItemSum(items[1..])
  }

  /** Appending one item adds exactly its price times quantity. */
  lemma {:induction false} AmountSumSnoc(catalog: seq<Product>, items: seq<RequestItem>, x: RequestItem)
    requires Resolved(catalog, items) && Lookup(catalog, x.productId).Some?
    ensures Resolved(catalog, items + [x])
    ensures AmountSum(catalog, items + [x]) == AmountSum(catalog, items) + PriceOf(catalog, x.productId) * x.quantity
    decreases |items|
  {
    var s := items + [x];
    assert forall i :: 0 <= i < |items| ==> s[i] == items[i];
    assert s[|items|] == x;
    if |items| > 0 {
      AmountSumSnoc(catalog, items[1..], x);
      assert s[1..] == items[1..] + [x];
    }
  }

  /** Appending one item adds exactly its quantity. */
  lemma {:induction false} ItemSumSnoc(items: seq<RequestItem>, x: RequestItem)
    ensures ItemSum(items + [x]) == ItemSum(items) + x.quantity
    decreases |items|
  {
    if |items| == 0 {
      assert items + [x] == [x];
    } else {
      ItemSumSnoc(items[1..], x);
      assert (items + [x])[1..] == items[1..] + [x];
    }
  }

  /**
    The `reduce` that computes `totalAmount`: a left fold that looks every item
    up with `find` and throws at the first item the catalog does not contain.
  */
  method ReduceTotalAmount(catalog: seq<Product>, items: seq<RequestItem>) returns (r: Result<int, Thrown>)
    ensures r.Success? <==> Resolved(catalog, items)
    ensures r.Success? ==> r.value == AmountSum(catalog, items)
    ensures r.Failure? ==> r.error == MissingPrice
  {
    var acc := 0;
    var i := 0;
    while i < |items|
      invariant 0 <= i <= |items|
      invariant Resolved(catalog, items[..i])
      invariant acc == AmountSum(catalog, items[..i])
    {
      var product := Lookup(catalog, items[i].productId);
      if product.None? {
        return Failure(MissingPrice);
      }
      AmountSumSnoc(catalog, items[..i], items[i]);
      assert items[..i + 1] == items[..i] + [items[i]];
      acc := product.value.price * items[i].quantity + acc;
      i := i + 1;
    }
    assert items[..i] == items;
    return Success(acc);
  }

  /** The `reduce` that computes `totalItems`: a left fold adding the quantities. */
  method ReduceTotalItems(items: seq<RequestItem>) returns (r: int)
    ensures r == ItemSum(items)
  {
    var acc := 0;
    var i := 0;
    while i < |items|
      invariant 0 <= i <= |items|
      invariant acc == ItemSum(items[..i])
    {
      ItemSumSnoc(items[..i], items[i]);
      assert items[..i + 1] == items[..i] + [items[i]];
      acc := acc + items[i].quantity;
      i := i + 1;
    }
    assert items[..i] == items;
    return acc;
  }

  /** The persisted lines: one per requested item, carrying the catalog price. */
  function BuildLines(catalog: seq<Product>, items: seq<RequestItem>): seq<OrderLine>
    requires Resolved(catalog, items)
    decreases |items|
  {
    if |items| == 0 then []
    else
      ResolvedTail(catalog, items);
      [OrderLine(PriceOf(catalog, items[0].productId), items[0].quantity, items[0].productId)]
        + BuildLines(catalog, items[1..])
  }

  /** The lines of the response: each persisted line gains its product's catalog name. */
  function NameLines(catalog: seq<Product>, lines: seq<OrderLine>): seq<NamedLine>
    requires LinesResolved(catalog, lines)
    decreases |lines|
  {
    if |lines| == 0 then []
    else
      LinesResolvedTail(catalog, lines);
      var l := lines[0];
      [NamedLine(l.price, l.quantity, l.productId, Lookup(catalog, l.productId).value.name)]
        + NameLines(catalog, lines[1..])
  }

  /**
    The persisted lines correspond one-to-one and in order with the request:
    product id and quantity copied, price the first matching catalog price.
  */
  lemma {:induction false} BuildLinesMatchRequest(catalog: seq<Product>, items: seq<RequestItem>)
    requires Resolved(catalog, items)
    ensures |BuildLines(catalog, items)| == |items|
    ensures forall i :: 0 <= i < |items| ==>
      BuildLines(catalog, items)[i]
        == OrderLine(PriceOf(catalog, items[i].productId), items[i].quantity, items[i].productId)
    ensures LinesResolved(catalog, BuildLines(catalog, items))
    decreases |items|
  {
    if |items| > 0 {
      ResolvedTail(catalog, items);
      BuildLinesMatchRequest(catalog, items[1..]);
      var ls := BuildLines(catalog, items);
      forall i | 0 < i < |items|
        ensures ls[i] == OrderLine(PriceOf(catalog, items[i].productId), items[i].quantity, items[i].productId)
      {
        assert ls[i] == BuildLines(catalog, items[1..])[i - 1];
        assert items[1..][i - 1] == items[i];
      }
      assert forall i :: 0 <= i < |items| ==> ls[i].productId == items[i].productId;
    }
  }

  /**
    Each response line keeps price, quantity and product id of its persisted
    line and gains the name of the first catalog entry with that id.
  */
  lemma {:induction false} NameLinesDecorate(catalog: seq<Product>, lines: seq<OrderLine>)
    requires LinesResolved(catalog, lines)
    ensures |NameLines(catalog, lines)| == |lines|
    ensures forall i :: 0 <= i < |lines| ==>
      var n := NameLines(catalog, lines)[i];
      && n.price == lines[i].price && n.quantity == lines[i].quantity
      && n.productId == lines[i].productId
      && Lookup(catalog, lines[i].productId) == Some(Product(n.productId, n.name, PriceOf(catalog, n.productId)))
    decreases |lines|
  {
    if |lines| > 0 {
      LinesResolvedTail(catalog, lines);
      NameLinesDecorate(catalog, lines[1..]);
      var ns := NameLines(catalog, lines);
      forall i | 0 < i < |lines|
        ensures ns[i] == NameLines(catalog, lines[1..])[i - 1] && lines[1..][i - 1] == lines[i]
      {
      }
    }
  }

  /**
    The totals computed from the request equal the totals over the lines that
    get persisted, so a created order's totals agree with its lines.
  */
  lemma {:induction false} TotalsMatchLines(catalog: seq<Product>, items: seq<RequestItem>)
    requires Resolved(catalog, items)
    ensures AmountSum(catalog, items) == LinesAmount(BuildLines(catalog, items))
    ensures ItemSum(items) == LinesItems(BuildLines(catalog, items))
    decreases |items|
  {
    if |items| > 0 {
      ResolvedTail(catalog, items);
      TotalsMatchLines(catalog, items[1..]);
      var ls := BuildLines(catalog, items);
      assert ls[0].price == PriceOf(catalog, items[0].productId) && ls[0].quantity == items[0].quantity;
      assert ls[1..] == BuildLines(catalog, items[1..]);
    }
  }
}
