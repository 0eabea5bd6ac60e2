/**
  The read side of `OrdersService`: `findOne` (lookup by id) and `findAll`
  (offset pagination under an optional status filter).
*/
module OrderQueries {
  import opened Wrappers
  import opened OrderModel

  /** The row `findUnique({ where: { id } })` returns, by position. */
  function OrderIndex(store: Store, id: string): (r: Option<nat>)
    ensures r.Some? ==> r.value < |store| && store[r.value].order.id == id
    ensures r.Some? ==> forall j :: 0 <= j < r.value ==> store[j].order.id != id
    ensures r.None? <==> !HasId(store, id)
    decreases |store|
  {
    if |store| == 0 then None
    else if store[0].order.id == id then Some(0)
    else
      match OrderIndex(store[1..], id)
      case None =>
        assert forall k :: 1 <= k < |store| ==> store[k] == store[1..][k - 1];
        None
      case Some(k) => Some(k + 1)
  }

  /** The error `findOne` throws for an absent id (its text says "Product"). */
  function NotFound(id: string): RpcError {
    RpcError(BAD_REQUEST, "Product with id " + id + " not found")
  }

  /** `findOne`: the stored order row with this id, or the not-found error. */
  function FindOne(store: Store, id: string): (r: Result<Order, RpcError>)
    ensures r.Success? <==> HasId(store, id)
    ensures r.Success? ==> r.value.id == id
    ensures r.Success? ==> exists k :: 0 <= k < |store| && store[k].order == r.value
    ensures r.Failure? ==> r.error == NotFound(id)
  {
    match OrderIndex(store, id)
    case None => Failure(NotFound(id))
    case Some(k) => Success(store[k].order)
  }

  /** With unique ids, `findOne` returns exactly the row that has the id. */
  lemma FindOneReturnsTheRow(store: Store, k: int)
    requires UniqueIds(store) && 0 <= k < |store|
    ensures FindOne(store, store[k].order.id) == Success(store[k].order)
  {
  }

  /** Whether an order passes `where: { status }`; an absent status filters nothing. */
  predicate Matches(o: Order, status: Option<Status>) {
    status.None? || o.status == status.value
  }

  /** The order rows that pass the status filter, in store order. */
  function Filter(store: Store, status: Option<Status>): (r: seq<Order>)
    ensures |r| <= |store|
    ensures forall o :: o in r ==> Matches(o, status)
    ensures status.None? ==> |r| == |store| && forall k :: 0 <= k < |store| ==> r[k] == store[k].order
    decreases |store|
  {
    if |store| == 0 then []
    else
      var rest := Filter(store[1..], status);
      if Matches(store[0].order, status) then [store[0].order] + rest else rest
  }

  /** The positions of the stored rows that pass the status filter. */
  function MatchingPositions(store: Store, status: Option<Status>): set<int> {
    set k | 0 <= k < |store| && Matches(store[k].order, status)
  }

  /** Filtering a store with one more row at the end lists that row last, if it passes. */
  lemma {:induction false} FilterSnoc(store: Store, x: StoredOrder, status: Option<Status>)
    ensures Filter(store + [x], status)
              == Filter(store, status) + (if Matches(x.order, status) then [x.order] else [])
    decreases |store|
  {
    if |store| == 0 {
      assert store + [x] == [x];
      assert [x][1..] == [];
    } else {
      FilterSnoc(store[1..], x, status);
      assert (store + [x])[1..] == store[1..] + [x];
    }
  }

  /** A row added at the end adds its own position, if it passes the filter. */
  lemma PositionsSnoc(store: Store, x: StoredOrder, status: Option<Status>)
    ensures MatchingPositions(store + [x], status)
              == MatchingPositions(store, status) + (if Matches(x.order, status) then {|store|} else {})
  {
    var longer := store + [x];
    assert forall k :: 0 <= k < |store| ==> longer[k] == store[k];
    assert longer[|store|] == x;
  }

  /**
    The filter lists one order per matching row: its length is the number of
    stored rows that pass the filter, which is what `count` answers.
  */
  lemma {:induction false} FilterCountsMatchingRows(store: Store, status: Option<Status>)
    ensures |Filter(store, status)| == |MatchingPositions(store, status)|
    decreases |store|
  {
    if |store| > 0 {
      var n := |store| - 1;
      var front := store[..n];
      assert store == front + [store[n]];
      FilterSnoc(front, store[n], status);
      PositionsSnoc(front, store[n], status);
      FilterCountsMatchingRows(front, status);
      assert n !in MatchingPositions(front, status);
    }
  }

  /** An order is listed by the filter exactly when it is a stored row that passes it. */
  lemma {:induction false} FilterMembership(store: Store, status: Option<Status>, o: Order)
    ensures o in Filter(store, status) <==> Matches(o, status) && exists k :: 0 <= k < |store| && store[k].order == o
    decreases |store|
  {
    if |store| > 0 {
      FilterMembership(store[1..], status, o);
      if exists k :: 1 <= k < |store| && store[k].order == o {
        var k :| 1 <= k < |store| && store[k].order == o;
        assert store[1..][k - 1] == store[k];
      }
      if exists k :: 0 <= k < |store[1..]| && store[1..][k].order == o {
        var k :| 0 <= k < |store[1..]| && store[1..][k].order == o;
        assert store[k + 1] == store[1..][k];
      }
    }
  }

  /** `Math.ceil(n / d)` for a non-negative count and a positive divisor. */
  function CeilDiv(n: nat, d: nat): (r: nat)
    requires d > 0
    ensures (r - 1) * d < n <= r * d
    ensures r == 0 <==> n == 0
  {
    var q := (n + d - 1) / d;
    assert q * d <= n + d - 1 < q * d + d;
    assert n == 0 ==> q == 0;
    q
  }

  /** Prisma's `skip`/`take`: at most `take` rows starting at offset `skip`. */
  function Window<T>(s: seq<T>, skip: nat, take: nat): (r: seq<T>)
    ensures |r| <= take
    ensures skip >= |s| ==> r == []
    ensures skip < |s| ==> |r| == if skip + take <= |s| then take else |s| - skip
    ensures forall i :: 0 <= i < |r| ==> skip + i < |s| && r[i] == s[skip + i]
  {
    if skip >= |s| then []
    else if skip + take <= |s| then s[skip..skip + take]
    else s[skip..]
  }

  /** The pagination metadata `findAll` answers with. */
  datatype Meta = Meta(page: nat, total: nat, lastPage: nat)

  /** The answer of `findAll`: one page of order rows and its metadata. */
  datatype Page = Page(data: seq<Order>, meta: Meta)

  /** The smaller of two integers. */
  function Min(a: int, b: int): int {
    if a <= b then a else b
  }

  /**
    Offset pagination of an already filtered row sequence: rows from offset
    `(page - 1) * limit`, at most `limit` of them, and `lastPage` the ceiling
    of the row count over `limit`.
  */
  function Paginate(rows: seq<Order>, page: nat, limit: nat): (r: Page)
    requires page >= 1 && limit >= 1
    ensures |r.data| <= limit
    ensures r.meta.page == page && r.meta.total == |rows|
    ensures forall i :: 0 <= i < |r.data| ==>
      var j := (page - 1) * limit + i; j < |rows| && r.data[i] == rows[j]
    ensures (page - 1) * limit < |rows| ==> |r.data| == Min(limit, |rows| - (page - 1) * limit)
    ensures r.meta.total == 0 <==> r.meta.lastPage == 0
    ensures r.meta.total > 0 ==> (r.meta.lastPage - 1) * limit < r.meta.total <= r.meta.lastPage * limit
  {
    Page(Window(rows, (page - 1) * limit, limit), Meta(page, |rows|, CeilDiv(|rows|, limit)))
  }

  /**
    `findAll`: page `page` of `limit` rows of the orders that pass the status
    filter; `total` counts under the same filter. Positive `page` and `limit`
    are what the request DTO admits.
  */
  function FindAll(store: Store, page: nat, limit: nat, status: Option<Status>): (r: Page)
    requires page >= 1 && limit >= 1
    ensures r == Paginate(Filter(store, status), page, limit)
    ensures r.meta.page == page && |r.data| <= limit
    ensures r.meta.total == |Filter(store, status)|
    ensures forall o :: o in r.data ==> o in Filter(store, status) && Matches(o, status)
  {
    var rows := Filter(store, status);
    var r := Paginate(rows, page, limit);
    assert forall o :: o in r.data ==> o in rows;
    r
  }

  /** A page holds rows exactly when its number is at most `lastPage`. */
  lemma PageNonEmptyIff(rows: seq<Order>, page: nat, limit: nat)
    requires page >= 1 && limit >= 1
    ensures var r := Paginate(rows, page, limit);
      |r.data| > 0 <==> page <= r.meta.lastPage
  {
    var r := Paginate(rows, page, limit);
    var last := r.meta.lastPage;
    var off := (page - 1) * limit;
    assert r.data == Window(rows, off, limit);
    if page <= last {
      var below := (last - 1) * limit;
      assert below < |rows|;
      MulMonotone(page - 1, last - 1, limit);
      assert off <= below;
    } else {
      var above := last * limit;
      assert |rows| <= above;
      MulMonotone(last, page - 1, limit);
      assert above <= off;
    }
  }

  /** Multiplying by the same natural number keeps the order. */
  lemma MulMonotone(a: nat, b: nat, c: nat)
    requires a <= b
    ensures a * c <= b * c
  {
  }

  /** Multiplication distributes over a successor. */
  lemma MulSucc(a: nat, c: nat)
    ensures (a + 1) * c == a * c + c
  {
  }

  /** The rows of pages 1 through `n`, concatenated. */
  function Pages(rows: seq<Order>, limit: nat, n: nat): seq<Order>
    requires limit >= 1
  {
    if n == 0 then [] else Pages(rows, limit, n - 1) + Paginate(rows, n, limit).data
  }

  /** Appending the window at `lo` to the first `lo` rows gives the first `lo + take` rows. */
  lemma WindowExtendsPrefix(rows: seq<Order>, lo: nat, take: nat)
    ensures rows[..Min(lo, |rows|)] + Window(rows, lo, take) == rows[..Min(lo + take, |rows|)]
  {
  }

  /** Pages 1 through `n` are the first `n * limit` rows. */
  lemma {:induction false} PagesArePrefix(rows: seq<Order>, limit: nat, n: nat)
    requires limit >= 1
    ensures Pages(rows, limit, n) == rows[..Min(n * limit, |rows|)]
  {
    if n > 0 {
      PagesArePrefix(rows, limit, n - 1);
      var lo := (n - 1) * limit;
      MulSucc(n - 1, limit);
      assert Pages(rows, limit, n) == rows[..Min(lo, |rows|)] + Window(rows, lo, limit);
      WindowExtendsPrefix(rows, lo, limit);
    }
  }

  /**
    Walking pages 1 through `lastPage` of `findAll` lists every order that
    passes the filter exactly once, in store order.
  */
  lemma AllPagesListFilter(store: Store, limit: nat, status: Option<Status>)
    requires limit >= 1
    ensures Pages(Filter(store, status), limit, FindAll(store, 1, limit, status).meta.lastPage)
              == Filter(store, status)
  {
    var rows := Filter(store, status);
    var last := FindAll(store, 1, limit, status).meta.lastPage;
    PagesArePrefix(rows, limit, last);
    assert Min(last * limit, |rows|) == |rows|;
    assert rows[..|rows|] == rows;
  }
}
