/**
  `OrdersService.changeStatus`: look the order up with `findOne`, then write
  the new status. No transition table is enforced: any status may follow any
  other.
*/
module OrderStatusChange {
  import opened Wrappers
  import opened OrderModel
  import opened OrderQueries

  /**
    Change the status of order `id`. `now` is the timestamp the repository
    stamps into `updatedAt` on every update.
  */
  function ChangeStatus(store: Store, id: string, status: Status, now: Timestamp): (o: Outcome<Order>)
    ensures o.result.Failure? <==> !HasId(store, id)
    ensures o.result.Failure? ==> o.store == store && o.result == FindOne(store, id)
    ensures o.result.Success? ==> o.result.value.status == status && o.result.value.id == id
    ensures |o.store| == |store|
  {
    match FindOne(store, id)
    case Failure(e) => Outcome(store, Failure(e))
    case Success(_) =>
      var k := OrderIndex(store, id).value;
      var updated := store[k].order.(status := status, updatedAt := now);
      Outcome(store[k := store[k].(order := updated)], Success(updated))
  }

  /**
    On a stored order, only that row's `status` (and the repository's
    `updatedAt`) change; its id, totals, payment fields, creation time and
    lines stay, and every other row is untouched.
  */
  lemma ChangeStatusTouchesOnlyStatus(store: Store, k: int, status: Status, now: Timestamp)
    requires UniqueIds(store) && 0 <= k < |store|
    ensures var o := ChangeStatus(store, store[k].order.id, status, now);
      && o.store[k].order == store[k].order.(status := status, updatedAt := now)
      && o.store[k].lines == store[k].lines
      && o.result == Success(o.store[k].order)
      && forall j :: 0 <= j < |store| && j != k ==> o.store[j] == store[j]
  {
  }

  /** Once applied, a second identical status change leaves the store as it is. */
  lemma ChangeStatusIdempotent(store: Store, id: string, status: Status, now: Timestamp)
    requires UniqueIds(store)
    ensures var once := ChangeStatus(store, id, status, now).store;
      ChangeStatus(once, id, status, now) == ChangeStatus(store, id, status, now)
  {
    var o := ChangeStatus(store, id, status, now);
    if HasId(store, id) {
      var k := OrderIndex(store, id).value;
      ChangeStatusTouchesOnlyStatus(store, k, status, now);
      ChangeStatusPreservesValidIds(store, id, status, now);
      ChangeStatusTouchesOnlyStatus(o.store, k, status, now);
      assert o.store[k := o.store[k]] == o.store;
    }
  }

  /** A status change keeps ids unique. */
  lemma ChangeStatusPreservesValidIds(store: Store, id: string, status: Status, now: Timestamp)
    requires UniqueIds(store)
    ensures UniqueIds(ChangeStatus(store, id, status, now).store)
  {
  }

  /** A status change keeps the store valid: totals and lines are not rewritten. */
  lemma ChangeStatusPreservesValid(store: Store, id: string, status: Status, now: Timestamp)
    requires Valid(store)
    ensures Valid(ChangeStatus(store, id, status, now).store)
  {
  }

  /** After a successful change, `findOne` sees the new status. */
  lemma ChangeStatusThenFindOne(store: Store, id: string, status: Status, now: Timestamp)
    requires UniqueIds(store) && HasId(store, id)
    ensures var o := ChangeStatus(store, id, status, now);
      FindOne(o.store, id) == o.result && o.result.value.status == status
  {
    var o := ChangeStatus(store, id, status, now);
    var k := OrderIndex(store, id).value;
    ChangeStatusTouchesOnlyStatus(store, k, status, now);
    ChangeStatusPreservesValidIds(store, id, status, now);
    FindOneReturnsTheRow(o.store, k);
  }
}
