/** The order use-cases of the API that change a stored order. */
module OrderService {
  import opened Wrappers
  import opened OrderStatus
  import opened Orders
  import opened OrderRepo

  datatype ServiceError = OrderNotFound(id: OrderId) | InvalidTransition(from: Status, next: Status)

  /** Nobody wrote the status of `id`. */
  predicate Untouched(rows: map<OrderId, Row>, id: OrderId, others: seq<Event>) {
    id in rows && StatusWrites(rows[id], WritesTo(id, others)) == 0
  }

  /** The row with a new status, one version on, and the hash replaced if one, or null, was passed. */
  function Swapped(r: Row, next: Status, txHash: Option<Option<Hash>>): Row {
    r.(status := next, version := r.version + 1, txHash := if txHash.Some? then txHash.value else r.txHash)
  }

  class OrderService {
    const repo: OrderRepository

    constructor (repo: OrderRepository)
      ensures this.repo == repo
    {
      this.repo := repo;
    }

    method GetOrder(id: OrderId) returns (r: Result<Row, ServiceError>)
      ensures r == if id in repo.rows then Success(repo.rows[id]) else Failure(OrderNotFound(id))
    {
      var order := repo.FindById(id);
      return if order.Some? then Success(order.value) else Failure(OrderNotFound(id));
    }

    /** The compare-and-swap on what was read, after `others` have written. */
    method Swap(id: OrderId, order: Row, next: Status, txHash: Option<Option<Hash>>, others: seq<Event>)
      returns (updated: Option<Row>)
      requires id in repo.rows && repo.rows[id] == order
      modifies repo
      ensures id in repo.rows && (updated.Some? <==> Untouched(old(repo.rows), id, others))
      ensures repo.rows == if updated.None? then Play(old(repo.rows), others)
                           else Play(old(repo.rows), others)[id := updated.value]
      ensures updated.Some? ==> updated.value == Swapped(Play(old(repo.rows), others)[id], next, txHash)
    {
      PlayRow(repo.rows, others, id);
      TransitionMeansUntouched(order, WritesTo(id, others), next, txHash);
      repo.Meanwhile(others);
      ghost var rows := repo.rows;
      updated := repo.TransitionStatus(id, order.status, order.version, next, txHash);
      assert rows == rows[id := rows[id]];
    }

    /**
     A cancel goes through exactly if the order was cancellable when read and nobody
     wrote its status since; otherwise nothing is written and the true status is reported.
     */
    method CancelOrder(id: OrderId, others: seq<Event>) returns (r: Result<Row, ServiceError>)
      modifies repo
      ensures r.Success? <==>
              && id in old(repo.rows) && old(repo.rows)[id].status in {PENDING, TRIGGERED}
              && Untouched(old(repo.rows), id, others)
      ensures r.Success? ==> id in repo.rows && repo.rows == Play(old(repo.rows), others)[id := r.value]
      ensures r.Success? ==>
                r.value == Swapped(Play(old(repo.rows), others)[id], CANCELLED, None)
      ensures r.Failure? ==>
                repo.rows == if id in old(repo.rows) && old(repo.rows)[id].status in {PENDING, TRIGGERED}
                             then Play(old(repo.rows), others) else old(repo.rows)
      ensures r.Failure? ==>
                r.error == if id in repo.rows then InvalidTransition(repo.rows[id].status, CANCELLED)
                           else OrderNotFound(id)
    {
      var order := GetOrder(id);
      if order.Failure? { return Failure(order.error); }
      var read := order.value;
      if !IsUserCancellable(read.status) { return Failure(InvalidTransition(read.status, CANCELLED)); }
      var updated := Swap(id, read, CANCELLED, None, others);
      if updated.None? {
        var current := GetOrder(id);
        return Failure(InvalidTransition(current.value.status, CANCELLED));
      }
      return Success(updated.value);
    }

    /** Only along the transition table, with the hash field passed on, and null if somebody got there first. */
    method TransitionOrder(id: OrderId, next: Status, txHash: Option<Option<Hash>>, others: seq<Event>)
      returns (r: Result<Option<Row>, ServiceError>)
      modifies repo
      ensures r.Failure? <==> id !in old(repo.rows) || !CanTransition(old(repo.rows)[id].status, next)
      ensures r.Failure? ==> repo.rows == old(repo.rows)
      ensures r.Failure? ==>
                r.error == if id in repo.rows then InvalidTransition(repo.rows[id].status, next) else OrderNotFound(id)
      ensures r.Success? ==> (r.value.Some? <==> Untouched(old(repo.rows), id, others))
      ensures r.Success? && r.value.Some? ==> repo.rows == Play(old(repo.rows), others)[id := r.value.value]
      ensures r.Success? && r.value.Some? ==>
                r.value.value == Swapped(Play(old(repo.rows), others)[id], next, txHash)
      ensures r.Success? && r.value.None? ==> repo.rows == Play(old(repo.rows), others)
    {
      var order := GetOrder(id);
      if order.Failure? { return Failure(order.error); }
      var read := order.value;
      if !CanTransition(read.status, next) { return Failure(InvalidTransition(read.status, next)); }
      var updated := Swap(id, read, next, txHash, others);
      return Success(updated);
    }

    /** From PENDING, and from FAILED as a retry. */
    method MarkTriggered(id: OrderId, others: seq<Event>) returns (r: Result<Option<Row>, ServiceError>)
      modifies repo
      ensures r.Success? <==> id in old(repo.rows) && old(repo.rows)[id].status in {PENDING, FAILED}
      ensures r.Success? ==> (r.value.Some? <==> Untouched(old(repo.rows), id, others))
      ensures r.Success? && r.value.Some? ==> repo.rows == Play(old(repo.rows), others)[id := r.value.value]
      ensures r.Success? && r.value.Some? ==>
                r.value.value == Swapped(Play(old(repo.rows), others)[id], TRIGGERED, None)
      ensures r.Success? && r.value.None? ==> repo.rows == Play(old(repo.rows), others)
      ensures r.Failure? ==> repo.rows == old(repo.rows)
    {
      r := TransitionOrder(id, TRIGGERED, None, others);
    }
  }
}
