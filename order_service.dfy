/** The order service: lifecycle rules over the repository. The functions
    give the meaning of each operation on the abstract table (result, new
    table, repository writes); the class runs them against a repository. */
module OrderDomain {
  import opened Wrappers
  import opened JsValues
  import opened OrderEntity
  import opened OrderStore

  /** The error the service throws when the order to change is not stored. */
  const ORDER_NOT_FOUND: Exception := PlainError("Order not found")

  /** What one service call does: its result, the table afterwards and the
      write requests it sent to the repository, in order. */
  datatype Effect = Effect(result: Result<Order, Exception>, table: Table, calls: seq<RepoCall>)

  /** The order built by `createOrder`, with the clock value as its id. */
  function NewOrder(now: int, items: Items, total: int, userId: Option<int>): (o: Order)
    ensures o.id == now && o.status == RECEIVED && o.paymentMethod == None
    ensures o.items == items && o.total == total && o.userId == userId
  {
    Order(now, items, total, RECEIVED, userId, None)
  }

  /** The field merge of `updateOrder`: items and total are replaced, the
      user only by a truthy one, and id, status and payment method stay. */
  function Merge(o: Order, items: Items, total: int, userId: Option<int>): (r: Order)
    ensures r.id == o.id && r.status == o.status && r.paymentMethod == o.paymentMethod
    ensures r.items == items && r.total == total
    ensures TruthyNumber(userId) ==> r.userId == userId
    ensures !TruthyNumber(userId) ==> r.userId == o.userId
  {
    o.(items := items, total := total, userId := if TruthyNumber(userId) then userId else o.userId)
  }

  /** `createOrder(items, total, userId)` at clock value `now`. */
  function CreateOrderSpec(t: Table, now: int, items: Items, total: int, userId: Option<int>): (e: Effect)
    requires WellFormed(t)
    ensures WellFormed(e.table)
    ensures |e.calls| == 1 && e.calls[0].CreateCall?
    ensures e.result.Success? <==> now !in t.rows
    ensures e.result.Success? ==>
      var o := e.result.value;
      && o.id == now && o.status == RECEIVED
      && o.items == items && o.total == total && o.userId == userId && o.paymentMethod == None
      && e.calls[0].order == o
      && e.table == Insert(t, o)
    ensures e.result.Failure? ==> e.table == t
  {
    var o := NewOrder(now, items, total, userId);
    if now in t.rows then Effect(Failure(DUPLICATE_ID), t, [CreateCall(o)])
    else Effect(Success(o), Insert(t, o), [CreateCall(o)])
  }

  /** `updateOrder(id, items, total, userId)`. */
  function UpdateOrderSpec(t: Table, id: int, items: Items, total: int, userId: Option<int>): (e: Effect)
    requires WellFormed(t)
    ensures WellFormed(e.table)
    ensures e.result.Failure? <==> id !in t.rows
    ensures id !in t.rows ==> e.result == Failure(ORDER_NOT_FOUND) && e.table == t && e.calls == []
    ensures id in t.rows ==>
      var was, o := t.rows[id], e.result.value;
      && o.id == id && o.status == was.status && o.paymentMethod == was.paymentMethod
      && o.items == items && o.total == total
      && o.userId == (if TruthyNumber(userId) then userId else was.userId)
      && e.table == Replace(t, o)
      && e.calls == [UpdateCall(o)]
  {
    match Find(t, id)
    case None => Effect(Failure(ORDER_NOT_FOUND), t, [])
    case Some(was) =>
      var o := Merge(was, items, total, userId);
      Effect(Success(o), Replace(t, o), [UpdateCall(o)])
  }

  /** `updateOrderStatus(id, status)`: any status may follow any other. */
  function UpdateStatusSpec(t: Table, id: int, status: OrderStatus): (e: Effect)
    requires WellFormed(t)
    ensures WellFormed(e.table)
    ensures e.result.Failure? <==> id !in t.rows
    ensures id !in t.rows ==> e.result == Failure(ORDER_NOT_FOUND) && e.table == t && e.calls == []
    ensures id in t.rows ==>
      var was, o := t.rows[id], e.result.value;
      && o.status == status
      && o.id == was.id && o.items == was.items && o.total == was.total
      && o.userId == was.userId && o.paymentMethod == was.paymentMethod
      && e.table == Replace(t, o)
      && e.calls == [UpdateCall(o)]
  {
    match Find(t, id)
    case None => Effect(Failure(ORDER_NOT_FOUND), t, [])
    case Some(was) =>
      var o := was.(status := status);
      Effect(Success(o), Replace(t, o), [UpdateCall(o)])
  }

  /** Updating with the values an order already has, and a falsy user id,
      leaves the table as it was (the repository still receives the write). */
  lemma UpdateWithSameValuesKeepsTable(t: Table, id: int, userId: Option<int>)
    requires WellFormed(t) && id in t.rows && !TruthyNumber(userId)
    ensures UpdateOrderSpec(t, id, t.rows[id].items, t.rows[id].total, userId).table == t
  {
  }

  /** A status update never changes what `updateOrder` owns, and vice versa:
      the two kinds of update commute on the stored record. */
  lemma {:induction false} UpdatesCommute(t: Table, id: int, items: Items, total: int, userId: Option<int>, status: OrderStatus)
    requires WellFormed(t) && id in t.rows
    ensures
      var a := UpdateOrderSpec(UpdateStatusSpec(t, id, status).table, id, items, total, userId).table;
      var b := UpdateStatusSpec(UpdateOrderSpec(t, id, items, total, userId).table, id, status).table;
      a == b
  {
    var was := t.rows[id];
    var both := Merge(was, items, total, userId).(status := status);
    var statusFirst := Replace(t, was.(status := status));
    var mergeFirst := Replace(t, Merge(was, items, total, userId));
    assert UpdateStatusSpec(t, id, status).table == statusFirst;
    assert UpdateOrderSpec(t, id, items, total, userId).table == mergeFirst;
    assert UpdateOrderSpec(statusFirst, id, items, total, userId).table == Replace(statusFirst, both);
    assert UpdateStatusSpec(mergeFirst, id, status).table == Replace(mergeFirst, both);
    ReplaceTwice(t, was.(status := status), both);
    ReplaceTwice(t, Merge(was, items, total, userId), both);
  }

  /** Listing two orders from the start of a store of five gives the first
      two in insertion order. */
  lemma ListFirstTwoOfFive(t: Table)
    requires WellFormed(t) && |t.ids| == 5
    ensures t.ids[0] in t.rows && t.ids[1] in t.rows
    ensures Page(t, 2, 0) == [t.rows[t.ids[0]], t.rows[t.ids[1]]]
  {
  }

  class OrderService {
    const repo: OrderRepository

    constructor (repo: OrderRepository)
      ensures this.repo == repo
    {
      this.repo := repo;
    }

    method CreateOrder(now: int, items: Items, total: int, userId: Option<int>) returns (r: Result<Order, Exception>)
      requires repo.Valid()
      modifies repo
      ensures repo.Valid()
      ensures var e := CreateOrderSpec(old(repo.State()), now, items, total, userId);
        r == e.result && repo.State() == e.table && repo.calls == old(repo.calls) + e.calls
    {
      var order := NewOrder(now, items, total, userId);
      r := repo.Create(order);
    }

    method GetOrderById(id: int) returns (r: Option<Order>)
      requires repo.Valid()
      ensures r == Find(repo.State(), id)
    {
      r := repo.FindById(id);
    }

    method UpdateOrder(id: int, items: Items, total: int, userId: Option<int>) returns (r: Result<Order, Exception>)
      requires repo.Valid()
      modifies repo
      ensures repo.Valid()
      ensures var e := UpdateOrderSpec(old(repo.State()), id, items, total, userId);
        r == e.result && repo.State() == e.table && repo.calls == old(repo.calls) + e.calls
    {
      var found := repo.FindById(id);
      if found.None? {
        return Failure(ORDER_NOT_FOUND);
      }
      var order := found.value;
      order := order.(items := items, total := total);
      if TruthyNumber(userId) {
        order := order.(userId := userId);
      }
      r := repo.Update(order);
    }

    method UpdateOrderStatus(id: int, status: OrderStatus) returns (r: Result<Order, Exception>)
      requires repo.Valid()
      modifies repo
      ensures repo.Valid()
      ensures var e := UpdateStatusSpec(old(repo.State()), id, status);
        r == e.result && repo.State() == e.table && repo.calls == old(repo.calls) + e.calls
    {
      var found := GetOrderById(id);
      if found.None? {
        return Failure(ORDER_NOT_FOUND);
      }
      var order := found.value.(status := status);
      r := repo.Update(order);
    }

    method DeleteOrder(id: int) returns (removed: bool)
      requires repo.Valid()
      modifies repo
      ensures repo.Valid()
      ensures removed == (id in old(repo.rows))
      ensures repo.State() == Remove(old(repo.State()), id)
      ensures repo.calls == old(repo.calls) + [DeleteCall(id)]
    {
      removed := repo.Delete(id);
    }

    method ListOrders(limit: nat, offset: nat) returns (r: seq<Order>)
      requires repo.Valid()
      ensures r == Page(repo.State(), limit, offset)
    {
      r := repo.List(limit, offset);
    }
  }
}
