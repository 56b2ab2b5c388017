/** The orders service: owner-scoped creation, paged listing, lookup and
    removal over the order collection, and its error classifier. */
module Orders {
  import opened Store
  import opened Errors
  import opened OrderItems

  datatype Order = Order(id: Id, user: Id, orderDate: int, items: seq<OrderItem>)

  /** The answer of `findAll`: the owner's total, the page, and the paging
      parameters echoed back. */
  datatype OrderPage = OrderPage(total: nat, orders: seq<Order>, offset: nat, limit: nat)

  /** `handleDBErrors` of the orders service: only a schema validation
      failure is a bad request; it has no duplicate-key branch, and an HTTP
      exception thrown inside the `try` ends up as an internal error. */
  function HandleDbErrors(e: Thrown): (r: HttpError)
    ensures r.BadRequest? <==> e.StoreFault? && e.fault.ValidationError?
    ensures r.BadRequest? ==> r.message == e.fault.message
    ensures !r.BadRequest? ==> r == InternalServerError(CheckLogs)
  {
    match e
    case StoreFault(ValidationError(message)) => BadRequest(message)
    case _ => InternalServerError(CheckLogs)
  }

  /** The `order_date` of every order `actor` owns, by id. */
  function OwnedDates(orders: map<Id, Order>, actor: Id): (dates: map<Id, int>)
    ensures forall id :: id in dates <==> id in orders && orders[id].user == actor
    ensures forall id :: id in dates ==> dates[id] == orders[id].orderDate
    ensures dates.Keys == OwnedIds(orders, actor)
    ensures |dates| == OwnedCount(orders, actor)
  {
    map id | id in orders && orders[id].user == actor :: orders[id].orderDate
  }

  /** The ids of the orders `actor` owns. */
  function OwnedIds(orders: map<Id, Order>, actor: Id): set<Id>
  {
    set id | id in orders && orders[id].user == actor
  }

  /** The number of orders `actor` owns (`countDocuments({ user })`). */
  function OwnedCount(orders: map<Id, Order>, actor: Id): nat
  {
    |OwnedIds(orders, actor)|
  }

  /** The page of `actor`'s orders that `sort({ order_date: -1 })`,
      `skip(offset)` and `limit(limit)` select. */
  ghost function OwnedPage(orders: map<Id, Order>, actor: Id, offset: nat, limit: nat): (page: seq<Order>)
    ensures forall i :: 0 <= i < |page| ==> page[i] in orders.Values && page[i].user == actor
    ensures forall i, j :: 0 <= i < j < |page| ==> page[j].orderDate <= page[i].orderDate
    ensures limit > 0 ==> |page| <= limit
    ensures |page| > 0 ==> offset + |page| <= OwnedCount(orders, actor)
    ensures (limit == 0 || |page| < limit) ==> offset + |page| >= OwnedCount(orders, actor)
    ensures forall i :: 0 <= i < |page| ==>
              page[i] == orders[NewestFirst(OwnedDates(orders, actor))[offset + i]]
  {
    var owned := OwnedDates(orders, actor);
    var ids := PageIds(owned, offset, limit);
    var page := Fetch(orders, ids);
    assert forall i :: 0 <= i < |page| ==> page[i].orderDate == owned[ids[i]];
    page
  }

  /** `findAll(user, limit = 10, offset = 0)`: the owner's orders, newest
      `order_date` first, `offset` skipped and at most `limit` returned
      (0: no limit), together with the owner's total. */
  ghost function FindAll(orders: map<Id, Order>, actor: Id, limit: Option<nat>, offset: Option<nat>,
                         fault: Option<DbFault>): (r: Result<OrderPage>)
    ensures r.Err? <==> fault.Some?
    ensures r.Err? ==> r.error == HandleDbErrors(StoreFault(fault.value))
    ensures r.Ok? ==> r.value.limit == OrDefault(limit, 10) && r.value.offset == OrDefault(offset, 0)
    ensures r.Ok? ==> r.value.total == |set id | id in orders && orders[id].user == actor|
    ensures r.Ok? ==> r.value.orders == OwnedPage(orders, actor, r.value.offset, r.value.limit)
  {
    if fault.Some? then Err(HandleDbErrors(StoreFault(fault.value)))
    else
      var off := OrDefault(offset, 0);
      var lim := OrDefault(limit, 10);
      Ok(OrderPage(OwnedCount(orders, actor), OwnedPage(orders, actor, off, lim), off, lim))
  }

  /** `findOne(id, user)`: the order when both the id and the owner match.
      The `NotFound` thrown otherwise is caught and reclassified, so a missing
      or foreign order is an internal error, never a 404. */
  function FindOne(orders: map<Id, Order>, id: Id, actor: Id, fault: Option<DbFault>): (r: Result<Order>)
    ensures r.Ok? <==> fault.None? && id in orders && orders[id].user == actor
    ensures r.Ok? ==> r.value == orders[id]
    ensures fault.Some? ==> r == Err(HandleDbErrors(StoreFault(fault.value)))
    ensures fault.None? && r.Err? ==> r.error == InternalServerError(CheckLogs)
  {
    if fault.Some? then Err(HandleDbErrors(StoreFault(fault.value)))
    else if id in orders && orders[id].user == actor then Ok(orders[id])
    else Err(HandleDbErrors(Http(NotFound("Order with id " + id + " not found"))))
  }

  /** Storing a new order changes only its owner's total, by one. */
  lemma {:induction false} OwnedCountAfterInsert(orders: map<Id, Order>, newId: Id, order: Order, actor: Id)
    requires newId !in orders
    ensures OwnedCount(orders[newId := order], actor)
            == OwnedCount(orders, actor) + (if order.user == actor then 1 else 0)
  {
    var before := OwnedIds(orders, actor);
    var after := OwnedIds(orders[newId := order], actor);
    if order.user == actor {
      assert after == before + {newId};
    } else {
      assert after == before;
    }
  }

  /** Removing an order changes only its owner's total, by one. */
  lemma {:induction false} OwnedCountAfterRemove(orders: map<Id, Order>, id: Id, actor: Id)
    requires id in orders
    ensures OwnedCount(orders - {id}, actor)
            == OwnedCount(orders, actor) - (if orders[id].user == actor then 1 else 0)
  {
    var before := OwnedIds(orders, actor);
    var after := OwnedIds(orders - {id}, actor);
    if orders[id].user == actor {
      assert after == before - {id};
    } else {
      assert after == before;
    }
  }

  /** The order collection behind `OrdersService`. */
  class OrdersService {
    var orders: map<Id, Order>

    /** Every order is stored under its own id and carries validated items. */
    ghost predicate Valid()
      reads this
    {
      forall id :: id in orders ==> orders[id].id == id && ValidItems(orders[id].items)
    }

    constructor ()
      ensures Valid() && orders == map[]
    {
      orders := map[];
    }

    /** `create(dto, user)`: store one order owned by `actor`, dated `now`,
        holding exactly the request's items; `fault` is what `save()` raises,
        if anything. */
    method Create(dto: CreateOrderDto, actor: Id, newId: Id, now: int, fault: Option<DbFault>)
      returns (r: Result<Order>)
      requires Valid()
      requires ValidCreateOrder(dto)
      requires newId !in orders
      modifies this
      ensures Valid()
      ensures r.Ok? <==> fault.None?
      ensures r.Ok? ==> r.value == Order(newId, actor, now, dto.items)
      ensures r.Ok? ==> orders == old(orders)[newId := r.value]
      ensures r.Err? ==> r.error == HandleDbErrors(StoreFault(fault.value)) && orders == old(orders)
    {
      var order := Order(newId, actor, now, dto.items);
      if fault.Some? {
        r := Err(HandleDbErrors(StoreFault(fault.value)));
        return;
      }
      orders := orders[newId := order];
      r := Ok(order);
    }

    /** `remove(id, user)`: `findOneAndDelete({ _id: id, user })`. Only the
        matching owned order disappears; a missing or foreign id deletes
        nothing and, through the reclassified `NotFound`, is an internal error. */
    method Remove(id: Id, actor: Id, fault: Option<DbFault>) returns (r: Result<string>)
      requires Valid()
      modifies this
      ensures Valid()
      ensures r.Ok? <==> fault.None? && id in old(orders) && old(orders)[id].user == actor
      ensures r.Ok? ==> r.value == "Order deleted successfully" && orders == old(orders) - {id}
      ensures r.Err? ==> orders == old(orders)
      ensures fault.Some? ==> r == Err(HandleDbErrors(StoreFault(fault.value)))
      ensures fault.None? && r.Err? ==> r.error == InternalServerError(CheckLogs)
    {
      if fault.Some? {
        r := Err(HandleDbErrors(StoreFault(fault.value)));
        return;
      }
      if id in orders && orders[id].user == actor {
        orders := orders - {id};
        r := Ok("Order deleted successfully");
      } else {
        r := Err(HandleDbErrors(Http(NotFound("Order with id " + id + " not found"))));
      }
    }
  }
}
