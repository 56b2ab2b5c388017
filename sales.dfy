/** The sales service: a sale is recorded from one of the acting user's
    orders, with its amount and unit count folded from the order's items;
    listings and lookups only ever show the acting user's sales. */
module Sales {
  import opened Store
  import opened Errors
  import opened OrderItems
  import opened Orders

  datatype Sale = Sale(id: Id, user: Id, order: Id, date: int, totalAmount: int, itemsCount: int)

  datatype CreateSaleDto = CreateSaleDto(order: Id)

  /** The sale `create` records for `order` on behalf of `actor`. */
  function NewSale(id: Id, actor: Id, order: Order, now: int): (sale: Sale)
    ensures sale.totalAmount == LineSum(order.items)
    ensures sale.itemsCount == QuantitySum(order.items)
    ensures ValidItems(order.items) ==> sale.totalAmount >= 0 && sale.itemsCount >= |order.items|
  {
    TotalAmountIsLineSum(order.items);
    ItemsCountIsQuantitySum(order.items);
    Sale(id, actor, order.id, now, TotalAmount(order.items), ItemsCount(order.items))
  }

  /** Does a sale dated `date` pass the date window of `findAll`? The window
      applies only when both bounds are given, and includes both ends. */
  predicate InWindow(date: int, fromDate: Option<int>, toDate: Option<int>)
  {
    fromDate.Some? && toDate.Some? ==> fromDate.value <= date <= toDate.value
  }

  /** `findAll(user, fromDate, toDate)`: exactly the sales `actor` owns whose
      date passes the window. */
  function FindAll(sales: map<Id, Sale>, actor: Id, fromDate: Option<int>, toDate: Option<int>)
    : (found: map<Id, Sale>)
    ensures forall id :: id in found <==>
              id in sales && sales[id].user == actor
              && (fromDate.Some? && toDate.Some? ==> fromDate.value <= sales[id].date <= toDate.value)
    ensures forall id :: id in found ==> found[id] == sales[id]
  {
    map id | id in sales && sales[id].user == actor && InWindow(sales[id].date, fromDate, toDate) :: sales[id]
  }

  /** `findOne(id, user)`: the sale when it exists and `actor` owns it;
      otherwise a 404, since no `catch` reclassifies it here. */
  function FindOne(sales: map<Id, Sale>, id: Id, actor: Id): (r: Result<Sale>)
    ensures r.Ok? <==> id in sales && sales[id].user == actor
    ensures r.Ok? ==> r.value == sales[id]
    ensures r.Err? ==> r.error == NotFound("Sale not found")
  {
    if id in sales && sales[id].user == actor then Ok(sales[id]) else Err(NotFound("Sale not found"))
  }

  /** Narrowing the window never shows a sale the unwindowed listing hides:
      a windowed listing is contained in the listing without bounds. */
  lemma WindowNarrows(sales: map<Id, Sale>, actor: Id, fromDate: int, toDate: int)
    ensures var windowed := FindAll(sales, actor, Some(fromDate), Some(toDate));
            var all := FindAll(sales, actor, None, None);
            && windowed.Keys <= all.Keys
            && (forall id :: id in all && fromDate <= all[id].date <= toDate ==> id in windowed)
  {
  }

  /** The sale collection behind `SalesService`. */
  class SalesService {
    var sales: map<Id, Sale>

    ghost predicate Valid()
      reads this
    {
      forall id :: id in sales ==> sales[id].id == id
    }

    constructor ()
      ensures Valid() && sales == map[]
    {
      sales := map[];
    }

    /** `create(dto, user)`: record a sale of the order `dto.order` if it
        exists and `actor` owns it; `orders` is the order collection, which
        is read and never written; `newId` and `now` are the new sale's id and
        date. */
    method Create(orders: map<Id, Order>, dto: CreateSaleDto, actor: Id, newId: Id, now: int)
      returns (r: Result<Sale>)
      requires Valid()
      requires newId !in sales
      modifies this
      ensures Valid()
      ensures r.Ok? <==> dto.order in orders && orders[dto.order].user == actor
      ensures r.Err? ==> r.error == NotFound("Order not found") && sales == old(sales)
      ensures r.Ok? ==> r.value == NewSale(newId, actor, orders[dto.order], now)
      ensures r.Ok? ==> r.value.user == actor && r.value.order == orders[dto.order].id
      ensures r.Ok? ==> sales == old(sales)[newId := r.value]
    {
      if dto.order !in orders || orders[dto.order].user != actor {
        r := Err(NotFound("Order not found"));
        return;
      }
      var sale := NewSale(newId, actor, orders[dto.order], now);
      sales := sales[newId := sale];
      r := Ok(sale);
    }
  }
}
