/** The items of an order as `CreateOrderDto` validates them, and the two
    folds the sales service computes over them. Prices are whole cents and
    quantities whole units. */
module OrderItems {
  import opened Store

  datatype OrderItem = OrderItem(product: Id, quantity: int, price: int)

  /** The body of a create-order request. */
  datatype CreateOrderDto = CreateOrderDto(items: seq<OrderItem>)

  predicate IsHexDigit(c: char)
  {
    '0' <= c <= '9' || 'a' <= c <= 'f' || 'A' <= c <= 'F'
  }

  predicate AllHex(s: string)
  {
    forall i :: 0 <= i < |s| ==> IsHexDigit(s[i])
  }

  /** validator.js `isHexadecimal`: one or more hexadecimal digits, after an
      optional `0x` or `0h` prefix in either case. */
  predicate IsHexadecimal(s: string)
  {
    || (|s| > 0 && AllHex(s))
    || (|s| > 2 && s[0] == '0' && s[1] in {'x', 'X', 'h', 'H'} && AllHex(s[2..]))
  }

  /** `@IsMongoId()`, which is validator.js `isMongoId`: a hexadecimal string
      of exactly 24 characters, a prefix included. */
  predicate IsMongoId(s: string)
  {
    IsHexadecimal(s) && |s| == 24
  }

  /** The decorators on `OrderItemDto`: a non-empty product id in ObjectId
      form, a quantity of at least 1 and a price of at least 0. */
  predicate ValidItem(item: OrderItem)
  {
    && IsMongoId(item.product)
    && item.product != ""
    && item.quantity >= 1
    && item.price >= 0
  }

  /** `@IsArray() @ValidateNested({ each: true })`: every element is valid. */
  predicate ValidItems(items: seq<OrderItem>)
  {
    forall i :: 0 <= i < |items| ==> ValidItem(items[i])
  }

  predicate ValidCreateOrder(dto: CreateOrderDto)
  {
    ValidItems(dto.items)
  }

  /** `@IsNotEmpty()` adds nothing to `@IsMongoId()`: an item passes exactly
      when its product id is 24 characters, either all hexadecimal digits or
      `0x`/`0h` (either case) followed by 22 of them, its quantity is at
      least 1 and its price at least 0. */
  lemma ValidItemIff(item: OrderItem)
    ensures ValidItem(item) <==>
              && |item.product| == 24
              && (|| AllHex(item.product)
                  || (item.product[0] == '0' && item.product[1] in {'x', 'X', 'h', 'H'}
                      && |item.product[2..]| == 22 && AllHex(item.product[2..])))
              && item.quantity >= 1 && item.price >= 0
  {
  }

  /** The prefixed form is accepted too: `0x` and 22 hexadecimal digits is a
      product id the validator lets through. */
  lemma PrefixedIdAccepted(digits: string)
    requires |digits| == 22 && AllHex(digits)
    ensures IsMongoId("0x" + digits)
  {
    assert ("0x" + digits)[2..] == digits;
  }

  /** Validation is per element: a concatenation of item lists passes
      exactly when both parts pass. */
  lemma ValidItemsAppend(a: seq<OrderItem>, b: seq<OrderItem>)
    ensures ValidItems(a + b) <==> ValidItems(a) && ValidItems(b)
  {
    if ValidItems(a + b) {
      assert forall i :: 0 <= i < |a| ==> (a + b)[i] == a[i];
      assert forall i :: 0 <= i < |b| ==> (a + b)[|a| + i] == b[i];
    }
  }

  /** `items.reduce((sum, item) => sum + item.price * item.quantity, 0)`:
      a left fold, so the last item is added last. */
  function TotalAmount(items: seq<OrderItem>): (total: int)
    ensures ValidItems(items) ==> total >= 0
  {
    if |items| == 0 then 0
    else
      var last := items[|items| - 1];
      TotalAmount(items[..|items| - 1]) + last.price * last.quantity
  }

  /** `items.reduce((sum, item) => sum + item.quantity, 0)`. */
  function ItemsCount(items: seq<OrderItem>): (count: int)
    ensures ValidItems(items) ==> count >= |items|
  {
    if |items| == 0 then 0
    else ItemsCount(items[..|items| - 1]) + items[|items| - 1].quantity
  }

  /** The reference definition of the line total Σ price·quantity, summed
      from the front. */
  function LineSum(items: seq<OrderItem>): int
  {
    if |items| == 0 then 0 else items[0].price * items[0].quantity + LineSum(items[1..])
  }

  /** The reference definition of Σ quantity, summed from the front. */
  function QuantitySum(items: seq<OrderItem>): int
  {
    if |items| == 0 then 0 else items[0].quantity + QuantitySum(items[1..])
  }

  lemma {:induction false} LineSumAppend(items: seq<OrderItem>, item: OrderItem)
    ensures LineSum(items + [item]) == LineSum(items) + item.price * item.quantity
  {
    if |items| > 0 {
      assert (items + [item])[1..] == items[1..] + [item];
      LineSumAppend(items[1..], item);
    }
  }

  lemma {:induction false} QuantitySumAppend(items: seq<OrderItem>, item: OrderItem)
    ensures QuantitySum(items + [item]) == QuantitySum(items) + item.quantity
  {
    if |items| > 0 {
      assert (items + [item])[1..] == items[1..] + [item];
      QuantitySumAppend(items[1..], item);
    }
  }

  /** The left fold of the source is the sum Σ price·quantity over the items. */
  lemma {:induction false} TotalAmountIsLineSum(items: seq<OrderItem>)
    ensures TotalAmount(items) == LineSum(items)
  {
    if |items| > 0 {
      var init := items[..|items| - 1];
      var last := items[|items| - 1];
      assert items == init + [last];
      TotalAmountIsLineSum(init);
      LineSumAppend(init, last);
    }
  }

  /** The left fold of the source is the sum Σ quantity over the items. */
  lemma {:induction false} ItemsCountIsQuantitySum(items: seq<OrderItem>)
    ensures ItemsCount(items) == QuantitySum(items)
  {
    if |items| > 0 {
      var init := items[..|items| - 1];
      var last := items[|items| - 1];
      assert items == init + [last];
      ItemsCountIsQuantitySum(init);
      QuantitySumAppend(init, last);
    }
  }

  /** For validated items the count equals the number of lines exactly when
      every line has quantity 1. */
  lemma {:induction false} ItemsCountIsLinesIffSingleUnits(items: seq<OrderItem>)
    requires ValidItems(items)
    ensures ItemsCount(items) == |items| <==> forall i :: 0 <= i < |items| ==> items[i].quantity == 1
  {
    if |items| > 0 {
      var init := items[..|items| - 1];
      assert ValidItems(init);
      ItemsCountIsLinesIffSingleUnits(init);
      if ItemsCount(items) == |items| {
        forall i | 0 <= i < |items|
          ensures items[i].quantity == 1
        {
          if i < |items| - 1 { assert init[i] == items[i]; }
        }
      } else {
        var last := items[|items| - 1];
        if last.quantity == 1 {
          assert exists i :: 0 <= i < |init| && init[i].quantity != 1;
          var i :| 0 <= i < |init| && init[i].quantity != 1;
          assert items[i] == init[i];
        }
      }
    }
  }

  /** A validated order is never cheaper than the sum of its unit prices:
      each line costs at least its price, since every quantity is at least 1. */
  lemma {:induction false} TotalAmountCoversUnitPrices(items: seq<OrderItem>)
    requires ValidItems(items)
    ensures TotalAmount(items) >= PriceSum(items)
  {
    if |items| > 0 {
      var init := items[..|items| - 1];
      var last := items[|items| - 1];
      assert ValidItems(init);
      TotalAmountCoversUnitPrices(init);
      assert last.price * last.quantity >= last.price by {
        assert last.price * (last.quantity - 1) >= 0;
      }
    }
  }

  /** Σ price over the items, one unit each. */
  function PriceSum(items: seq<OrderItem>): int
  {
    if |items| == 0 then 0 else PriceSum(items[..|items| - 1]) + items[|items| - 1].price
  }
}
