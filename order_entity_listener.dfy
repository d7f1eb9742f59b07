/**
 * orderman's `OrderEntityListener`: before an order is inserted or updated,
 * its price must equal the sum of its items' subtotals; on insert the order
 * is then given its number.
 */
module OrderEntityListener {
  import opened Wrappers
  import opened OrdermanEntities
  import OrderNumberFormat

  /** The ValidationException both hooks may throw. */
  datatype Error = PriceMismatch

  /** The `validateOrderPrice` rule, stated on the price and the items. */
  predicate PriceMatches(order: Order)
    reads order, order.items
  {
    order.price == SubTotalSum(order.items)
  }

  /** `validateOrderPrice`: subtract every subtotal from the price and compare the rest with 0. */
  method ValidateOrderPrice(order: Order) returns (r: Outcome<Error>)
    ensures r.Pass? <==> PriceMatches(order)
    ensures r.Fail? ==> r.error == PriceMismatch
  {
    var price := order.price;
    var items := order.items;
    var i := 0;
    while i < |items|
      invariant 0 <= i <= |items|
      invariant price == order.price - SubTotalSum(items[..i])
    {
      assert items[..i + 1][..i] == items[..i];
      price := price - items[i].subTotal;
      i := i + 1;
    }
    assert items[..i] == items;
    if price != 0.0 {
      return Fail(PriceMismatch);
    }
    return Pass;
  }

  /** `onBeforeInsert`: validate first; only a valid order gets its number. */
  method OnBeforeInsert(order: Order, today: Date, serial: nat) returns (r: Outcome<Error>)
    modifies order`number
    ensures r.Pass? <==> PriceMatches(order)
    ensures r.Pass? ==> order.number == OrderNumberFormat.OrderNumber(today, serial)
    ensures r.Fail? ==> order.number == old(order.number)
  {
    r := ValidateOrderPrice(order);
    if r.Fail? {
      return;
    }
    order.number := OrderNumberFormat.OrderNumber(today, serial);
  }

  /** `onBeforeUpdate`: only the price check; nothing is changed. */
  method OnBeforeUpdate(order: Order) returns (r: Outcome<Error>)
    ensures r.Pass? <==> PriceMatches(order)
  {
    r := ValidateOrderPrice(order);
  }

  /** An order without items passes exactly when its price is 0. */
  lemma EmptyOrderPrice(order: Order)
    requires order.items == []
    ensures PriceMatches(order) <==> order.price == 0.0
  {
  }
}
