/**
 * orderman's order editor: a new order starts as NEW with price 0, and on
 * commit the price is recomputed as the sum of the items' subtotals.
 */
module OrderEdit {
  import opened Wrappers
  import opened OrdermanEntities
  import OrderEntityListener

  /** `initNewItem`: status NEW, price 0 and the current date; `now` is the clock's reading. */
  method InitNewItem(order: Order, now: Date)
    modifies order`status, order`price, order`date
    ensures order.status == Some(NEW) && order.price == 0.0 && order.date == Some(now)
  {
    order.status := Some(NEW);
    order.price := 0.0;
    order.date := Some(now);
  }

  /** `preCommit`: the price becomes the sum of the subtotals; nothing else changes. */
  method PreCommit(order: Order)
    modifies order`price
    ensures order.price == SubTotalSum(order.items)
    ensures OrderEntityListener.PriceMatches(order)
  {
    var price := 0.0;
    var items := order.items;
    var i := 0;
    while i < |items|
      invariant 0 <= i <= |items|
      invariant price == SubTotalSum(items[..i])
    {
      assert items[..i + 1][..i] == items[..i];
      price := price + items[i].subTotal;
      i := i + 1;
    }
    assert items[..i] == items;
    order.price := price;
  }

  /**
   * Saving an edited order: `preCommit` runs, then the update listener checks
   * the price, which it always accepts.
   */
  method CommitEditedOrder(order: Order) returns (r: Outcome<OrderEntityListener.Error>)
    modifies order`price
    ensures r.Pass?
    ensures order.price == SubTotalSum(order.items)
  {
    PreCommit(order);
    r := OrderEntityListener.OnBeforeUpdate(order);
  }
}
