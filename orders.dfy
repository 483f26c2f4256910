/**
 A completed order: the owning user, the cart's item map at checkout and the
 total worked out once, when the order is made. An order never changes.
 */
module Orders {
  import opened Entities
  import opened Lines

  datatype Order = Order(user: User, items: map<Book, int>, total: int)

  /** The `Order` constructor: keeps the user and the items, sums the total. */
  method NewOrder(user: User, items: map<Book, int>, keyOrder: seq<Book>) returns (order: Order)
    requires IsKeyOrder(keyOrder, items)
    ensures order.user == user && order.items == items
    ensures order.total == LinesTotal(keyOrder, items)
  {
    var total := SumLines(items, keyOrder);
    order := Order(user, items, total);
  }

}
