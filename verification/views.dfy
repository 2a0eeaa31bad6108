/**
 The two read-only projections of the cart: the cart panel that is redrawn
 after every mutation, and the order-confirmation list. Both walk the cart
 object key by key and accumulate their totals as they go.
 */
module Views {
  import opened CartState
  import opened Totals

  /** One row of the cart panel: `name`, `quantity x $price = $lineTotal`, and a remove button for `id`. */
  datatype ItemView = ItemView(id: string, name: string, quantity: int, unitPrice: int, lineTotal: int)

  /** Everything the cart panel shows for one state of the cart. */
  datatype CartView = CartView(
    items: seq<ItemView>,
    itemCount: int,
    totalPrice: int,
    emptyMessageShown: bool,
    totalShown: bool,
    confirmEnabled: bool)

  /** One row of the confirmation list; it has no remove button, so no id. */
  datatype ModalItem = ModalItem(name: string, quantity: int, unitPrice: int, lineTotal: int)

  datatype Confirmation = Confirmation(items: seq<ModalItem>, total: int)

  function RowOf(e: Entry): ItemView {
    ItemView(e.id, e.line.name, e.line.quantity, e.line.price, LineTotal(e.line))
  }

  /**
   Redraws the cart panel. The empty message is shown, the total hidden and the
   confirm button disabled exactly when the cart object has no keys; the count and
   total are the sums over the lines, and there is one row per line in order.
   */
  method RenderCart(c: Cart) returns (v: CartView)
    ensures v.emptyMessageShown <==> AsMap(c) == map[]
    ensures v.totalShown <==> AsMap(c) != map[]
    ensures v.confirmEnabled <==> AsMap(c) != map[]
    ensures v.itemCount == ItemCount(c)
    ensures v.totalPrice == TotalPrice(c)
    ensures |v.items| == |c|
    ensures forall i :: 0 <= i < |c| ==> v.items[i] == RowOf(c[i])
  {
    var cartIsEmpty := |c| == 0;
    var totalItems := 0;
    var totalPrice := 0;
    var items: seq<ItemView> := [];
    var i := 0;
    while i < |c|
      invariant 0 <= i <= |c|
      invariant totalItems == Sum(c[..i], Quantity)
      invariant totalPrice == Sum(c[..i], LineTotal)
      invariant |items| == i
      invariant forall j :: 0 <= j < i ==> items[j] == RowOf(c[j])
    {
      var item := c[i].line;
      totalItems := totalItems + item.quantity;
      totalPrice := totalPrice + item.quantity * item.price;
      items := items + [ItemView(c[i].id, item.name, item.quantity, item.price, item.quantity * item.price)];
      assert c[..i + 1] == c[..i] + [c[i]];
      SumAppend(c[..i], [c[i]], Quantity);
      SumAppend(c[..i], [c[i]], LineTotal);
      i := i + 1;
    }
    assert c[..|c|] == c;
    EmptyIffNoKeys(c);
    v := CartView(items, totalItems, totalPrice, cartIsEmpty, !cartIsEmpty, !cartIsEmpty);
  }

  /**
   Fills the confirmation list: one row per line, in the order and with the same
   figures as the cart panel's rows, and the same order total the panel shows.
   */
  method ShowOrderConfirmation(c: Cart) returns (s: Confirmation)
    ensures s.total == TotalPrice(c)
    ensures |s.items| == |c|
    ensures forall i :: 0 <= i < |c| ==>
      && s.items[i].name == RowOf(c[i]).name
      && s.items[i].quantity == RowOf(c[i]).quantity
      && s.items[i].unitPrice == RowOf(c[i]).unitPrice
      && s.items[i].lineTotal == RowOf(c[i]).lineTotal
  {
    var totalOrderPrice := 0;
    var items: seq<ModalItem> := [];
    var i := 0;
    while i < |c|
      invariant 0 <= i <= |c|
      invariant totalOrderPrice == Sum(c[..i], LineTotal)
      invariant |items| == i
      invariant forall j :: 0 <= j < i ==>
        items[j] == ModalItem(c[j].line.name, c[j].line.quantity, c[j].line.price, LineTotal(c[j].line))
    {
      var item := c[i].line;
      totalOrderPrice := totalOrderPrice + item.quantity * item.price;
      items := items + [ModalItem(item.name, item.quantity, item.price, item.quantity * item.price)];
      assert c[..i + 1] == c[..i] + [c[i]];
      SumAppend(c[..i], [c[i]], LineTotal);
      i := i + 1;
    }
    assert c[..|c|] == c;
    s := Confirmation(items, totalOrderPrice);
  }
}
