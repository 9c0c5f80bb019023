/**
 * The observer that reports a whole order, with every visible item, once the
 * order has just become complete and purchase export is on.
 */
module PurchaseObserver {
  import opened Wrappers
  import opened Json
  import opened OrderModel
  import opened Queue

  const Topic: string := "loyaltyshop.purchase_event"

  /** The entry of a visible item: the SKU, the price as a float and the `(int)` ordered quantity. */
  function ProductEntry(it: OrderItem): Json {
    JObj([("sku", JStr(it.sku)), ("price", JNum(it.price)), ("quantity", JInt(it.qtyOrdered))])
  }

  /** The loop that fills `$products`. */
  method CollectProducts(items: seq<OrderItem>) returns (products: seq<Json>)
    ensures products == EntriesOf(items, ProductEntry)
  {
    products := [];
    var k := 0;
    while k < |items|
      invariant 0 <= k <= |items|
      invariant products == EntriesOf(items[..k], ProductEntry)
    {
      EntriesOfSnoc(items[..k], items[k], ProductEntry);
      assert items[..k + 1] == items[..k] + [items[k]];
      products := products + [ProductEntry(items[k])];
      k := k + 1;
    }
    assert items[..k] == items;
  }

  /** The one-element payload list: event 'Purchase', the e-mail, number, date and products. */
  function Payload(o: Order, orderDate: string, products: seq<Json>): Json {
    JArr([JObj([("event", JStr("Purchase")), ("email", StringOrNull(o.customerEmail)),
                ("orderId", JStr(o.incrementId)), ("orderDate", JStr(orderDate)), ("products", JArr(products))])])
  }

  /**
   * The message for an order; `orderDate` is the order's creation time in the
   * ISO 8601 form `format('c')` gives.
   */
  function MessageFor(exportEnabled: bool, o: Order?, orderDate: string): (m: Option<Message>)
    ensures m.Some? <==> exportEnabled && o != null && JustCompleted(o.origStatus, o.status)
    ensures m.Some? ==> m.value.topic == Topic
  {
    if !exportEnabled || o == null || !JustCompleted(o.origStatus, o.status) then None
    else Some(Message(Topic, Payload(o, orderDate, EntriesOf(VisibleOrderItems(o.items), ProductEntry))))
  }

  /**
   * A published message is a list of one event 'Purchase' for the order's e-mail,
   * with one product entry per visible item, in order.
   */
  lemma MessageContents(exportEnabled: bool, o: Order?, orderDate: string)
    requires MessageFor(exportEnabled, o, orderDate).Some?
    ensures var p := MessageFor(exportEnabled, o, orderDate).value.payload;
      p.JArr? && |p.elems| == 1
      && Get(p.elems[0], "event") == JStr("Purchase")
      && Get(p.elems[0], "email") == StringOrNull(o.customerEmail)
      && Get(p.elems[0], "products") == JArr(EntriesOf(VisibleOrderItems(o.items), ProductEntry))
      && |EntriesOf(VisibleOrderItems(o.items), ProductEntry)| == |VisibleOrderItems(o.items)|
  {
    var fields := Payload(o, orderDate, EntriesOf(VisibleOrderItems(o.items), ProductEntry)).elems[0].fields;
    assert "event"[1] != "email"[1] && |"products"| != |"event"| && |"products"| != |"email"|;
    assert "products" != "orderId" && "products" != "orderDate";
    LookupAt(fields, 0);
    LookupAt(fields, 1);
    LookupAt(fields, 4);
  }

  /** `execute`. */
  method Execute(exportEnabled: bool, order: Order?, orderDate: string, outbox: Outbox)
    modifies outbox`messages
    ensures MessageFor(exportEnabled, order, orderDate).None? ==> outbox.messages == old(outbox.messages)
    ensures MessageFor(exportEnabled, order, orderDate).Some? ==>
      outbox.messages == old(outbox.messages) + [MessageFor(exportEnabled, order, orderDate).value]
  {
    if !exportEnabled {
      return;
    }
    if order == null {
      return;
    }
    if order.origStatus == order.status || order.status != Some("complete") {
      return;
    }
    var products := CollectProducts(VisibleOrderItems(order.items));
    outbox.Publish(Message(Topic, Payload(order, orderDate, products)));
  }
}
