/** The observer that reports a credit memo (a return) when return export is on. */
module ReturnObserver {
  import opened Wrappers
  import opened Json
  import opened OrderModel
  import opened Queue

  const Topic: string := "loyaltyshop.return_event"

  /** A credit-memo item: SKU, price and refunded quantity. */
  datatype MemoItem = MemoItem(sku: string, price: real, qty: int)

  /** A credit memo and the order it refunds. */
  datatype Creditmemo = Creditmemo(order: Order, items: seq<MemoItem>)

  /** The entry of a refunded item: the SKU, the price as a float and the `(int)` quantity. */
  function ReturnEntry(it: MemoItem): Json {
    JObj([("sku", JStr(it.sku)), ("price", JNum(it.price)), ("quantity", JInt(it.qty))])
  }

  /** The loop that fills `$products` from every credit-memo item. */
  method CollectProducts(items: seq<MemoItem>) returns (products: seq<Json>)
    ensures products == EntriesOf(items, ReturnEntry)
  {
    products := [];
    var k := 0;
    while k < |items|
      invariant 0 <= k <= |items|
      invariant products == EntriesOf(items[..k], ReturnEntry)
    {
      EntriesOfSnoc(items[..k], items[k], ReturnEntry);
      assert items[..k + 1] == items[..k] + [items[k]];
      products := products + [ReturnEntry(items[k])];
      k := k + 1;
    }
    assert items[..k] == items;
  }

  /** The one-element payload list; the return date goes under the key `orderDate`. */
  function Payload(email: Option<string>, returnDate: string, products: seq<Json>): Json {
    JArr([JObj([("event", JStr("Return")), ("email", StringOrNull(email)),
                ("orderDate", JStr(returnDate)), ("products", JArr(products))])])
  }

  /**
   * The message for a credit memo; `returnDate` is the memo's creation time in the
   * ISO 8601 form `DATE_ATOM` gives.
   */
  function MessageFor(enabled: bool, returnExport: bool, memo: Creditmemo, returnDate: string): (m: Option<Message>)
    ensures m.Some? <==> enabled && returnExport
    ensures m.Some? ==> m.value.topic == Topic
  {
    if !enabled || !returnExport then None
    else Some(Message(Topic, Payload(memo.order.customerEmail, returnDate, EntriesOf(memo.items, ReturnEntry))))
  }

  /**
   * A published message is a list of one event 'Return' with the order's
   * customer e-mail, the return date under `orderDate`, and one entry per
   * credit-memo item, in order.
   */
  lemma MessageContents(enabled: bool, returnExport: bool, memo: Creditmemo, returnDate: string)
    requires MessageFor(enabled, returnExport, memo, returnDate).Some?
    ensures var p := MessageFor(enabled, returnExport, memo, returnDate).value.payload;
      p.JArr? && |p.elems| == 1
      && Get(p.elems[0], "event") == JStr("Return")
      && Get(p.elems[0], "email") == StringOrNull(memo.order.customerEmail)
      && Get(p.elems[0], "orderDate") == JStr(returnDate)
      && Get(p.elems[0], "products") == JArr(EntriesOf(memo.items, ReturnEntry))
  {
    var fields := Payload(memo.order.customerEmail, returnDate, EntriesOf(memo.items, ReturnEntry)).elems[0].fields;
    assert "event"[1] != "email"[1] && |"products"| != |"event"| && |"products"| != |"email"|;
    assert "orderDate" != "event" && "orderDate" != "email" && "products" != "orderDate";
    LookupAt(fields, 0);
    LookupAt(fields, 1);
    LookupAt(fields, 2);
    LookupAt(fields, 3);
  }

  /** `execute`. */
  method Execute(enabled: bool, returnExport: bool, memo: Creditmemo, returnDate: string, outbox: Outbox)
    modifies outbox`messages
    ensures MessageFor(enabled, returnExport, memo, returnDate).None? ==> outbox.messages == old(outbox.messages)
    ensures MessageFor(enabled, returnExport, memo, returnDate).Some? ==>
      outbox.messages == old(outbox.messages) + [MessageFor(enabled, returnExport, memo, returnDate).value]
  {
    if enabled {
      if !returnExport {
        return;
      }
      var products := CollectProducts(memo.items);
      outbox.Publish(Message(Topic, Payload(memo.order.customerEmail, returnDate, products)));
    }
  }
}
