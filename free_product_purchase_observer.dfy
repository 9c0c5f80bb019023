/**
 * The observer that reports the free items of an order once the order has just
 * become complete.
 */
module FreeProductPurchaseObserver {
  import opened Wrappers
  import opened Json
  import opened OrderModel
  import opened Queue

  const Topic: string := "loyaltyshop.free_product_purchase_event"

  /** An item counts as free when its price, as a float, is exactly 0. */
  predicate IsFree(it: OrderItem) {
    it.price == 0.0
  }

  /** The entry of a free item: the SKU and the `(int)` ordered quantity. */
  function FreeEntry(it: OrderItem): Json {
    JObj([("sku", JStr(it.sku)), ("quantity", JInt(it.qtyOrdered))])
  }

  /** The free items, in order. */
  function FreeItems(items: seq<OrderItem>): (r: seq<OrderItem>)
    ensures forall it :: it in r <==> it in items && IsFree(it)
    ensures |r| <= |items|
    decreases |items|
  {
    if items == [] then []
    else
      var n := |items| - 1;
      FreeItems(items[..n]) + (if IsFree(items[n]) then [items[n]] else [])
  }

  lemma FreeItemsPrefix(items: seq<OrderItem>, k: nat)
    requires k < |items|
    ensures FreeItems(items[..k + 1]) == FreeItems(items[..k]) + (if IsFree(items[k]) then [items[k]] else [])
  {
    assert items[..k + 1][..k] == items[..k];
  }

  /** One more item adds its entry exactly when it is free. */
  lemma FreeEntriesStep(items: seq<OrderItem>, k: nat)
    requires k < |items|
    ensures EntriesOf(FreeItems(items[..k + 1]), FreeEntry)
      == EntriesOf(FreeItems(items[..k]), FreeEntry) + (if IsFree(items[k]) then [FreeEntry(items[k])] else [])
  {
    FreeItemsPrefix(items, k);
    if IsFree(items[k]) {
      EntriesOfSnoc(FreeItems(items[..k]), items[k], FreeEntry);
    } else {
      assert FreeItems(items[..k]) + [] == FreeItems(items[..k]);
    }
  }

  /** The loop that fills `$freeProducts` from the visible items. */
  method CollectFree(items: seq<OrderItem>) returns (products: seq<Json>)
    ensures products == EntriesOf(FreeItems(items), FreeEntry)
  {
    products := [];
    var k := 0;
    while k < |items|
      invariant 0 <= k <= |items|
      invariant products == EntriesOf(FreeItems(items[..k]), FreeEntry)
    {
      FreeEntriesStep(items, k);
      if items[k].price == 0.0 {
        products := products + [FreeEntry(items[k])];
      }
      k := k + 1;
    }
    assert items[..k] == items;
  }

  /** The payload: the order's e-mail (null when it has none), its number and the free products. */
  function Payload(o: Order, products: seq<Json>): Json {
    JObj([("email", StringOrNull(o.customerEmail)), ("orderId", JStr(o.incrementId)), ("products", JArr(products))])
  }

  /** The message the observer publishes for an order, if any. */
  function MessageFor(o: Order): (m: Option<Message>)
    ensures m.Some? <==>
      JustCompleted(o.origStatus, o.status) && exists it :: it in o.items && !it.isChild && IsFree(it)
    ensures m.Some? ==> m.value.topic == Topic
  {
    var free := FreeItems(VisibleOrderItems(o.items));
    if !JustCompleted(o.origStatus, o.status) then None
    else if free == [] then
      assert forall it :: it in o.items && !it.isChild && IsFree(it) ==> it in free;
      None
    else
      assert free[0] in o.items && !free[0].isChild && IsFree(free[0]);
      Some(Message(Topic, Payload(o, EntriesOf(free, FreeEntry))))
  }

  /**
   * A published message carries the order's e-mail and number and lists exactly
   * the free visible items, in order.
   */
  lemma MessageContents(o: Order)
    requires MessageFor(o).Some?
    ensures var p := MessageFor(o).value.payload;
      Get(p, "email") == StringOrNull(o.customerEmail) && Get(p, "orderId") == JStr(o.incrementId)
      && Get(p, "products") == JArr(EntriesOf(FreeItems(VisibleOrderItems(o.items)), FreeEntry))
  {
    var payload := Payload(o, EntriesOf(FreeItems(VisibleOrderItems(o.items)), FreeEntry));
    assert MessageFor(o).value.payload == payload;
    var fields := payload.fields;
    assert |"email"| != |"orderId"| && |"email"| != |"products"| && |"orderId"| != |"products"|;
    LookupAt(fields, 0);
    LookupAt(fields, 1);
    LookupAt(fields, 2);
  }

  /** `execute`; `order` is null when the event carries no order. */
  method Execute(order: Order?, outbox: Outbox)
    modifies outbox`messages
    ensures order == null ==> outbox.messages == old(outbox.messages)
    ensures order != null && MessageFor(order).None? ==> outbox.messages == old(outbox.messages)
    ensures order != null && MessageFor(order).Some? ==> outbox.messages == old(outbox.messages) + [MessageFor(order).value]
  {
    if order == null {
      return;
    }
    if order.origStatus == order.status || order.status != Some("complete") {
      return;
    }
    var visible := VisibleOrderItems(order.items);
    var products := CollectFree(visible);
    if products == [] {
      return;
    }
    outbox.Publish(Message(Topic, Payload(order, products)));
  }
}
