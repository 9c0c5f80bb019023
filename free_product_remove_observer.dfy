/** The observer that reports a free item taken out of a customer's cart. */
module FreeProductRemoveObserver {
  import opened Wrappers
  import opened Php
  import opened Json
  import opened QuoteModel
  import opened Queue

  const Topic: string := "loyaltyshop.free_product_remove_event"

  /**
   * The message for a removed quote item (None when the event carries none);
   * `sessionEmail` is the session customer's e-mail, None without a customer.
   */
  function MessageFor(item: Option<Line>, sessionEmail: Option<string>): (m: Option<Message>)
    ensures m.Some? <==> item.Some? && item.value.price == 0.0 && TruthyOpt(sessionEmail)
    ensures m.Some? ==> m.value.topic == Topic
  {
    if item.None? || item.value.price != 0.0 || !TruthyOpt(sessionEmail) then None
    else
      Some(Message(Topic, JObj([("email", JStr(sessionEmail.value)), ("sku", JStr(item.value.sku)),
                                ("quantity", JInt(item.value.qty))])))
  }

  /** A published message names the customer, and the SKU and quantity of the removed item. */
  lemma MessageContents(item: Option<Line>, sessionEmail: Option<string>)
    requires MessageFor(item, sessionEmail).Some?
    ensures var p := MessageFor(item, sessionEmail).value.payload;
      Get(p, "email") == JStr(sessionEmail.value) && Get(p, "sku") == JStr(item.value.sku)
      && Get(p, "quantity") == JInt(item.value.qty)
  {
    var fields := MessageFor(item, sessionEmail).value.payload.fields;
    assert |"email"| != |"sku"| && |"email"| != |"quantity"| && |"sku"| != |"quantity"|;
    LookupAt(fields, 0);
    LookupAt(fields, 1);
    LookupAt(fields, 2);
  }

  /** `execute`. */
  method Execute(item: Option<Line>, sessionEmail: Option<string>, outbox: Outbox)
    modifies outbox`messages
    ensures MessageFor(item, sessionEmail).None? ==> outbox.messages == old(outbox.messages)
    ensures MessageFor(item, sessionEmail).Some? ==>
      outbox.messages == old(outbox.messages) + [MessageFor(item, sessionEmail).value]
  {
    if item.None? {
      return;
    }
    var line := item.value;
    if line.price != 0.0 {
      return;
    }
    if !TruthyOpt(sessionEmail) {
      return;
    }
    outbox.Publish(Message(Topic, JObj([("email", JStr(sessionEmail.value)), ("sku", JStr(line.sku)),
                                        ("quantity", JInt(line.qty))])));
  }
}
