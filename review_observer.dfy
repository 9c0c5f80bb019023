/** The observer that queues an approved review for export to the ledger. */
module ReviewObserver {
  import opened Wrappers
  import opened Php
  import opened Json
  import opened QuoteModel
  import opened ReviewModel
  import opened Queue

  const Topic: string := "loyaltyshop.review_event"

  /**
   * `getCustomerEmail`: the e-mail of the review's customer when the customer id
   * is set and the customer exists; otherwise the nickname, when it is truthy and
   * `isEmail` (`filter_var` with `FILTER_VALIDATE_EMAIL`) accepts it; otherwise None.
   * A customer that exists decides, even when its e-mail is empty.
   */
  function CustomerEmail(r: Review, customers: Customers, isEmail: string -> bool): (e: Option<string>)
    ensures e.Some? ==>
      (e == r.nickname
       || (r.customerId.Some? && r.customerId.value in customers && e == Some(customers[r.customerId.value])))
    ensures r.customerId.Some? && r.customerId.value != 0 && r.customerId.value in customers ==>
      e == Some(customers[r.customerId.value])
    ensures !(r.customerId.Some? && r.customerId.value != 0 && r.customerId.value in customers) ==>
      (e.Some? <==> TruthyOpt(r.nickname) && isEmail(r.nickname.value))
  {
    if r.customerId.Some? && r.customerId.value != 0 && r.customerId.value in customers
    then Some(customers[r.customerId.value])
    else if TruthyOpt(r.nickname) && isEmail(r.nickname.value) then r.nickname
    else None
  }

  /** The payload: the review id, the e-mail, the product id and the time of the event. */
  function Payload(r: Review, email: string, now: int): Json {
    JObj([("review_id", JInt(r.id)), ("customer_email", JStr(email)), ("product_id", JInt(r.productId)),
          ("timestamp", JInt(now))])
  }

  /** The message for a saved review; `now` is `time()`. */
  function MessageFor(enabled: bool, reviewExport: bool, r: Review, customers: Customers,
                      isEmail: string -> bool, now: int): (m: Option<Message>)
    ensures m.Some? <==>
      enabled && reviewExport && r.statusId == StatusApproved && TruthyOpt(CustomerEmail(r, customers, isEmail))
    ensures m.Some? ==> m.value.topic == Topic
  {
    if !enabled || !reviewExport || r.statusId != StatusApproved then None
    else
      var email := CustomerEmail(r, customers, isEmail);
      if !TruthyOpt(email) then None else Some(Message(Topic, Payload(r, email.value, now)))
  }

  /** A published message carries the review, the e-mail `getCustomerEmail` found, and the product. */
  lemma MessageContents(enabled: bool, reviewExport: bool, r: Review, customers: Customers,
                        isEmail: string -> bool, now: int)
    requires MessageFor(enabled, reviewExport, r, customers, isEmail, now).Some?
    ensures var p := MessageFor(enabled, reviewExport, r, customers, isEmail, now).value.payload;
      Get(p, "review_id") == JInt(r.id)
      && Get(p, "customer_email") == JStr(CustomerEmail(r, customers, isEmail).value)
      && Get(p, "product_id") == JInt(r.productId)
      && Get(p, "timestamp") == JInt(now)
  {
    var fields := Payload(r, CustomerEmail(r, customers, isEmail).value, now).fields;
    assert |"review_id"| != |"customer_email"| && |"review_id"| != |"product_id"| && "review_id"[0] != "timestamp"[0];
    assert |"customer_email"| != |"product_id"| && |"customer_email"| != |"timestamp"|;
    assert |"product_id"| != |"timestamp"|;
    LookupAt(fields, 0);
    LookupAt(fields, 1);
    LookupAt(fields, 2);
    LookupAt(fields, 3);
  }

  /** `execute`. */
  method Execute(enabled: bool, reviewExport: bool, r: Review, customers: Customers,
                 isEmail: string -> bool, now: int, outbox: Outbox)
    modifies outbox`messages
    ensures MessageFor(enabled, reviewExport, r, customers, isEmail, now).None? ==>
      outbox.messages == old(outbox.messages)
    ensures MessageFor(enabled, reviewExport, r, customers, isEmail, now).Some? ==>
      outbox.messages == old(outbox.messages) + [MessageFor(enabled, reviewExport, r, customers, isEmail, now).value]
  {
    if !enabled || !reviewExport {
      return;
    }
    if r.statusId != StatusApproved {
      return;
    }
    var email := CustomerEmail(r, customers, isEmail);
    if !TruthyOpt(email) {
      return;
    }
    outbox.Publish(Message(Topic, Payload(r, email.value, now)));
  }
}
