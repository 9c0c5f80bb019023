/**
 * The web service that empties a customer's cart once the ledger has accepted
 * the removal of everything, guarded by the module switch.
 */
module LoyaltyCartItemsRemoveAll {
  import opened Wrappers
  import opened QuoteModel
  import opened LoyaltyengageCart
  import opened LoyaltyCartResponse

  /** This class's `HTTP_BAD_REQUEST`. */
  const BadRequest: int := 400

  const Disabled: string := "LoyaltyEngage module is disabled. No action taken."
  const NotEligible: string := "Product could not be removed. User is not eligible."
  const Notified: string := "Product removal notification sent successfully."

  /**
   * The answer of `removeAllProduct`; `hasQuote` says whether the customer has an
   * active quote. None when an `\Error` from the ledger call escapes the
   * method's `catch (\Exception)`.
   */
  function RemoveAllAnswer(enabled: bool, customerId: int, customers: Customers, hasQuote: bool, reply: Reply)
    : Option<Answer>
  {
    if !enabled then Some(Succeeded(Disabled))
    else if customerId !in customers || !hasQuote then Some(Failed(NoSuchEntity("customerId", customerId), BadRequest))
    else match reply
      case Threw(m) => Some(Failed(m, BadRequest))
      case Errored(_) => None
      case Status(code) => Some(if code != 200 then Failed(NotEligible, BadRequest) else Succeeded(Notified))
  }

  /**
   * With the module off the call reports success and does nothing; otherwise it
   * succeeds exactly when the customer and the active quote exist and the ledger
   * answers 200, and answers nothing exactly when the ledger call raised an `\Error`.
   */
  lemma RemoveAllAnswerCases(enabled: bool, customerId: int, customers: Customers, hasQuote: bool, reply: Reply)
    ensures var a := RemoveAllAnswer(enabled, customerId, customers, hasQuote, reply);
      (!enabled ==> a == Some(Succeeded(Disabled)))
      && (enabled ==> (a.Some? && a.value.success <==> customerId in customers && hasQuote && reply == Status(200)))
      && (a.None? <==> enabled && customerId in customers && hasQuote && reply.Errored?)
      && (a.Some? && !a.value.success ==> a.value.httpStatus == Some(BadRequest))
      && (enabled && a.Some? && a.value.success ==> a.value.message == Notified)
  {
  }

  /**
   * `removeAllProduct`. `active` is the customer's active quote (null when there
   * is none), `reply` the ledger's answer. On a confirmed removal every item is
   * removed and the quote is saved; otherwise the quote is untouched.
   */
  method RemoveAllProduct(enabled: bool, customerId: int, customers: Customers, active: Quote?, reply: Reply)
    returns (a: Option<Answer>, calls: seq<LedgerCall>)
    modifies active
    ensures active != null ==> active.couponCode == old(active.couponCode)
    ensures a == RemoveAllAnswer(enabled, customerId, customers, active != null, reply)
    ensures calls == (if enabled && customerId in customers && active != null then [RemoveAllItems(customers[customerId])] else [])
    ensures active != null && enabled && a.Some? && a.value.success ==>
      active.items == [] && active.saves == old(active.saves) + 1
    ensures active != null && !(enabled && a.Some? && a.value.success) ==>
      active.items == old(active.items) && active.saves == old(active.saves)
  {
    calls := [];
    if !enabled {
      return Some(Succeeded(Disabled)), calls;
    }
    if customerId !in customers || active == null {
      return Some(Failed(NoSuchEntity("customerId", customerId), BadRequest)), calls;
    }
    calls := [RemoveAllItems(customers[customerId])];
    if reply.Errored? {
      return None, calls;
    }
    if reply.Threw? {
      return Some(Failed(reply.message, BadRequest)), calls;
    }
    if reply.code != 200 {
      return Some(Failed(NotEligible, BadRequest)), calls;
    }
    active.RemoveAllItems();
    active.Save();
    a := Some(Succeeded(Notified));
  }
}
