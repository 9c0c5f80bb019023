/**
 * The older remove-all web service: the same steps as `LoyaltyCartItemsRemoveAll`
 * without the module switch.
 */
module LoyalatiyCartItemRemoveAll {
  import opened Wrappers
  import opened QuoteModel
  import opened LoyaltyengageCart
  import opened LoyaltyCartResponse
  import LoyaltyCartItemsRemoveAll

  /**
   * The answer of this service: that of the guarded one with the module switched
   * on; None when an `\Error` from the ledger call escapes its `catch (\Exception)`.
   */
  function RemoveAllAnswer(customerId: int, customers: Customers, hasQuote: bool, reply: Reply): (a: Option<Answer>)
    ensures a.Some? && a.value.success <==> customerId in customers && hasQuote && reply == Status(200)
    ensures a.None? <==> customerId in customers && hasQuote && reply.Errored?
    ensures a.Some? && a.value.success ==> a.value.message == LoyaltyCartItemsRemoveAll.Notified
  {
    LoyaltyCartItemsRemoveAll.RemoveAllAnswerCases(true, customerId, customers, hasQuote, reply);
    LoyaltyCartItemsRemoveAll.RemoveAllAnswer(true, customerId, customers, hasQuote, reply)
  }

  /**
   * `removeAllProduct`. On a confirmed removal the cart is empty and saved;
   * otherwise it is untouched.
   */
  method RemoveAllProduct(customerId: int, customers: Customers, active: Quote?, reply: Reply)
    returns (a: Option<Answer>, calls: seq<LedgerCall>)
    modifies active
    ensures active != null ==> active.couponCode == old(active.couponCode)
    ensures a == RemoveAllAnswer(customerId, customers, active != null, reply)
    ensures calls == (if customerId in customers && active != null then [RemoveAllItems(customers[customerId])] else [])
    ensures active != null && a.Some? && a.value.success ==> active.items == [] && active.saves == old(active.saves) + 1
    ensures active != null && !(a.Some? && a.value.success) ==> active.items == old(active.items) && active.saves == old(active.saves)
  {
    a, calls := LoyaltyCartItemsRemoveAll.RemoveAllProduct(true, customerId, customers, active, reply);
  }
}
