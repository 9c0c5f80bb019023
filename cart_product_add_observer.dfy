/**
 * The add-to-cart observer. For every product added to a cart it logs who added
 * it, whether the new item is a loyalty item (loose classifier) and where the
 * addition came from.
 */
module CartProductAddObserver {
  import opened Wrappers
  import opened Php
  import opened QuoteModel
  import opened Classifiers

  /** The fields of the cart-addition log record that the observer decides. */
  datatype AdditionRecord = AdditionRecord(productType: string, sku: string, customerEmail: string, source: string)

  /** `determineAdditionSource`. `loyaltyAdd` is the request parameter `loyalty_add` (Null when absent). */
  function AdditionSource(item: Line, isEnterprise: bool, loyaltyAdd: Scalar): string {
    if IsLoyaltyLoose(item, isEnterprise) then "loyalty-api"
    else if Truthy(loyaltyAdd) then "loyalty-frontend"
    else "regular-cart"
  }

  /** The source is one of three labels: the API one exactly for loyalty items, the front-end one for a truthy `loyalty_add` otherwise. */
  lemma AdditionSourceCases(item: Line, isEnterprise: bool, loyaltyAdd: Scalar)
    ensures var s := AdditionSource(item, isEnterprise, loyaltyAdd);
      (s == "loyalty-api" || s == "loyalty-frontend" || s == "regular-cart")
      && (s == "loyalty-api" <==> IsLoyaltyLoose(item, isEnterprise))
      && (s == "loyalty-frontend" <==> !IsLoyaltyLoose(item, isEnterprise) && Truthy(loyaltyAdd))
      && (s == "regular-cart" <==> !IsLoyaltyLoose(item, isEnterprise) && !Truthy(loyaltyAdd))
  {
  }

  /** A loyalty item is reported as an API addition whatever the request says. */
  lemma LoyaltyIgnoresRequest(item: Line, isEnterprise: bool, p: Scalar, q: Scalar)
    requires IsLoyaltyLoose(item, isEnterprise)
    ensures AdditionSource(item, isEnterprise, p) == AdditionSource(item, isEnterprise, q) == "loyalty-api"
  {
  }

  /** `getCustomerEmail`: the session customer's e-mail, or 'guest' when nobody is logged in. */
  function CustomerEmail(loggedInEmail: Option<string>): string {
    loggedInEmail.GetOr("guest")
  }

  /**
   * `execute`: the record logged for an addition, or None when the module is off
   * or the event carries no quote item or no product.
   */
  function Execute(enabled: bool, item: Option<Line>, product: Option<Product>, isEnterprise: bool,
                   loyaltyAdd: Scalar, loggedInEmail: Option<string>): Option<AdditionRecord>
  {
    if !enabled || item.None? || product.None? then None
    else
      var loyalty := IsLoyaltyLoose(item.value, isEnterprise);
      Some(AdditionRecord(
        if loyalty then "LOYALTY" else "REGULAR",
        product.value.sku,
        CustomerEmail(loggedInEmail),
        AdditionSource(item.value, isEnterprise, loyaltyAdd)))
  }

  /** Nothing is logged without both an item and a product; with both, the type and the source agree. */
  lemma ExecuteGuards(enabled: bool, item: Option<Line>, product: Option<Product>, isEnterprise: bool,
                      loyaltyAdd: Scalar, loggedInEmail: Option<string>)
    ensures var r := Execute(enabled, item, product, isEnterprise, loyaltyAdd, loggedInEmail);
      (r.Some? <==> enabled && item.Some? && product.Some?)
      && (r.Some? ==> (r.value.productType == "LOYALTY" <==> r.value.source == "loyalty-api"))
      && (r.Some? ==> r.value.sku == product.value.sku)
  {
  }
}
