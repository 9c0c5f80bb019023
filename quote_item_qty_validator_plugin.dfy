/**
 * The plugin that runs before Magento's quote-item quantity validator. For a
 * confirmed loyalty item whose quantity changed since it was loaded it puts the
 * loaded quantity back, unless the request is a cart update.
 */
module QuoteItemQtyValidatorPlugin {
  import opened Wrappers
  import opened QuoteModel
  import opened Classifiers

  /**
   * What the plugin reads from the current request: the action name and whether
   * the `update_cart_action` and `cart` parameters are truthy.
   */
  datatype RequestView = RequestView(actionName: string, updateCartAction: bool, cart: bool)

  /** A request the plugin treats as a legitimate cart update. */
  predicate IsCartUpdate(r: RequestView) {
    r.actionName == "updatePost" || r.updateCartAction || r.cart
  }

  /** The item's quantity was changed since it was loaded from a positive original quantity. */
  predicate ChangedFromOriginal(l: Line) {
    l.origQty.Some? && l.origQty.value != 0 && l.origQty.value != l.qty && l.origQty.value > 0
  }

  /** The quantity the item has after `beforeValidate`. */
  function ProtectedQty(l: Line, r: RequestView): int {
    if !IsConfirmedLoyalty(l) then l.qty
    else if ChangedFromOriginal(l) then
      if IsCartUpdate(r) then l.qty else l.origQty.value
    else l.qty
  }

  /**
   * The quantity changes exactly for a confirmed loyalty item whose positive
   * original quantity differs from the current one, outside a cart update; it
   * then becomes the original quantity.
   */
  lemma RevertCases(l: Line, r: RequestView)
    ensures ProtectedQty(l, r) != l.qty <==>
      IsConfirmedLoyalty(l) && l.origQty.Some? && l.origQty.value > 0 && l.origQty.value != l.qty && !IsCartUpdate(r)
    ensures ProtectedQty(l, r) != l.qty ==> ProtectedQty(l, r) == l.origQty.value
    ensures !IsConfirmedLoyalty(l) || IsCartUpdate(r) ==> ProtectedQty(l, r) == l.qty
  {
  }

  /** Running the plugin on its own result changes nothing more. */
  lemma ProtectIdempotent(l: Line, r: RequestView)
    ensures ProtectedQty(l.(qty := ProtectedQty(l, r)), r) == ProtectedQty(l, r)
  {
  }

  /**
   * `beforeValidate` on the event's item, the k-th item of `quote` (`item` None:
   * the event carries no item).
   */
  method BeforeValidate(enabled: bool, quote: Quote, item: Option<nat>, r: RequestView)
    requires item.Some? ==> item.value < |quote.items|
    modifies quote`items, quote`saves
    ensures !enabled || item.None? ==> quote.items == old(quote.items)
    ensures enabled && item.Some? ==>
      quote.items == old(quote.items)[item.value := old(quote.items)[item.value].(qty := ProtectedQty(old(quote.items)[item.value], r))]
    ensures quote.saves == old(quote.saves)
  {
    if !enabled || item.None? {
      return;
    }
    var k := item.value;
    var l := quote.items[k];
    if !IsConfirmedLoyalty(l) {
      return;
    }
    if l.origQty.Some? && l.origQty.value != 0 && l.origQty.value != l.qty && l.origQty.value > 0 {
      if r.actionName == "updatePost" || r.updateCartAction || r.cart {
        return;
      }
      quote.SetQtyAt(k, l.origQty.value);
    }
  }
}
