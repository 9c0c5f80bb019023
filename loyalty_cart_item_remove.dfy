/**
 * The web service that removes a quantity of one product from a customer's
 * cart once the ledger has accepted the removal.
 */
module LoyaltyCartItemRemove {
  import opened Wrappers
  import opened QuoteModel
  import opened LoyaltyengageCart
  import opened LoyaltyCartResponse
  import LoyaltyCart

  /** This class's `HTTP_BAD_REQUEST`. */
  const BadRequest: int := 400

  const NotEligible: string := "Product could not be removed. User is not eligible."
  const Removed: string := "Product removed successfully."

  /**
   * The items after the removal: the first item with the SKU loses `quantity`
   * when it has more than that, and is removed otherwise; with no such item
   * nothing changes.
   */
  function AfterRemove(items: seq<Line>, sku: string, quantity: int): seq<Line> {
    match FirstWithSku(items, sku)
    case None => items
    case Some(k) =>
      if items[k].qty > quantity then items[k := items[k].(qty := items[k].qty - quantity)]
      else items[..k] + items[k + 1..]
  }

  /**
   * Only the first item with the SKU is affected: it keeps its place with a
   * smaller quantity, or it is gone and the others close up; nothing else changes.
   */
  lemma AfterRemoveCases(items: seq<Line>, sku: string, quantity: int)
    ensures var r := AfterRemove(items, sku, quantity);
      match FirstWithSku(items, sku)
      case None => r == items
      case Some(k) =>
        (items[k].qty > quantity ==>
          |r| == |items| && r[k].qty == items[k].qty - quantity && r[k] == items[k].(qty := r[k].qty)
          && forall j :: 0 <= j < |items| && j != k ==> r[j] == items[j])
        && (items[k].qty <= quantity ==>
          |r| == |items| - 1 && r[..k] == items[..k] && r[k..] == items[k + 1..])
  {
  }

  /** With distinct SKUs, removing at least the item's quantity leaves no item with the SKU. */
  lemma RemoveAllOfSku(items: seq<Line>, sku: string, quantity: int)
    requires LoyaltyCart.DistinctSkus(items)
    requires FirstWithSku(items, sku).Some? && items[FirstWithSku(items, sku).value].qty <= quantity
    ensures FirstWithSku(AfterRemove(items, sku, quantity), sku).None?
  {
    var k := FirstWithSku(items, sku).value;
    var r := AfterRemove(items, sku, quantity);
    forall j | 0 <= j < |r| ensures r[j].sku != sku {
      if j < k {
        assert r[j] == items[j];
      } else {
        assert r[j] == items[j + 1];
      }
    }
  }

  /** Removing one unit of a loyalty product just added to a cart without it gives back the cart. */
  lemma RemoveUndoesAdd(items: seq<Line>, p: Product)
    requires FirstWithSku(items, p.sku).None?
    ensures AfterRemove(LoyaltyCart.AddOnce(items, p.sku, p), p.sku, 1) == items
  {
    var added := LoyaltyCart.AddOnce(items, p.sku, p);
    assert added == items + [LoyaltyCart.NewLoyaltyLine(p)];
    assert FirstWithSku(added, p.sku) == Some(|items|) by {
      assert added[|items|].sku == p.sku;
      assert forall j :: 0 <= j < |items| ==> added[j] == items[j];
    }
    assert added[..|items|] == items;
  }

  /** A quantity of zero or less is not refused: the item's quantity grows by its magnitude. */
  lemma NonPositiveQuantityGrows(items: seq<Line>, sku: string, quantity: int)
    requires quantity <= 0
    requires FirstWithSku(items, sku).Some? && items[FirstWithSku(items, sku).value].qty > 0
    ensures var k := FirstWithSku(items, sku).value;
      AfterRemove(items, sku, quantity)[k].qty == items[k].qty - quantity >= items[k].qty
  {
  }

  /**
   * The answer of `removeProduct`; `hasQuote` says whether the customer has an
   * active quote. None when an `\Error` from the ledger call escapes the
   * method's `catch (\Exception)`.
   */
  function RemoveAnswer(customerId: int, customers: Customers, hasQuote: bool, reply: Reply): Option<Answer> {
    if customerId !in customers || !hasQuote then Some(Failed(NoSuchEntity("customerId", customerId), BadRequest))
    else match reply
      case Threw(m) => Some(Failed(m, BadRequest))
      case Errored(_) => None
      case Status(code) => Some(if code != 200 then Failed(NotEligible, BadRequest) else Succeeded(Removed))
  }

  /**
   * The removal succeeds exactly when the customer and the active quote exist and
   * the ledger answers 200; it answers nothing exactly when the ledger call raised
   * an `\Error`; every other failure carries status 400, an exception its message.
   */
  lemma RemoveAnswerCases(customerId: int, customers: Customers, hasQuote: bool, reply: Reply)
    ensures var a := RemoveAnswer(customerId, customers, hasQuote, reply);
      (a.Some? && a.value.success <==> customerId in customers && hasQuote && reply == Status(200))
      && (a.None? <==> customerId in customers && hasQuote && reply.Errored?)
      && (a.Some? && !a.value.success ==> a.value.httpStatus == Some(BadRequest))
      && (customerId in customers && hasQuote && reply.Threw? ==> a.Some? && a.value.message == reply.message)
  {
  }

  /**
   * `removeProduct`. `active` is the customer's active quote (null when there is
   * none); `reply` the ledger's answer to the removal. The quote is changed and
   * saved only on success and when it holds an item with the SKU.
   */
  method RemoveProduct(sku: string, customerId: int, quantity: int, customers: Customers, active: Quote?, reply: Reply)
    returns (a: Option<Answer>, calls: seq<LedgerCall>)
    modifies active
    ensures active != null ==> active.couponCode == old(active.couponCode)
    ensures a == RemoveAnswer(customerId, customers, active != null, reply)
    ensures calls == (if customerId in customers && active != null then [RemoveItem(customers[customerId], sku, quantity)] else [])
    ensures active != null && a.Some? && a.value.success ==>
      active.items == AfterRemove(old(active.items), sku, quantity)
      && active.saves == old(active.saves) + (if FirstWithSku(old(active.items), sku).Some? then 1 else 0)
    ensures active != null && !(a.Some? && a.value.success) ==> active.items == old(active.items) && active.saves == old(active.saves)
  {
    calls := [];
    if customerId !in customers || active == null {
      return Some(Failed(NoSuchEntity("customerId", customerId), BadRequest)), calls;
    }
    calls := [RemoveItem(customers[customerId], sku, quantity)];
    if reply.Errored? {
      return None, calls;
    }
    if reply.Threw? {
      return Some(Failed(reply.message, BadRequest)), calls;
    }
    if reply.code != 200 {
      return Some(Failed(NotEligible, BadRequest)), calls;
    }
    var found := FirstWithSku(active.items, sku);
    if found.Some? {
      var k := found.value;
      var currentQty := active.items[k].qty;
      if currentQty > quantity {
        active.SetQtyAt(k, currentQty - quantity);
      } else {
        active.RemoveAt(k);
      }
      active.Save();
    }
    a := Some(Succeeded(Removed));
  }
}
