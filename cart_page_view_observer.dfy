/**
 * The cart-page observer. When the cart page (`checkout_cart_index`) is shown
 * with a saved, non-empty quote it logs an overview that splits the visible
 * items into loyalty and regular ones with the loose classifier.
 */
module CartPageViewObserver {
  import opened Wrappers
  import opened QuoteModel
  import opened Classifiers

  /** What the overview line reports. */
  datatype Overview = Overview(total: nat, loyalty: nat, regular: nat)

  /** How many of the items the loose classifier calls loyalty items. */
  function LoyaltyCount(items: seq<Line>, isEnterprise: bool): (n: nat)
    ensures n <= |items|
  {
    if items == [] then 0
    else (if IsLoyaltyLoose(items[0], isEnterprise) then 1 else 0) + LoyaltyCount(items[1..], isEnterprise)
  }

  /** How many of the items the strict classifier confirms. */
  function ConfirmedCount(items: seq<Line>): (n: nat)
    ensures n <= |items|
  {
    if items == [] then 0
    else (if IsConfirmedLoyalty(items[0]) then 1 else 0) + ConfirmedCount(items[1..])
  }

  lemma {:induction false} LoyaltyCountAppend(items: seq<Line>, l: Line, isEnterprise: bool)
    ensures LoyaltyCount(items + [l], isEnterprise)
         == LoyaltyCount(items, isEnterprise) + (if IsLoyaltyLoose(l, isEnterprise) then 1 else 0)
  {
    if items != [] {
      assert (items + [l])[1..] == items[1..] + [l];
      LoyaltyCountAppend(items[1..], l, isEnterprise);
    }
  }

  /** The loose count is never below the strict one: every confirmed item is counted as loyalty. */
  lemma {:induction false} ConfirmedWithinLoyalty(items: seq<Line>, isEnterprise: bool)
    ensures ConfirmedCount(items) <= LoyaltyCount(items, isEnterprise)
  {
    if items != [] {
      StrictImpliesLoose(items[0], isEnterprise);
      ConfirmedWithinLoyalty(items[1..], isEnterprise);
    }
  }

  /** `logCartOverview`: counts loyalty and regular items in one pass. */
  method LogCartOverview(items: seq<Line>, isEnterprise: bool) returns (o: Overview)
    ensures o.total == |items|
    ensures o.loyalty == LoyaltyCount(items, isEnterprise)
    ensures o.loyalty + o.regular == o.total
  {
    var loyaltyCount, regularCount := 0, 0;
    var k := 0;
    while k < |items|
      invariant 0 <= k <= |items|
      invariant loyaltyCount == LoyaltyCount(items[..k], isEnterprise)
      invariant loyaltyCount + regularCount == k
    {
      assert items[..k + 1] == items[..k] + [items[k]];
      LoyaltyCountAppend(items[..k], items[k], isEnterprise);
      if IsLoyaltyLoose(items[k], isEnterprise) {
        loyaltyCount := loyaltyCount + 1;
      } else {
        regularCount := regularCount + 1;
      }
      k := k + 1;
    }
    assert items[..k] == items;
    o := Overview(|items|, loyaltyCount, regularCount);
  }

  /**
   * `execute`: the overview is produced only when the module is enabled, the
   * action is the cart page and the quote is saved and has visible items.
   */
  method Execute(enabled: bool, fullActionName: string, quote: Quote?, isEnterprise: bool)
    returns (logged: Option<Overview>)
    ensures logged.Some? <==>
      enabled && fullActionName == "checkout_cart_index" && quote != null && quote.id != 0
      && VisibleItems(quote.items) != []
    ensures logged.Some? ==> (quote != null
      && logged.value.total == |VisibleItems(quote.items)|
      && logged.value.loyalty == LoyaltyCount(VisibleItems(quote.items), isEnterprise)
      && logged.value.loyalty + logged.value.regular == logged.value.total)
  {
    if !enabled || fullActionName != "checkout_cart_index" {
      return None;
    }
    if quote == null || quote.id == 0 {
      return None;
    }
    var items := VisibleItems(quote.items);
    if items == [] {
      return None;
    }
    var o := LogCartOverview(items, isEnterprise);
    logged := Some(o);
  }
}
