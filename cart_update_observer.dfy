/**
 * The observer that runs after a cart update: every confirmed loyalty item in
 * the quote is reset to quantity 1.
 */
module CartUpdateObserver {
  import opened Wrappers
  import opened QuoteModel
  import opened Classifiers

  /** The item is one the observer resets. */
  predicate NeedsReset(l: Line) {
    IsConfirmedLoyalty(l) && l.qty != 1
  }

  function Reset(l: Line): Line {
    if NeedsReset(l) then l.(qty := 1) else l
  }

  /** The quote's items after the observer. */
  function ResetAll(items: seq<Line>): (r: seq<Line>)
    ensures |r| == |items|
    ensures forall k :: 0 <= k < |items| ==> r[k] == Reset(items[k])
  {
    if items == [] then [] else [Reset(items[0])] + ResetAll(items[1..])
  }

  /** How many items the observer resets. */
  function ResetCount(items: seq<Line>): (n: nat)
    ensures n <= |items|
  {
    if items == [] then 0 else (if NeedsReset(items[0]) then 1 else 0) + ResetCount(items[1..])
  }

  lemma {:induction false} ResetCountAppend(items: seq<Line>, l: Line)
    ensures ResetCount(items + [l]) == ResetCount(items) + (if NeedsReset(l) then 1 else 0)
  {
    if items != [] {
      assert (items + [l])[1..] == items[1..] + [l];
      ResetCountAppend(items[1..], l);
    }
  }

  lemma {:induction false} ResetCountZero(items: seq<Line>)
    ensures ResetCount(items) == 0 <==> forall k :: 0 <= k < |items| ==> !NeedsReset(items[k])
  {
    if items != [] {
      ResetCountZero(items[1..]);
      assert forall k :: 1 <= k < |items| ==> items[k] == items[1..][k - 1];
    }
  }

  /**
   * After the reset every confirmed loyalty item has quantity 1; every other item
   * is untouched; a loyalty item differs from before in its quantity only.
   */
  lemma ResetPinsLoyalty(items: seq<Line>)
    ensures forall k :: 0 <= k < |items| && IsConfirmedLoyalty(items[k]) ==>
      ResetAll(items)[k] == items[k].(qty := 1)
    ensures forall k :: 0 <= k < |items| && !IsConfirmedLoyalty(items[k]) ==> ResetAll(items)[k] == items[k]
  {
  }

  /** A second run changes nothing and counts nothing. */
  lemma ResetIdempotent(items: seq<Line>)
    ensures ResetAll(ResetAll(items)) == ResetAll(items)
    ensures ResetCount(ResetAll(items)) == 0
  {
    var once := ResetAll(items);
    assert forall k :: 0 <= k < |once| ==> !NeedsReset(once[k]);
    ResetCountZero(once);
  }

  /**
   * `execute`. `hasCart` says whether the event carries a cart; `quote` is the
   * cart's quote. The result is the number of items reset.
   */
  method Execute(enabled: bool, hasCart: bool, quote: Quote?) returns (itemsUpdated: nat)
    modifies quote
    ensures !enabled || !hasCart || quote == null ==> itemsUpdated == 0
    ensures quote != null && !(enabled && hasCart) ==> quote.items == old(quote.items)
    ensures quote != null && enabled && hasCart ==>
      quote.items == ResetAll(old(quote.items)) && itemsUpdated == ResetCount(old(quote.items))
    ensures quote != null ==> quote.saves == old(quote.saves) && quote.couponCode == old(quote.couponCode)
  {
    itemsUpdated := 0;
    if !enabled || !hasCart || quote == null {
      return;
    }
    ghost var before := quote.items;
    var k := 0;
    while k < |quote.items|
      invariant 0 <= k <= |quote.items| == |before|
      invariant forall j :: 0 <= j < k ==> quote.items[j] == Reset(before[j])
      invariant forall j :: k <= j < |before| ==> quote.items[j] == before[j]
      invariant itemsUpdated == ResetCount(before[..k])
      invariant quote.saves == old(quote.saves) && quote.couponCode == old(quote.couponCode)
      modifies quote`items
    {
      var item := quote.items[k];
      assert before[..k + 1] == before[..k] + [item];
      ResetCountAppend(before[..k], item);
      if IsConfirmedLoyalty(item) {
        if item.qty != 1 {
          quote.SetQtyAt(k, 1);
          itemsUpdated := itemsUpdated + 1;
        }
      }
      k := k + 1;
    }
    assert before[..k] == before;
  }
}
