/**
 * The plugin that runs before Magento's cart-update controller. It rewrites
 * the posted `cart` array so that every confirmed loyalty item is requested with
 * quantity 1, and writes the array back to the request only when it changed
 * something.
 */
module CartUpdatePlugin {
  import opened Wrappers
  import opened QuoteModel
  import opened Classifiers

  /**
   * One entry of the posted `cart` array: the item id it is keyed by and its
   * `qty`, as the `(float)` cast reads it (None when `qty` is not set).
   */
  datatype CartEntry = CartEntry(itemId: int, qty: Option<real>)

  /** The entry addresses a confirmed loyalty item of the quote and carries a `qty`. */
  predicate IsLoyaltyEntry(e: CartEntry, items: seq<Line>) {
    e.qty.Some? && ItemById(items, e.itemId).Some? && IsConfirmedLoyalty(ItemById(items, e.itemId).value)
  }

  /** The entry is one the plugin overrides: a loyalty entry asking for a quantity other than 1. */
  predicate NeedsPin(e: CartEntry, items: seq<Line>) {
    IsLoyaltyEntry(e, items) && e.qty.value != 1.0
  }

  function Pin(e: CartEntry, items: seq<Line>): CartEntry {
    if NeedsPin(e, items) then e.(qty := Some(1.0)) else e
  }

  /** The whole array after the rewrite. */
  function PinAll(entries: seq<CartEntry>, items: seq<Line>): (r: seq<CartEntry>)
    ensures |r| == |entries|
    ensures forall k :: 0 <= k < |entries| ==> r[k] == Pin(entries[k], items)
  {
    if entries == [] then [] else [Pin(entries[0], items)] + PinAll(entries[1..], items)
  }

  /** How many entries the rewrite overrides. */
  function PinCount(entries: seq<CartEntry>, items: seq<Line>): (n: nat)
    ensures n <= |entries|
  {
    if entries == [] then 0
    else (if NeedsPin(entries[0], items) then 1 else 0) + PinCount(entries[1..], items)
  }

  lemma {:induction false} PinCountAppend(entries: seq<CartEntry>, e: CartEntry, items: seq<Line>)
    ensures PinCount(entries + [e], items) == PinCount(entries, items) + (if NeedsPin(e, items) then 1 else 0)
  {
    if entries != [] {
      assert (entries + [e])[1..] == entries[1..] + [e];
      PinCountAppend(entries[1..], e, items);
    }
  }

  /** No entry needs overriding exactly when the count is zero. */
  lemma {:induction false} PinCountZero(entries: seq<CartEntry>, items: seq<Line>)
    ensures PinCount(entries, items) == 0 <==> forall k :: 0 <= k < |entries| ==> !NeedsPin(entries[k], items)
  {
    if entries != [] {
      PinCountZero(entries[1..], items);
      assert forall k :: 1 <= k < |entries| ==> entries[k] == entries[1..][k - 1];
    }
  }

  /** A second pass over the rewritten array overrides nothing and leaves it as it is. */
  lemma RewriteIdempotent(entries: seq<CartEntry>, items: seq<Line>)
    ensures PinAll(PinAll(entries, items), items) == PinAll(entries, items)
    ensures PinCount(PinAll(entries, items), items) == 0
  {
    var once := PinAll(entries, items);
    assert forall k :: 0 <= k < |once| ==> !NeedsPin(once[k], items);
    PinCountZero(once, items);
  }

  /**
   * The loop of `beforeExecute`: every loyalty entry ends with `qty` 1, every
   * other entry (no `qty`, unknown item, regular item) is left as it was, and the
   * counter is the number of overridden entries.
   */
  method RewriteEntries(entries: seq<CartEntry>, items: seq<Line>) returns (out: seq<CartEntry>, updatesEnforced: nat)
    ensures |out| == |entries|
    ensures forall k :: 0 <= k < |entries| && IsLoyaltyEntry(entries[k], items) ==>
      out[k] == entries[k].(qty := Some(1.0))
    ensures forall k :: 0 <= k < |entries| && !IsLoyaltyEntry(entries[k], items) ==> out[k] == entries[k]
    ensures out == PinAll(entries, items)
    ensures updatesEnforced == PinCount(entries, items)
  {
    out := entries;
    updatesEnforced := 0;
    var k := 0;
    while k < |entries|
      invariant 0 <= k <= |entries| && |out| == |entries|
      invariant forall j :: 0 <= j < k ==> out[j] == Pin(entries[j], items)
      invariant forall j :: k <= j < |entries| ==> out[j] == entries[j]
      invariant updatesEnforced == PinCount(entries[..k], items)
    {
      var e := entries[k];
      assert entries[..k + 1] == entries[..k] + [e];
      PinCountAppend(entries[..k], e, items);
      if e.qty.Some? {
        var item := ItemById(items, e.itemId);
        if item.Some? {
          if IsConfirmedLoyalty(item.value) {
            if e.qty.value != 1.0 {
              out := out[k := e.(qty := Some(1.0))];
              updatesEnforced := updatesEnforced + 1;
            }
          }
        }
      }
      k := k + 1;
    }
    assert entries[..k] == entries;
  }

  /**
   * `beforeExecute`. `cart` is the `cart` request parameter (None when it is not
   * an array); the result is the array written back with `setParam`, or None when
   * the request is left alone.
   */
  method BeforeExecute(enabled: bool, cart: Option<seq<CartEntry>>, quote: Quote?)
    returns (setParam: Option<seq<CartEntry>>, updatesEnforced: nat)
    ensures !enabled || cart.None? || cart == Some([]) || quote == null ==> setParam.None? && updatesEnforced == 0
    ensures enabled && cart.Some? && quote != null ==>
      updatesEnforced == PinCount(cart.value, quote.items)
      && (setParam.Some? <==> updatesEnforced > 0)
      && (setParam.Some? ==> setParam.value == PinAll(cart.value, quote.items))
  {
    setParam, updatesEnforced := None, 0;
    if !enabled {
      return;
    }
    if cart.None? || cart.value == [] {
      return;
    }
    if quote == null {
      return;
    }
    var out;
    out, updatesEnforced := RewriteEntries(cart.value, quote.items);
    if updatesEnforced > 0 {
      setParam := Some(out);
    }
  }
}
