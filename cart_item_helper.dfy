/**
 * The storefront view model's lock test (`isQtyLocked`): a wider classifier that
 * also locks any item carrying a `loyalty_locked_qty` option, whatever its
 * value, and any item whose price is zero.
 */
module CartItemHelper {
  import opened Wrappers
  import opened Php
  import opened QuoteModel
  import opened Classifiers

  /** Whether the quantity box of the item is locked. */
  function IsQtyLocked(l: Line): bool {
    if DataMark(l.lockData) then true
    else if l.lockOption.Some? then true
    else if AdditionalOptionsMark(l.additionalOptions) then true
    else l.price == 0.0
  }

  /** The item is locked exactly when one of the four conditions holds. */
  lemma LockedSignals(l: Line)
    ensures IsQtyLocked(l) <==>
      l.lockData == Str("1") || l.lockData == Int(1)
      || l.lockOption.Some?
      || (l.additionalOptions.Entries?
          && exists k :: 0 <= k < |l.additionalOptions.entries| && IsLockEntry(l.additionalOptions.entries[k]))
      || l.price == 0.0
  {
    if l.additionalOptions.Entries? {
      ScanEntriesFinds(l.additionalOptions.entries);
    }
  }

  /** Without any loyalty marker the lock is decided by the price alone. */
  lemma UnmarkedLockedIffFree(l: Line)
    requires !DataMark(l.lockData) && l.lockOption.None? && !AdditionalOptionsMark(l.additionalOptions)
    ensures IsQtyLocked(l) <==> l.price == 0.0
  {
  }

  /** Every strictly confirmed loyalty item is locked. */
  lemma StrictImpliesLocked(l: Line)
    ensures IsConfirmedLoyalty(l) ==> IsQtyLocked(l)
  {
  }

  /** An unmarked, priced line from a product flagged on Enterprise: loose says loyalty, the lock test does not lock it. */
  lemma LooseNotWithinLocked()
    ensures var l := Line(None, "SKU-1", 1, None, 5.0, None, None, false, None, Null, NoAdditionalOptions, Bool(true));
      IsLoyaltyLoose(l, true) && !IsQtyLocked(l)
  {
  }

  /** A zero-price line with no marker: locked, but neither classifier calls it a loyalty item. */
  lemma LockedNotWithinLoose()
    ensures var l := Line(None, "SKU-1", 1, None, 0.0, None, None, false, None, Null, NoAdditionalOptions, Null);
      IsQtyLocked(l) && !IsLoyaltyLoose(l, true) && !IsConfirmedLoyalty(l)
  {
  }
}
