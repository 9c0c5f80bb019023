/**
 * The two loyalty-line classifiers that the observers and plugins copy between
 * them. Both read the same signals of a quote item, in this order: the
 * `loyalty_locked_qty` item option, the item's `loyalty_locked_qty` data, the
 * serialized `additional_options` list and, for the loose variant on Magento
 * Commerce (Enterprise) only, the product's own `loyalty_locked_qty` data. The
 * first signal that hits makes the item a loyalty item.
 */
module Classifiers {
  import opened Wrappers
  import opened Php
  import opened QuoteModel

  /** An `additional_options` entry that marks a loyalty item: label and value both set, exactly 'loyalty_locked_qty' and '1'. */
  predicate IsLockEntry(e: OptionEntry) {
    e.entryLabel != Null && e.entryLabel == Str("loyalty_locked_qty")
    && e.entryValue != Null && e.entryValue == Str("1")
  }

  /** The scan over the unserialized list, stopping at the first marking entry. */
  function ScanEntries(entries: seq<OptionEntry>): bool {
    if entries == [] then false
    else if IsLockEntry(entries[0]) then true
    else ScanEntries(entries[1..])
  }

  lemma {:induction false} ScanEntriesFinds(entries: seq<OptionEntry>)
    ensures ScanEntries(entries) <==> exists k :: 0 <= k < |entries| && IsLockEntry(entries[k])
  {
    if entries != [] {
      ScanEntriesFinds(entries[1..]);
      if !IsLockEntry(entries[0]) && exists k :: 0 <= k < |entries| && IsLockEntry(entries[k]) {
        var k :| 0 <= k < |entries| && IsLockEntry(entries[k]);
        assert k > 0 && IsLockEntry(entries[1..][k - 1]);
      }
      if ScanEntries(entries[1..]) {
        var k :| 0 <= k < |entries[1..]| && IsLockEntry(entries[1..][k]);
        assert IsLockEntry(entries[k + 1]);
      }
    }
  }

  /** The `additional_options` signal: an option that unserializes to a list holding a marking entry. */
  predicate AdditionalOptionsMark(a: AdditionalOptions) {
    match a
    case Entries(entries) => ScanEntries(entries)
    case _ => false
  }

  /** The data signal: `getData('loyalty_locked_qty')` is exactly the string '1' or the integer 1. */
  predicate DataMark(d: Scalar) {
    d == Str("1") || d == Int(1)
  }

  /** The loose option signal: the option exists and its value `== '1'`. */
  predicate LooseOptionMark(opt: Option<Scalar>) {
    opt.Some? && LooseEqualsString(opt.value, "1")
  }

  /** The strict option signal: the option exists and its value `=== '1'`. */
  predicate StrictOptionMark(opt: Option<Scalar>) {
    opt.Some? && opt.value == Str("1")
  }

  /** `isLoyaltyProduct` of the cart-page and add-to-cart observers. */
  function IsLoyaltyLoose(l: Line, isEnterprise: bool): bool {
    if LooseOptionMark(l.lockOption) then true
    else if DataMark(l.lockData) then true
    else if AdditionalOptionsMark(l.additionalOptions) then true
    else isEnterprise && Truthy(l.productFlag)
  }

  /** `isConfirmedLoyaltyProduct` of the cart-update plugin, the cart-update observer and the quantity-validator plugin. */
  function IsConfirmedLoyalty(l: Line): bool {
    if StrictOptionMark(l.lockOption) then true
    else if DataMark(l.lockData) then true
    else AdditionalOptionsMark(l.additionalOptions)
  }

  /** The loose classifier hits exactly when one of its four signals does. */
  lemma LooseSignals(l: Line, isEnterprise: bool)
    ensures IsLoyaltyLoose(l, isEnterprise) <==>
      (l.lockOption.Some? && LooseEqualsString(l.lockOption.value, "1"))
      || l.lockData == Str("1") || l.lockData == Int(1)
      || (l.additionalOptions.Entries?
          && exists k :: 0 <= k < |l.additionalOptions.entries| && IsLockEntry(l.additionalOptions.entries[k]))
      || (isEnterprise && Truthy(l.productFlag))
  {
    if l.additionalOptions.Entries? {
      ScanEntriesFinds(l.additionalOptions.entries);
    }
  }

  /** The strict classifier hits exactly when one of its three signals does. */
  lemma StrictSignals(l: Line)
    ensures IsConfirmedLoyalty(l) <==>
      l.lockOption == Some(Str("1"))
      || l.lockData == Str("1") || l.lockData == Int(1)
      || (l.additionalOptions.Entries?
          && exists k :: 0 <= k < |l.additionalOptions.entries| && IsLockEntry(l.additionalOptions.entries[k]))
  {
    if l.additionalOptions.Entries? {
      ScanEntriesFinds(l.additionalOptions.entries);
    }
  }

  /** Every strictly confirmed item is a loyalty item for the loose classifier, on either edition. */
  lemma StrictImpliesLoose(l: Line, isEnterprise: bool)
    ensures IsConfirmedLoyalty(l) ==> IsLoyaltyLoose(l, isEnterprise)
  {
    LooseEqualsReflexive("1");
  }

  /** The loose option test accepts the integer 1 that the strict one refuses. */
  lemma OptionIntOneSeparates(l: Line)
    requires l.lockOption == Some(Int(1)) && l.lockData == Null && l.additionalOptions == NoAdditionalOptions
    ensures IsLoyaltyLoose(l, false) && !IsConfirmedLoyalty(l)
  {
    LooseOneAccepts();
  }

  /** The product flag is consulted only on Enterprise: off Enterprise it never changes the answer. */
  lemma EnterpriseFallbackOnly(l: Line, flag: Scalar)
    ensures IsLoyaltyLoose(l.(productFlag := flag), false) == IsLoyaltyLoose(l, false)
    ensures IsLoyaltyLoose(l, false) ==> IsLoyaltyLoose(l, true)
    ensures IsLoyaltyLoose(l, true) && !IsLoyaltyLoose(l, false) ==> Truthy(l.productFlag)
  {
  }

  /** An `additional_options` value that is not a list after unserialize counts as no option at all. */
  lemma UnparsableOptionsIgnored(l: Line, isEnterprise: bool)
    ensures IsLoyaltyLoose(l.(additionalOptions := NotAList), isEnterprise)
         == IsLoyaltyLoose(l.(additionalOptions := NoAdditionalOptions), isEnterprise)
    ensures IsConfirmedLoyalty(l.(additionalOptions := NotAList))
         == IsConfirmedLoyalty(l.(additionalOptions := NoAdditionalOptions))
  {
  }
}
