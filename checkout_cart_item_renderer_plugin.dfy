/**
 * The cart-page renderer plugin (`afterGetQtyHtml`): for a free item, or one
 * carrying a `loyalty_locked_qty` option, the editable quantity box is replaced
 * by a plain text quantity and a hidden form field that posts the current
 * quantity back unchanged.
 */
module CheckoutCartItemRendererPlugin {
  import opened Wrappers
  import opened Php
  import opened QuoteModel
  import CartItemHelper

  /** The renderer's own lock condition: zero price, or the option is present. */
  predicate RendersLocked(l: Line) {
    l.price == 0.0 || l.lockOption.Some?
  }

  /** The item id as PHP prints it into the markup; an unsaved item's null id prints as nothing. */
  function ItemIdText(id: Option<nat>): string {
    match id
    case None => ""
    case Some(n) => NatToDecimal(n)
  }

  /** The form-field name `cart[<id>][qty]` under which the cart update reads an item's quantity. */
  function QtyFieldName(id: Option<nat>): string {
    "cart[" + ItemIdText(id) + "][qty]"
  }

  /** The item id a field name `cart[<digits>][qty]` addresses, if it has that shape. */
  function ParseQtyFieldName(name: string): Option<nat> {
    if |name| >= 11 && name[..5] == "cart[" && name[|name| - 6..] == "][qty]" then
      var d := name[5..|name| - 6];
      if |d| > 0 && AllDigits(d) then Some(DigitsValue(d)) else None
    else None
  }

  function QtySpan(q: string): string {
    "<span>Qty: " + q + "</span>"
  }

  function HiddenInput(name: string, value: string): string {
    "<input type=\"hidden\" name=\"" + name + "\" value=\"" + value + "\" />"
  }

  /** `afterGetQtyHtml`: the markup for the item's quantity, given the markup Magento produced. */
  function QtyHtml(l: Line, result: string): string {
    if RendersLocked(l) then
      var q := WholeFloatText(l.qty);
      QtySpan(q) + HiddenInput(QtyFieldName(l.id), q)
    else result
  }

  /** The field name of a saved item reads back as that item's id. */
  lemma {:induction false} FieldNameRoundTrip(n: nat)
    ensures ParseQtyFieldName(QtyFieldName(Some(n))) == Some(n)
  {
    var p := NatToDecimal(n);
    NatToDecimalShape(n);
    DecimalRoundTrip(n);
    var name := QtyFieldName(Some(n));
    assert name == "cart[" + p + "][qty]";
    assert name[..5] == "cart[";
    assert name[|name| - 6..] == "][qty]";
    assert name[5..|name| - 6] == p;
  }

  /**
   * A locked item's markup is a text span and a hidden field carrying the same
   * quantity text (the quantity printed as a float), under the field name of the
   * item's own id. Below 10^14 in magnitude the text reads back as the quantity;
   * from 10^14 on it is in exponent form.
   */
  lemma LockedMarkup(l: Line, result: string)
    requires RendersLocked(l)
    ensures var q := WholeFloatText(l.qty);
      QtyHtml(l, result) == QtySpan(q) + HiddenInput(QtyFieldName(l.id), q)
    ensures -(Ten14 as int) < l.qty < Ten14 ==> IntegerNumericValue(WholeFloatText(l.qty)) == Some(l.qty)
    ensures l.qty >= Ten14 ==> WholeFloatText(l.qty) == ExponentForm(Significand(l.qty).0, Significand(l.qty).1)
    ensures l.id.Some? ==> ParseQtyFieldName(QtyFieldName(l.id)) == l.id
  {
    PrintedIntIsNumeric(l.qty);
    if l.id.Some? {
      FieldNameRoundTrip(l.id.value);
    }
  }

  /** Any other item keeps Magento's markup. */
  lemma UnlockedKeepsMarkup(l: Line, result: string)
    requires !RendersLocked(l)
    ensures QtyHtml(l, result) == result
  {
  }

  /** Whatever the renderer locks, the storefront view model locks too. */
  lemma RendererLockImpliesHelperLock(l: Line)
    ensures RendersLocked(l) ==> CartItemHelper.IsQtyLocked(l)
  {
  }
}
