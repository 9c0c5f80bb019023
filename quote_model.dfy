/**
 * The Magento records the extension reads and changes: a quote (cart) with its
 * lines, catalog products and the customer directory.
 *
 * A quote line is a value; the quote that holds the lines is an object whose
 * `items` sequence the operations reassign, as Magento's `addProduct`,
 * `removeItem`, `setQty` and `save` change a quote in place.
 */
module QuoteModel {
  import opened Wrappers
  import opened Php

  /** One entry of an unserialized `additional_options` list; a missing key reads as Null. */
  datatype OptionEntry = OptionEntry(entryLabel: Scalar, entryValue: Scalar)

  /**
   * The `additional_options` item option: absent, present but not an array once
   * unserialized (a failed unserialize included), or a list of entries.
   */
  datatype AdditionalOptions = NoAdditionalOptions | NotAList | Entries(entries: seq<OptionEntry>)

  /**
   * A quote item. `id` is None until the item is saved; `origQty` is the quantity
   * loaded from storage (`getOrigData('qty')`); `isChild` marks an item that has a
   * parent item and is therefore not visible; `lockOption` is the value of the
   * item option with code `loyalty_locked_qty`, if that option exists; `lockData`
   * is `getData('loyalty_locked_qty')`; `productFlag` is the product's own
   * `loyalty_locked_qty` data (Null when the item has no product).
   */
  datatype Line = Line(
    id: Option<nat>,
    sku: string,
    qty: int,
    origQty: Option<int>,
    price: real,
    customPrice: Option<real>,
    originalCustomPrice: Option<real>,
    isChild: bool,
    lockOption: Option<Scalar>,
    lockData: Scalar,
    additionalOptions: AdditionalOptions,
    productFlag: Scalar)

  /** A catalog product as `productRepository->get($sku)` returns it. */
  datatype Product = Product(sku: string, salable: bool, status: int, price: real, flag: Scalar)

  /** Customer directory: customer id to e-mail; a missing id makes `getById` throw. */
  type Customers = map<int, string>

  /** Magento's message for a repository lookup that finds nothing. */
  function NoSuchEntity(field: string, value: int): string {
    "No such entity with " + field + " = " + IntToDecimal(value)
  }

  /** `getAllVisibleItems()`: the items without a parent item, in order. */
  function VisibleItems(items: seq<Line>): (r: seq<Line>)
    ensures |r| <= |items|
    ensures forall l :: l in r <==> l in items && !l.isChild
  {
    if items == [] then []
    else if items[0].isChild then VisibleItems(items[1..])
    else [items[0]] + VisibleItems(items[1..])
  }

  /** Index of the first item with the given SKU, if any. */
  function FirstWithSku(items: seq<Line>, sku: string): (r: Option<nat>)
    ensures r.Some? ==> r.value < |items| && items[r.value].sku == sku
    ensures r.Some? ==> forall j :: 0 <= j < r.value ==> items[j].sku != sku
    ensures r.None? ==> forall j :: 0 <= j < |items| ==> items[j].sku != sku
  {
    if items == [] then None
    else if items[0].sku == sku then Some(0)
    else match FirstWithSku(items[1..], sku)
      case None => None
      case Some(k) => Some(k + 1)
  }

  /** `getItemById($id)`: the first item whose id is `id`. */
  function ItemById(items: seq<Line>, id: int): (r: Option<Line>)
    ensures r.Some? <==> exists j :: 0 <= j < |items| && items[j].id == Some(id)
    ensures r.Some? ==> r.value in items && r.value.id == Some(id)
  {
    if items == [] then None
    else if items[0].id == Some(id) then Some(items[0])
    else ItemById(items[1..], id)
  }

  /** A customer's shopping cart. */
  class Quote {
    const id: nat
    const customerId: int
    const isActive: bool
    const customerEmail: Option<string>
    /** Creation time, in seconds. */
    const createdAt: int
    var items: seq<Line>
    var couponCode: Option<string>
    /** How many times the quote has been saved. */
    var saves: nat

    /** `createEmptyCart` followed by `assignCustomer`. */
    constructor (id: nat, customerId: int, email: Option<string>, createdAt: int)
      ensures this.id == id && this.customerId == customerId && customerEmail == email
      ensures this.createdAt == createdAt && isActive
      ensures items == [] && couponCode == None && saves == 0
    {
      this.id := id;
      this.customerId := customerId;
      customerEmail := email;
      this.createdAt := createdAt;
      isActive := true;
      items := [];
      couponCode := None;
      saves := 0;
    }

    /** `addProduct`: appends a new line. */
    method AddLine(line: Line)
      modifies this`items
      ensures items == old(items) + [line]
    {
      items := items + [line];
    }

    /** `$item->setQty($qty)` on the k-th item. */
    method SetQtyAt(k: nat, qty: int)
      requires k < |items|
      modifies this`items
      ensures items == old(items)[k := old(items)[k].(qty := qty)]
    {
      items := items[k := items[k].(qty := qty)];
    }

    /** `removeItem` of the k-th item. */
    method RemoveAt(k: nat)
      requires k < |items|
      modifies this`items
      ensures items == old(items)[..k] + old(items)[k + 1..]
      ensures |items| == |old(items)| - 1
    {
      items := items[..k] + items[k + 1..];
    }

    /** Removes every item of the quote, one `removeItem` per item, first to last. */
    method RemoveAllItems()
      modifies this`items
      ensures items == []
    {
      var all := items;
      var k := 0;
      while k < |all|
        invariant 0 <= k <= |all|
        invariant items == all[k..]
      {
        RemoveAt(0);
        k := k + 1;
      }
    }

    method SetCouponCode(code: string)
      modifies this`couponCode
      ensures couponCode == Some(code)
    {
      couponCode := Some(code);
    }

    /** `collectTotals()->save()`, `save()` or `quoteRepository->save($quote)`. */
    method Save()
      modifies this`saves
      ensures saves == old(saves) + 1
    {
      saves := saves + 1;
    }
  }
}
