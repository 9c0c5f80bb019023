/**
 * The sales order as the cron job and the order observers see it: its identity,
 * e-mail, status before and after the save that fired the event, its items, and
 * the two custom columns the order-place job updates.
 */
module OrderModel {
  import opened Wrappers
  import opened Json

  /** An order item; `isChild` marks an item with a parent item (not visible). */
  datatype OrderItem = OrderItem(sku: string, price: real, qtyOrdered: int, isChild: bool)

  /** `getAllVisibleItems()`: the items without a parent item, in order. */
  function VisibleOrderItems(items: seq<OrderItem>): (r: seq<OrderItem>)
    ensures |r| <= |items|
    ensures forall it :: it in r <==> it in items && !it.isChild
  {
    if items == [] then []
    else if items[0].isChild then VisibleOrderItems(items[1..])
    else [items[0]] + VisibleOrderItems(items[1..])
  }

  /**
   * The guard both order observers share: they act only when the status differs
   * from the original one (`!==`, so a first status set from null counts) and the
   * new status is 'complete'.
   */
  predicate JustCompleted(origStatus: Option<string>, status: Option<string>) {
    origStatus != status && status == Some("complete")
  }

  /** A nullable string as `json_encode` writes it. */
  function StringOrNull(s: Option<string>): (j: Json)
    ensures s.None? <==> j == JNull
    ensures s.Some? ==> j == JStr(s.value)
  {
    if s.Some? then JStr(s.value) else JNull
  }

  class Order {
    const incrementId: string
    const customerEmail: Option<string>
    /** `getOrigData('status')`. */
    const origStatus: Option<string>
    const status: Option<string>
    /** `getAllItems()`, children included. */
    const items: seq<OrderItem>
    /** The `loyalty_order_place` column: 1 once the ledger accepted the order. */
    var placeFlag: Option<int>
    /** The `loyalty_order_place_retrieve` column: failed attempts so far. */
    var retrieveCount: Option<int>
    /** How many times the order has been saved. */
    var saves: nat

    constructor (incrementId: string, customerEmail: Option<string>, origStatus: Option<string>,
                 status: Option<string>, items: seq<OrderItem>, placeFlag: Option<int>, retrieveCount: Option<int>)
      ensures this.incrementId == incrementId && this.customerEmail == customerEmail
      ensures this.origStatus == origStatus && this.status == status && this.items == items
      ensures this.placeFlag == placeFlag && this.retrieveCount == retrieveCount && saves == 0
    {
      this.incrementId := incrementId;
      this.customerEmail := customerEmail;
      this.origStatus := origStatus;
      this.status := status;
      this.items := items;
      this.placeFlag := placeFlag;
      this.retrieveCount := retrieveCount;
      saves := 0;
    }

    /** `setData('loyalty_order_place', v)`. */
    method SetPlaceFlag(v: int)
      modifies this`placeFlag
      ensures placeFlag == Some(v)
    {
      placeFlag := Some(v);
    }

    /** `setData('loyalty_order_place_retrieve', v)`. */
    method SetRetrieveCount(v: int)
      modifies this`retrieveCount
      ensures retrieveCount == Some(v)
    {
      retrieveCount := Some(v);
    }

    /** `orderRepository->save($order)`. */
    method Save()
      modifies this`saves
      ensures saves == old(saves) + 1
    {
      saves := saves + 1;
    }
  }
}
