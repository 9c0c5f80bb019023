/**
 * The order-place cron job: it resends to the ledger every order the ledger has
 * not yet accepted, until the ledger accepts it or the number of failed attempts
 * reaches the configured limit.
 */
module OrderPlace {
  import opened Wrappers
  import opened Php
  import opened Json
  import opened OrderModel
  import opened LoyaltyengageCart

  /** The two columns the job reads and writes: the sent flag and the failed-attempt counter. */
  datatype PlaceState = PlaceState(flag: Option<int>, count: Option<int>)

  function StateOf(o: Order): PlaceState
    reads o
  {
    PlaceState(o.placeFlag, o.retrieveCount)
  }

  /** The search filter: flag `= 0` and counter `< limit` (a null column matches neither). */
  predicate Selected(s: PlaceState, limit: int) {
    s.flag == Some(0) && s.count.Some? && s.count.value < limit
  }

  /**
   * The update after a `placeOrder` call that returned a status: 200 sets the
   * flag, anything else adds one to the `(int)` of the counter.
   */
  function Attempt(s: PlaceState, status: int): PlaceState {
    if status == 200 then s.(flag := Some(1)) else s.(count := Some(s.count.GetOr(0) + 1))
  }

  /**
   * On an order the filter selected, an accepted attempt sets the flag and keeps
   * the counter, a failed one keeps the flag and adds exactly one to the counter,
   * which then stays within the limit. Either way the order stays selected only
   * if the attempt failed and the limit is not yet reached.
   */
  lemma AttemptOutcome(s: PlaceState, status: int, limit: int)
    requires Selected(s, limit)
    ensures var t := Attempt(s, status);
      (status == 200 ==> t.flag == Some(1) && t.count == s.count)
      && (status != 200 ==> t.flag == s.flag && t.count == Some(s.count.value + 1) && t.count.value <= limit)
      && (Selected(t, limit) <==> status != 200 && s.count.value + 1 < limit)
  {
  }

  /**
   * Successive runs of the job on one order, the i-th run's ledger status being
   * `statuses[i]`: the final state and how many runs sent the order.
   */
  function Runs(s: PlaceState, statuses: seq<int>, limit: int): (PlaceState, nat)
    decreases |statuses|
  {
    if statuses == [] then (s, 0)
    else if Selected(s, limit) then
      var r := Runs(Attempt(s, statuses[0]), statuses[1..], limit);
      (r.0, r.1 + 1)
    else Runs(s, statuses[1..], limit)
  }

  /**
   * Retries are bounded: however many times the job runs, an order is sent at
   * most `limit - counter` times, and not at all when the filter does not select
   * it; an order the ledger has accepted is never sent again.
   */
  lemma {:induction false} RetriesBounded(s: PlaceState, statuses: seq<int>, limit: int)
    ensures Selected(s, limit) ==> Runs(s, statuses, limit).1 <= limit - s.count.value
    ensures !Selected(s, limit) ==> Runs(s, statuses, limit).1 == 0
    decreases |statuses|
  {
    if statuses != [] {
      RetriesBounded(s, statuses[1..], limit);
      if Selected(s, limit) {
        var t := Attempt(s, statuses[0]);
        RetriesBounded(t, statuses[1..], limit);
      }
    }
  }

  /** One product entry of the request: the SKU and the `(int)` ordered quantity. */
  function ProductEntry(it: OrderItem): Json {
    JObj([("sku", JStr(it.sku)), ("quantity", JInt(it.qtyOrdered))])
  }

  /** The loop that fills `$products`. */
  method BuildProducts(items: seq<OrderItem>) returns (products: seq<Json>)
    ensures products == EntriesOf(items, ProductEntry)
  {
    products := [];
    var k := 0;
    while k < |items|
      invariant 0 <= k <= |items|
      invariant products == EntriesOf(items[..k], ProductEntry)
    {
      EntriesOfSnoc(items[..k], items[k], ProductEntry);
      assert items[..k + 1] == items[..k] + [items[k]];
      products := products + [ProductEntry(items[k])];
      k := k + 1;
    }
    assert items[..k] == items;
  }

  /**
   * The run ends at a selected order without an e-mail (`placeOrder` takes a
   * string, and under strict types null makes it throw) or whose ledger call
   * throws an exception or an error (nothing in the cron job catches either).
   */
  predicate Halts(o: Order, s: PlaceState, reply: Reply, limit: int) {
    Selected(s, limit) && (o.customerEmail.None? || !reply.Status?)
  }

  /** The place of the first order the run ends at, or the number of orders. */
  function FirstHalt(orders: seq<Order>, states: seq<PlaceState>, replies: seq<Reply>, limit: int): (h: nat)
    requires |states| == |orders| && |replies| == |orders|
    ensures h <= |orders|
    ensures forall k :: 0 <= k < h ==> !Halts(orders[k], states[k], replies[k], limit)
    ensures h < |orders| ==> Halts(orders[h], states[h], replies[h], limit)
    decreases |orders|
  {
    if orders == [] then 0
    else if Halts(orders[0], states[0], replies[0], limit) then 0
    else 1 + FirstHalt(orders[1..], states[1..], replies[1..], limit)
  }

  /** The place-order call the run makes for an order, if any. */
  function CallFor(o: Order, s: PlaceState, limit: int): seq<LedgerCall> {
    if Selected(s, limit) && o.customerEmail.Some?
    then [PlaceOrder(o.customerEmail.value, o.incrementId, EntriesOf(o.items, ProductEntry))]
    else []
  }

  /** The calls for the first `n` orders, in order. */
  function PlaceCalls(orders: seq<Order>, states: seq<PlaceState>, limit: int, n: nat): (r: seq<LedgerCall>)
    requires |states| == |orders| && n <= |orders|
    ensures |r| <= n
  {
    if n == 0 then [] else PlaceCalls(orders, states, limit, n - 1) + CallFor(orders[n - 1], states[n - 1], limit)
  }

  /**
   * Every call for the first `n` orders is the place-order call of one of
   * them that the filter selected and that has an e-mail.
   */
  lemma {:induction false} PlaceCallsSent(orders: seq<Order>, states: seq<PlaceState>, limit: int, n: nat)
    requires |states| == |orders| && n <= |orders|
    ensures forall c :: c in PlaceCalls(orders, states, limit, n) ==>
      exists k :: 0 <= k < n && Selected(states[k], limit) && orders[k].customerEmail.Some?
        && c == PlaceOrder(orders[k].customerEmail.value, orders[k].incrementId, EntriesOf(orders[k].items, ProductEntry))
  {
    if n > 0 {
      PlaceCallsSent(orders, states, limit, n - 1);
    }
  }

  /** The calls of a whole run: those for the orders up to and including the one it ends at. */
  function RunCalls(orders: seq<Order>, states: seq<PlaceState>, replies: seq<Reply>, limit: int): seq<LedgerCall>
    requires |states| == |orders| && |replies| == |orders|
  {
    var h := FirstHalt(orders, states, replies, limit);
    PlaceCalls(orders, states, limit, if h < |orders| then h + 1 else h)
  }

  /** The state of every order before the run. */
  function StatesOf(orders: seq<Order>): (r: seq<PlaceState>)
    reads set o | o in orders
    ensures |r| == |orders|
    ensures forall k :: 0 <= k < |orders| ==> r[k] == StateOf(orders[k])
  {
    if orders == [] then [] else [StateOf(orders[0])] + StatesOf(orders[1..])
  }

  /** One round of the loop: the order's call, whether the run ends here, and the order's update. */
  method PlaceOne(o: Order, limit: int, reply: Reply) returns (call: seq<LedgerCall>, halt: bool)
    modifies o`placeFlag, o`retrieveCount, o`saves
    ensures call == CallFor(o, old(StateOf(o)), limit)
    ensures halt == Halts(o, old(StateOf(o)), reply, limit)
    ensures !halt && Selected(old(StateOf(o)), limit) ==>
      StateOf(o) == Attempt(old(StateOf(o)), reply.code) && o.saves == old(o.saves) + 1
    ensures halt || !Selected(old(StateOf(o)), limit) ==> StateOf(o) == old(StateOf(o)) && o.saves == old(o.saves)
  {
    call, halt := [], false;
    if o.placeFlag == Some(0) && o.retrieveCount.Some? && o.retrieveCount.value < limit {
      if o.customerEmail.None? {
        return [], true;
      }
      var products := BuildProducts(o.items);
      call := [PlaceOrder(o.customerEmail.value, o.incrementId, products)];
      if !reply.Status? {
        return call, true;
      }
      if reply.code == 200 {
        o.SetPlaceFlag(1);
      } else {
        o.SetRetrieveCount(o.retrieveCount.GetOr(0) + 1);
      }
      o.Save();
    }
  }

  /** The save counter of every order before the run. */
  ghost function SavesOf(orders: seq<Order>): (r: seq<nat>)
    reads set o | o in orders
    ensures |r| == |orders|
    ensures forall k :: 0 <= k < |orders| ==> r[k] == orders[k].saves
  {
    if orders == [] then [] else [orders[0].saves] + SavesOf(orders[1..])
  }

  /**
   * An order the run went past: updated by `Attempt` and saved once if the filter
   * selected it, otherwise left as it was.
   */
  ghost predicate Processed(o: Order, s: PlaceState, save0: nat, reply: Reply, limit: int)
    reads o
  {
    if Selected(s, limit)
    then reply.Status? && StateOf(o) == Attempt(s, reply.code) && o.saves == save0 + 1
    else StateOf(o) == s && o.saves == save0
  }

  /** An order the run left as it was. */
  ghost predicate Untouched(o: Order, s: PlaceState, save0: nat)
    reads o
  {
    StateOf(o) == s && o.saves == save0
  }

  /**
   * The orders after the run has gone past the first `n` of them: those are
   * `Processed`, the rest `Untouched`.
   */
  ghost predicate RunState(orders: seq<Order>, s0: seq<PlaceState>, saves0: seq<nat>, replies: seq<Reply>,
                           limit: int, n: nat)
    reads set o | o in orders
  {
    |s0| == |orders| && |saves0| == |orders| && |replies| == |orders| && n <= |orders|
    && forall i :: 0 <= i < |orders| ==>
      if i < n then Processed(orders[i], s0[i], saves0[i], replies[i], limit)
      else Untouched(orders[i], s0[i], saves0[i])
  }

  /**
   * The loop's round for `orders[k]`: from the loop's invariant for `k` to the
   * invariant for `k + 1`, or to the state the run ends in.
   */
  method PlaceAt(o: Order, orders: seq<Order>, replies: seq<Reply>, limit: int, k: nat, calls: seq<LedgerCall>,
                 ghost s0: seq<PlaceState>, ghost saves0: seq<nat>, ghost h: nat)
    returns (calls': seq<LedgerCall>, halt: bool)
    requires forall i, j :: 0 <= i < j < |orders| ==> orders[i] != orders[j]
    requires RunState(orders, s0, saves0, replies, limit, k)
    requires k < |orders| && o == orders[k] && k <= h && h == FirstHalt(orders, s0, replies, limit)
    requires calls == PlaceCalls(orders, s0, limit, k)
    modifies o`placeFlag, o`retrieveCount, o`saves
    ensures halt ==> k == h && calls' == RunCalls(orders, s0, replies, limit)
    ensures halt ==> RunState(orders, s0, saves0, replies, limit, h)
    ensures !halt ==> k + 1 <= h && calls' == PlaceCalls(orders, s0, limit, k + 1)
    ensures !halt ==> RunState(orders, s0, saves0, replies, limit, k + 1)
  {
    assert Untouched(orders[k], s0[k], saves0[k]);
    ghost var stop := Halts(orders[k], s0[k], replies[k], limit);
    assert k == h ==> stop;
    var call;
    call, halt := PlaceOne(o, limit, replies[k]);
    assert halt == stop;
    calls' := calls + call;
    assert calls' == PlaceCalls(orders, s0, limit, k + 1);
    forall i | 0 <= i < |orders| && i != k
      ensures if i < k then Processed(orders[i], s0[i], saves0[i], replies[i], limit)
        else Untouched(orders[i], s0[i], saves0[i])
    {
      assert orders[i] != o;
    }
  }

  /**
   * The loop of `execute` for a given retrieve limit: it works through the orders
   * until `FirstHalt`; each selected order before it is sent, updated by `Attempt`
   * and saved once, and every other order is left as it was. `halted` says
   * whether the run ended in an exception or an error.
   */
  method PlaceAll(orders: seq<Order>, replies: seq<Reply>, limit: int)
    returns (calls: seq<LedgerCall>, halted: bool)
    requires |replies| == |orders|
    requires forall i, j :: 0 <= i < j < |orders| ==> orders[i] != orders[j]
    modifies orders`placeFlag, orders`retrieveCount, orders`saves
    ensures var s0 := old(StatesOf(orders));
      var saves0 := old(SavesOf(orders));
      var h := FirstHalt(orders, s0, replies, limit);
      halted == (h < |orders|)
      && calls == RunCalls(orders, s0, replies, limit)
      && RunState(orders, s0, saves0, replies, limit, h)
  {
    ghost var s0 := StatesOf(orders);
    ghost var saves0 := SavesOf(orders);
    ghost var h := FirstHalt(orders, s0, replies, limit);
    calls, halted := [], false;
    var k := 0;
    while k < |orders| && !halted
      invariant 0 <= k <= h
      invariant !halted ==> calls == PlaceCalls(orders, s0, limit, k)
      invariant !halted ==> RunState(orders, s0, saves0, replies, limit, k)
      invariant halted ==> k == h < |orders| && calls == RunCalls(orders, s0, replies, limit)
      invariant halted ==> RunState(orders, s0, saves0, replies, limit, h)
      decreases |orders| - k, !halted
    {
      calls, halted := PlaceAt(orders[k], orders, replies, limit, k, calls, s0, saves0, h);
      if !halted {
        k := k + 1;
      }
    }
    if !halted {
      assert k == h && h == |orders|;
      assert calls == RunCalls(orders, s0, replies, limit);
    }
  }

  /**
   * `execute`. `orders` are the store's orders and `replies[k]` is the ledger's
   * answer to the place-order call for `orders[k]`. The orders go through
   * `PlaceAll` with the configured retrieve limit.
   */
  method Execute(config: Config, orders: seq<Order>, replies: seq<Reply>)
    returns (calls: seq<LedgerCall>, halted: bool)
    requires |replies| == |orders|
    requires forall i, j :: 0 <= i < j < |orders| ==> orders[i] != orders[j]
    modifies orders`placeFlag, orders`retrieveCount, orders`saves
    ensures var limit := OrderRetrieveLimit(config);
      var s0 := old(StatesOf(orders));
      var saves0 := old(SavesOf(orders));
      var h := FirstHalt(orders, s0, replies, limit);
      halted == (h < |orders|)
      && calls == RunCalls(orders, s0, replies, limit)
      && RunState(orders, s0, saves0, replies, limit, h)
  {
    calls, halted := PlaceAll(orders, replies, OrderRetrieveLimit(config));
  }
}
