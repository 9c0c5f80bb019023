/**
 * The loyalty-cart web service: add one loyalty product, add several, and add a
 * product together with a discount claimed from the ledger. A loyalty product
 * is added free of charge, with quantity 1 and the lock markers the
 * classifiers look for; the ledger is asked first and has the last word on
 * eligibility.
 */
module LoyaltyCart {
  import opened Wrappers
  import opened Php
  import opened Json
  import opened Bytes
  import opened QuoteModel
  import opened Classifiers
  import opened CartItemHelper
  import opened LoyaltyengageCart
  import opened LoyaltyCartResponse

  /** The status `setErrorResponse` puts on the web response; this class's `HTTP_BAD_REQUEST` is 401. */
  const BadRequest: int := 401

  const SkuRequired: string := "customerId and SKU are required."
  const NotEligible: string := "Product could not be added. User is not eligible."
  const InvalidProduct: string := "Invalid or unavailable product."
  const AddedOne: string := "Product added to loyalty cart successfully."
  const AddError: string := "An error occurred while adding the product."
  const SkusRequired: string := "customerId and SKUs are required."
  const NoneAdded: string := "Failed to add any products to the cart."
  const AddManyError: string := "An error occurred while adding the products."
  const ClaimAddFailed: string := "Failed to add product to loyalty cart."
  const NoDiscountCode: string := "No discount code returned from LoyaltyEngage."
  const CodeTooLong: string := "Discount code is too long for Magento."
  const ClaimError: string := "An unexpected error occurred while applying the discount."

  // ---------------------------------------------------------------------------
  // The loyalty line and adding it once per SKU

  /** `isValidProduct`: salable and enabled. */
  predicate IsValidProduct(p: Product) {
    p.salable && p.status == 1
  }

  /**
   * The line `addProduct` puts in the quote for a loyalty product: quantity 1,
   * custom and original custom price 0 (which, once totals are collected, is
   * its price), the `loyalty_locked_qty` data and item option both set to 1.
   */
  function NewLoyaltyLine(p: Product): Line {
    Line(None, p.sku, 1, None, 0.0, Some(0.0), Some(0.0), false, Some(Int(1)), Int(1), NoAdditionalOptions, p.flag)
  }

  /** Every classifier of the extension recognises the new line, and its quantity box is locked. */
  lemma NewLineIsLoyalty(p: Product, isEnterprise: bool)
    ensures var l := NewLoyaltyLine(p);
      IsConfirmedLoyalty(l) && IsLoyaltyLoose(l, isEnterprise) && IsQtyLocked(l)
      && l.qty == 1 && l.customPrice == Some(0.0) && l.originalCustomPrice == Some(0.0) && l.sku == p.sku
  {
  }

  /** The items after the add step: unchanged when an item with the SKU is already there. */
  function AddOnce(items: seq<Line>, sku: string, p: Product): seq<Line> {
    if FirstWithSku(items, sku).Some? then items else items + [NewLoyaltyLine(p)]
  }

  /** The catalog returns, for a SKU, a product with that SKU. */
  predicate CatalogConsistent(catalog: map<string, Product>) {
    forall s :: s in catalog ==> catalog[s].sku == s
  }

  /** No two items share a SKU. */
  predicate DistinctSkus(items: seq<Line>) {
    forall i, j :: 0 <= i < j < |items| ==> items[i].sku != items[j].sku
  }

  /**
   * After the add step an item with the SKU is in the cart, the old items are a
   * prefix, at most one line was added and it is a loyalty line; doing it again
   * changes nothing.
   */
  lemma AddOnceProperties(items: seq<Line>, sku: string, p: Product)
    requires p.sku == sku
    ensures var r := AddOnce(items, sku, p);
      FirstWithSku(r, sku).Some?
      && |items| <= |r| <= |items| + 1 && r[..|items|] == items
      && (|r| > |items| ==> r[|items|] == NewLoyaltyLine(p) && FirstWithSku(items, sku).None?)
      && AddOnce(r, sku, p) == r
  {
    var r := AddOnce(items, sku, p);
    if FirstWithSku(items, sku).None? {
      assert r[|items|].sku == sku;
    }
  }

  /** The add step never introduces a second item with the same SKU. */
  lemma AddOnceKeepsDistinct(items: seq<Line>, sku: string, p: Product)
    requires p.sku == sku && DistinctSkus(items)
    ensures DistinctSkus(AddOnce(items, sku, p))
  {
  }

  /**
   * `getOrCreateCustomerQuote`: the customer's active quote, or a new empty one
   * assigned to the customer. `active` is the active quote (null when
   * `getActiveForCustomer` finds none); `newQuoteId` and `now` are the id and the
   * creation time that `createEmptyCart` gives the new quote.
   */
  method GetOrCreateQuote(customerId: int, email: string, active: Quote?, newQuoteId: nat, now: int) returns (q: Quote)
    ensures active != null ==> q == active
    ensures active == null ==>
      (fresh(q) && q.items == [] && q.saves == 0 && q.couponCode.None?
       && q.customerId == customerId && q.customerEmail == Some(email) && q.isActive)
  {
    if active != null {
      return active;
    }
    q := new Quote(newQuoteId, customerId, Some(email), now);
  }

  // ---------------------------------------------------------------------------
  // addProduct

  /**
   * The answer of `addProduct`. `customers` is the customer directory, `reply`
   * the ledger's answer to the add-to-cart call and `catalog` the product
   * repository.
   */
  function AddProductAnswer(customerId: int, sku: string, customers: Customers, reply: Reply,
                            catalog: map<string, Product>): Answer
  {
    if customerId == 0 || !TruthyString(sku) then Failed(SkuRequired, BadRequest)
    else if customerId !in customers then Failed(AddError, BadRequest)
    else match reply
      case Threw(_) => Failed(AddError, BadRequest)
      case Errored(_) => Failed(AddError, BadRequest)
      case Status(code) =>
        if code != 200 then Failed(NotEligible, BadRequest)
        else if sku !in catalog then Failed(AddError, BadRequest)
        else if !IsValidProduct(catalog[sku]) then Failed(InvalidProduct, BadRequest)
        else Succeeded(AddedOne)
  }

  /**
   * `addProduct` succeeds exactly when the customer exists, the ledger accepts
   * with status 200 and the product exists and is valid; each failure has its own
   * message, and every failure sets status 401.
   */
  lemma AddProductAnswerCases(customerId: int, sku: string, customers: Customers, reply: Reply,
                              catalog: map<string, Product>)
    ensures var a := AddProductAnswer(customerId, sku, customers, reply, catalog);
      (a.success <==> customerId != 0 && TruthyString(sku) && customerId in customers
                      && reply == Status(200) && sku in catalog && IsValidProduct(catalog[sku]))
      && (!a.success ==> a.httpStatus == Some(BadRequest))
      && (a.message == SkuRequired <==> customerId == 0 || !TruthyString(sku))
      && (a.message == NotEligible <==>
            customerId != 0 && TruthyString(sku) && customerId in customers && reply.Status? && reply.code != 200)
  {
  }

  /**
   * Without a bearer token the add-to-cart call throws the TypeError, which
   * `addProduct`'s `catch (\Throwable)` turns into its generic error answer.
   */
  lemma AddWithoutToken(c: Config, customerId: int, sku: string, customers: Customers, transport: Reply,
                        catalog: map<string, Product>)
    requires c.bearerToken.None?
    ensures customerId != 0 && TruthyString(sku) && customerId in customers ==>
      AddProductAnswer(customerId, sku, customers, ClientReply(c, AddToCart(customers[customerId], sku), transport),
                       catalog) == Failed(AddError, BadRequest)
  {
    if customerId in customers {
      ClientReplyCases(c, AddToCart(customers[customerId], sku), transport);
    }
  }

  /**
   * `addProduct`. The ledger is called only for a valid request from a known
   * customer; on success the product is in the quote (added once per SKU) and
   * the quote is saved; on failure no quote is touched.
   */
  method AddProduct(customerId: int, sku: string, customers: Customers, reply: Reply,
                    catalog: map<string, Product>, active: Quote?, newQuoteId: nat, now: int)
    returns (a: Answer, calls: seq<LedgerCall>, quote: Quote?)
    modifies active
    ensures active != null ==> active.couponCode == old(active.couponCode)
    ensures a == AddProductAnswer(customerId, sku, customers, reply, catalog)
    ensures calls == (if customerId == 0 || !TruthyString(sku) || customerId !in customers then []
                      else [AddToCart(customers[customerId], sku)])
    ensures !a.success ==> quote == null
    ensures !a.success && active != null ==> active.items == old(active.items) && active.saves == old(active.saves)
    ensures a.success ==> quote != null && (active != null ==> quote == active) && (active == null ==> fresh(quote))
    ensures a.success ==>
      quote.items == AddOnce(if active != null then old(active.items) else [], sku, catalog[sku])
      && quote.saves == (if active != null then old(active.saves) else 0) + 1
  {
    calls, quote := [], null;
    if customerId == 0 || !TruthyString(sku) {
      return Failed(SkuRequired, BadRequest), calls, quote;
    }
    if customerId !in customers {
      return Failed(AddError, BadRequest), calls, quote;
    }
    var email := customers[customerId];
    calls := [AddToCart(email, sku)];
    if !reply.Status? {
      return Failed(AddError, BadRequest), calls, quote;
    }
    if reply.code != 200 {
      return Failed(NotEligible, BadRequest), calls, quote;
    }
    if sku !in catalog {
      return Failed(AddError, BadRequest), calls, quote;
    }
    var product := catalog[sku];
    if !IsValidProduct(product) {
      return Failed(InvalidProduct, BadRequest), calls, quote;
    }
    quote := GetOrCreateQuote(customerId, email, active, newQuoteId, now);
    if FirstWithSku(quote.items, sku).None? {
      quote.AddLine(NewLoyaltyLine(product));
    }
    quote.Save();
    a := Succeeded(AddedOne);
  }

  // ---------------------------------------------------------------------------
  // addMultipleProducts

  /**
   * The state of the loop over the SKUs: the quote's items, the success counter,
   * the failed SKUs in order, how many SKUs were sent to the ledger, and whether
   * a ledger call threw an exception or an error (either ends the loop and reaches
   * the outer `catch (\Throwable)`).
   */
  datatype Batch = Batch(items: seq<Line>, successCount: nat, failed: seq<string>, attempted: nat, threw: bool)

  /** One round of the loop for `sku`, given the ledger's `reply` to its add-to-cart call. */
  function BatchStep(b: Batch, sku: string, reply: Reply, catalog: map<string, Product>): Batch {
    if b.threw then b
    else match reply
      case Threw(_) => b.(attempted := b.attempted + 1, threw := true)
      case Errored(_) => b.(attempted := b.attempted + 1, threw := true)
      case Status(code) =>
        if code != 200 || sku !in catalog || !IsValidProduct(catalog[sku])
        then b.(failed := b.failed + [sku], attempted := b.attempted + 1)
        else b.(items := AddOnce(b.items, sku, catalog[sku]), successCount := b.successCount + 1,
                attempted := b.attempted + 1)
  }

  /** The loop over `skus`, the k-th SKU answered by `replies[k]`, starting from the quote's `items`. */
  function RunBatch(items: seq<Line>, skus: seq<string>, replies: seq<Reply>, catalog: map<string, Product>): (b: Batch)
    requires |replies| == |skus|
    ensures b.attempted <= |skus|
    decreases |skus|
  {
    if skus == [] then Batch(items, 0, [], 0, false)
    else
      var n := |skus| - 1;
      BatchStep(RunBatch(items, skus[..n], replies[..n], catalog), skus[n], replies[n], catalog)
  }

  lemma RunBatchExtend(items: seq<Line>, skus: seq<string>, replies: seq<Reply>, catalog: map<string, Product>, k: nat)
    requires |replies| == |skus| && k < |skus|
    ensures RunBatch(items, skus[..k + 1], replies[..k + 1], catalog)
         == BatchStep(RunBatch(items, skus[..k], replies[..k], catalog), skus[k], replies[k], catalog)
  {
    assert skus[..k + 1][..k] == skus[..k];
    assert replies[..k + 1][..k] == replies[..k];
  }

  /** Once a call has thrown, later SKUs change nothing. */
  lemma {:induction false} RunBatchAfterThrow(items: seq<Line>, skus: seq<string>, replies: seq<Reply>,
                                              catalog: map<string, Product>, k: nat)
    requires |replies| == |skus| && k <= |skus|
    requires RunBatch(items, skus[..k], replies[..k], catalog).threw
    ensures RunBatch(items, skus, replies, catalog) == RunBatch(items, skus[..k], replies[..k], catalog)
    decreases |skus|
  {
    if k == |skus| {
      assert skus[..k] == skus && replies[..k] == replies;
    } else {
      var n := |skus| - 1;
      assert skus[..n][..k] == skus[..k];
      assert replies[..n][..k] == replies[..k];
      RunBatchAfterThrow(items, skus[..n], replies[..n], catalog, k);
    }
  }

  /**
   * The counters add up: without a throw every SKU was sent and is either a
   * success or a failure; with a throw the thrown one is neither. The loop throws
   * exactly when some reply is an exception, and stops at the first one.
   */
  lemma {:induction false} BatchCounts(items: seq<Line>, skus: seq<string>, replies: seq<Reply>,
                                       catalog: map<string, Product>)
    requires |replies| == |skus|
    ensures var b := RunBatch(items, skus, replies, catalog);
      b.attempted <= |skus|
      && (!b.threw ==> b.attempted == |skus| && b.successCount + |b.failed| == |skus|)
      && (b.threw ==> b.attempted >= 1 && b.successCount + |b.failed| + 1 == b.attempted
                      && !replies[b.attempted - 1].Status?)
      && (b.threw <==> exists j :: 0 <= j < |skus| && !replies[j].Status?)
      && (forall j :: 0 <= j < b.attempted - 1 ==> replies[j].Status?)
      && (!b.threw ==> forall j :: 0 <= j < |skus| ==> replies[j].Status?)
    decreases |skus|
  {
    if skus != [] {
      var n := |skus| - 1;
      BatchCounts(items, skus[..n], replies[..n], catalog);
      var prev := RunBatch(items, skus[..n], replies[..n], catalog);
      assert forall j :: 0 <= j < n ==> replies[..n][j] == replies[j];
      if prev.threw {
        var j :| 0 <= j < n && !replies[..n][j].Status?;
        assert !replies[j].Status?;
      }
    }
  }

  /** Every failed SKU is one of the requested SKUs. */
  lemma {:induction false} BatchFailedFromInput(items: seq<Line>, skus: seq<string>, replies: seq<Reply>,
                                                catalog: map<string, Product>)
    requires |replies| == |skus|
    ensures forall f :: f in RunBatch(items, skus, replies, catalog).failed ==> f in skus
    decreases |skus|
  {
    if skus != [] {
      var n := |skus| - 1;
      BatchFailedFromInput(items, skus[..n], replies[..n], catalog);
      assert forall f :: f in skus[..n] ==> f in skus;
    }
  }

  /**
   * The loop only appends to the quote, one free loyalty line at most per SKU,
   * and never creates two items with the same SKU when the catalog is
   * consistent and the quote had none.
   */
  lemma {:induction false} BatchOnlyAddsLoyaltyLines(items: seq<Line>, skus: seq<string>, replies: seq<Reply>,
                                                     catalog: map<string, Product>)
    requires |replies| == |skus| && CatalogConsistent(catalog)
    ensures var b := RunBatch(items, skus, replies, catalog);
      |items| <= |b.items| <= |items| + b.successCount && b.items[..|items|] == items
      && (forall k :: |items| <= k < |b.items| ==> IsConfirmedLoyalty(b.items[k]) && b.items[k].qty == 1)
      && (DistinctSkus(items) ==> DistinctSkus(b.items))
    decreases |skus|
  {
    if skus != [] {
      var n := |skus| - 1;
      BatchOnlyAddsLoyaltyLines(items, skus[..n], replies[..n], catalog);
      var prev := RunBatch(items, skus[..n], replies[..n], catalog);
      var sku := skus[n];
      assert RunBatch(items, skus, replies, catalog) == BatchStep(prev, sku, replies[n], catalog);
      if !prev.threw && replies[n] == Status(200) && sku in catalog && IsValidProduct(catalog[sku]) {
        AddOnceProperties(prev.items, sku, catalog[sku]);
        if DistinctSkus(items) {
          AddOnceKeepsDistinct(prev.items, sku, catalog[sku]);
        }
        var r := AddOnce(prev.items, sku, catalog[sku]);
        assert r[..|items|] == r[..|prev.items|][..|items|];
      }
    }
  }

  /** `implode(', ', $list)`. */
  function Join(list: seq<string>, sep: string): string {
    if list == [] then ""
    else if |list| == 1 then list[0]
    else list[0] + sep + Join(list[1..], sep)
  }

  /** The success message: the count, then the failed SKUs when there are any. */
  function BatchMessage(successCount: nat, failed: seq<string>): string {
    "Successfully added " + IntToDecimal(successCount) + " product(s) to the cart."
    + (if failed == [] then "" else " Failed to add: " + Join(failed, ", "))
  }

  /** The answer once the loop has run and the customer was found. */
  function BatchAnswer(b: Batch): (a: Answer)
    ensures a.success <==> !b.threw && b.successCount > 0
    ensures a.success ==> a.message == BatchMessage(b.successCount, b.failed)
  {
    if b.threw then Failed(AddManyError, BadRequest)
    else if b.successCount == 0 then Failed(NoneAdded, BadRequest)
    else Succeeded(BatchMessage(b.successCount, b.failed))
  }

  /** The add-to-cart calls for the given SKUs, in order. */
  function AddCalls(email: string, skus: seq<string>): (r: seq<LedgerCall>)
    ensures |r| == |skus|
    ensures forall j :: 0 <= j < |skus| ==> r[j] == AddToCart(email, skus[j])
  {
    if skus == [] then [] else [AddToCart(email, skus[0])] + AddCalls(email, skus[1..])
  }

  lemma AddCallsAppend(email: string, skus: seq<string>, sku: string)
    ensures AddCalls(email, skus + [sku]) == AddCalls(email, skus) + [AddToCart(email, sku)]
  {
  }

  lemma AddCallsPrefix(email: string, skus: seq<string>, k: nat)
    requires k < |skus|
    ensures AddCalls(email, skus[..k + 1]) == AddCalls(email, skus[..k]) + [AddToCart(email, skus[k])]
  {
    assert skus[..k + 1] == skus[..k] + [skus[k]];
    AddCallsAppend(email, skus[..k], skus[k]);
  }

  /** Adds a loyalty line for `sku` unless the quote already has a line with that SKU. */
  method AddOnceTo(quote: Quote, sku: string, p: Product)
    modifies quote`items
    ensures quote.items == AddOnce(old(quote.items), sku, p)
  {
    if FirstWithSku(quote.items, sku).None? {
      quote.AddLine(NewLoyaltyLine(p));
    }
  }

  /** One round of the loop for an answered call: `BatchStep` on the quote and the counters. */
  method AddStep(quote: Quote, sku: string, reply: Reply, catalog: map<string, Product>,
                 successCount: nat, failed: seq<string>, k: nat)
    returns (successCount': nat, failed': seq<string>)
    requires reply.Status?
    modifies quote`items
    ensures Batch(quote.items, successCount', failed', k + 1, false)
         == BatchStep(Batch(old(quote.items), successCount, failed, k, false), sku, reply, catalog)
  {
    successCount', failed' := successCount, failed;
    if reply.code != 200 || sku !in catalog || !IsValidProduct(catalog[sku]) {
      failed' := failed + [sku];
    } else {
      AddOnceTo(quote, sku, catalog[sku]);
      successCount' := successCount + 1;
    }
  }

  /**
   * The loop of `addMultipleProducts` on a quote: one add-to-cart call per SKU,
   * stopping at the first call that throws. The quote's lines end as `RunBatch` says.
   */
  method AddEach(quote: Quote, email: string, skus: seq<string>, replies: seq<Reply>, catalog: map<string, Product>)
    returns (b: Batch, calls: seq<LedgerCall>)
    requires |replies| == |skus|
    modifies quote`items
    ensures b == RunBatch(old(quote.items), skus, replies, catalog) && quote.items == b.items
    ensures calls == AddCalls(email, skus[..b.attempted])
  {
    ghost var start := quote.items;
    calls := [];
    var successCount: nat := 0;
    var failed: seq<string> := [];
    var k := 0;
    while k < |skus|
      invariant 0 <= k <= |skus|
      invariant RunBatch(start, skus[..k], replies[..k], catalog) == Batch(quote.items, successCount, failed, k, false)
      invariant calls == AddCalls(email, skus[..k])
    {
      var sku := skus[k];
      RunBatchExtend(start, skus, replies, catalog, k);
      AddCallsPrefix(email, skus, k);
      calls := calls + [AddToCart(email, sku)];
      var reply := replies[k];
      if !reply.Status? {
        RunBatchAfterThrow(start, skus, replies, catalog, k + 1);
        return Batch(quote.items, successCount, failed, k + 1, true), calls;
      }
      successCount, failed := AddStep(quote, sku, reply, catalog, successCount, failed, k);
      k := k + 1;
    }
    assert skus[..k] == skus && replies[..k] == replies;
    b := Batch(quote.items, successCount, failed, k, false);
  }

  /**
   * `addMultipleProducts`. `replies[k]` is the ledger's answer for `skus[k]`.
   * The loop is `RunBatch`; the quote is saved unless a ledger call threw.
   */
  method AddMultipleProducts(customerId: int, skus: seq<string>, customers: Customers, replies: seq<Reply>,
                             catalog: map<string, Product>, active: Quote?, newQuoteId: nat, now: int)
    returns (a: Answer, calls: seq<LedgerCall>, quote: Quote?)
    requires |replies| == |skus|
    modifies active
    ensures active != null ==> active.couponCode == old(active.couponCode)
    ensures customerId == 0 || skus == [] ==> a == Failed(SkusRequired, BadRequest) && calls == [] && quote == null
    ensures customerId != 0 && skus != [] && customerId !in customers ==>
      a == Failed(AddManyError, BadRequest) && calls == [] && quote == null
    ensures quote == null && active != null ==> active.items == old(active.items) && active.saves == old(active.saves)
    ensures customerId != 0 && skus != [] && customerId in customers ==>
      var b := RunBatch(if active != null then old(active.items) else [], skus, replies, catalog);
      quote != null && (active != null ==> quote == active) && (active == null ==> fresh(quote))
      && a == BatchAnswer(b)
      && calls == AddCalls(customers[customerId], skus[..b.attempted])
      && quote.items == b.items
      && quote.saves == (if active != null then old(active.saves) else 0) + (if b.threw then 0 else 1)
  {
    calls, quote := [], null;
    if customerId == 0 || skus == [] {
      return Failed(SkusRequired, BadRequest), calls, quote;
    }
    if customerId !in customers {
      return Failed(AddManyError, BadRequest), calls, quote;
    }
    var email := customers[customerId];
    quote := GetOrCreateQuote(customerId, email, active, newQuoteId, now);
    var b;
    b, calls := AddEach(quote, email, skus, replies, catalog);
    if b.threw {
      return Failed(AddManyError, BadRequest), calls, quote;
    }
    quote.Save();
    a := BatchAnswer(b);
  }

  // ---------------------------------------------------------------------------
  // ensureCartRuleExists

  /** The fields of a sales rule that `ensureCartRuleExists` sets. */
  datatype SalesRule = SalesRule(
    name: string,
    description: string,
    fromDate: string,
    isActive: int,
    simpleAction: string,
    discountAmount: real,
    stopRulesProcessing: int,
    isAdvanced: int,
    usesPerCustomer: int,
    customerGroupIds: seq<int>,
    couponType: int,
    couponCode: string,
    usesPerCoupon: int,
    websiteIds: seq<int>)

  /** A coupon with the code exists; every coupon belongs to a rule. */
  predicate HasCoupon(rules: seq<SalesRule>, code: string) {
    exists k :: 0 <= k < |rules| && rules[k].couponCode == code
  }

  /** The rule created for a new coupon code. */
  function AutoRule(code: string, discountRate: real, forceCartFixed: bool, today: string, websiteId: int): SalesRule {
    SalesRule("LoyaltyEngage Auto Rule " + code, "Auto-generated from LoyaltyEngage", today, 1,
              if forceCartFixed then "cart_fixed" else "by_percent", discountRate, 0, 1, 1, [1, 2, 3], 2,
              code, 1, [websiteId])
  }

  /** The rules after `ensureCartRuleExists` for `code`. */
  function RulesAfterEnsure(rules: seq<SalesRule>, code: string, discountRate: real, forceCartFixed: bool,
                            today: string, websiteId: int): seq<SalesRule>
  {
    if HasCoupon(rules, code) then rules else rules + [AutoRule(code, discountRate, forceCartFixed, today, websiteId)]
  }

  /**
   * Afterwards the coupon exists; at most one rule was added; and a second
   * call for the same code, whatever its amount, action or date, adds nothing.
   */
  lemma EnsureIdempotent(rules: seq<SalesRule>, code: string, rate: real, force: bool, today: string, websiteId: int,
                         rate2: real, force2: bool, today2: string, websiteId2: int)
    ensures var once := RulesAfterEnsure(rules, code, rate, force, today, websiteId);
      HasCoupon(once, code)
      && (HasCoupon(rules, code) <==> once == rules)
      && |once| <= |rules| + 1
      && RulesAfterEnsure(once, code, rate2, force2, today2, websiteId2) == once
  {
    var once := RulesAfterEnsure(rules, code, rate, force, today, websiteId);
    if !HasCoupon(rules, code) {
      assert once[|rules|].couponCode == code;
    }
  }

  /** The upper-case hexadecimal digit of a value below 16. */
  function HexDigit(x: nat): char
    requires x < 16
  {
    if x < 10 then ('0' as int + x) as char else ('A' as int + (x - 10)) as char
  }

  function HexDigitValue(c: char): Option<nat> {
    if '0' <= c <= '9' then Some(c as int - '0' as int)
    else if 'A' <= c <= 'F' then Some(10 + (c as int - 'A' as int))
    else None
  }

  /** `strtoupper(bin2hex($bytes))`. */
  function HexUpper(bytes: seq<byte>): (r: string)
    ensures |r| == 2 * |bytes|
  {
    if bytes == [] then "" else [HexDigit(bytes[0] as int / 16), HexDigit(bytes[0] as int % 16)] + HexUpper(bytes[1..])
  }

  /** Reads two hexadecimal digits per byte. */
  function HexDecode(s: string): Option<seq<byte>>
    decreases |s|
  {
    if |s| == 0 then Some([])
    else if |s| == 1 then None
    else match (HexDigitValue(s[0]), HexDigitValue(s[1]), HexDecode(s[2..]))
      case (Some(hi), Some(lo), Some(rest)) =>
        if hi * 16 + lo < 256 then Some([(hi * 16 + lo) as byte] + rest) else None
      case _ => None
  }

  /** The hexadecimal text of random bytes reads back as those bytes. */
  lemma {:induction false} HexRoundTrip(bytes: seq<byte>)
    ensures HexDecode(HexUpper(bytes)) == Some(bytes)
  {
    if bytes != [] {
      var b := bytes[0] as int;
      var h := HexUpper(bytes);
      assert h[2..] == HexUpper(bytes[1..]);
      assert HexDigitValue(h[0]) == Some(b / 16);
      assert HexDigitValue(h[1]) == Some(b % 16);
      HexRoundTrip(bytes[1..]);
      assert [bytes[0]] + bytes[1..] == bytes;
    }
  }

  /** The code generated when none was given: 'LOYALTY-' and eight upper-case hex digits. */
  function GeneratedCode(random: seq<byte>): string {
    "LOYALTY-" + HexUpper(random)
  }

  /** The code `ensureCartRuleExists` works with: the given one unless it is empty (null, "" or "0"). */
  function CouponCodeFor(code: Option<string>, random: seq<byte>): (r: string)
    ensures TruthyOpt(code) ==> r == code.value
    ensures !TruthyOpt(code) ==> r == GeneratedCode(random)
  {
    if TruthyOpt(code) then code.value else GeneratedCode(random)
  }

  /** A generated code is 16 characters long, starts with 'LOYALTY-', and its tail gives back the random bytes. */
  lemma GeneratedCodeShape(random: seq<byte>)
    requires |random| == 4
    ensures var c := GeneratedCode(random);
      |c| == 16 && c[..8] == "LOYALTY-" && HexDecode(c[8..]) == Some(random) && TruthyString(c)
  {
    HexRoundTrip(random);
    var c := GeneratedCode(random);
    assert c[8..] == HexUpper(random);
  }

  /** The sales rules of the store. */
  class RuleStore {
    var rules: seq<SalesRule>

    constructor (rules: seq<SalesRule>)
      ensures this.rules == rules
    {
      this.rules := rules;
    }

    /** `$rule->save()` of a new rule (which also creates its coupon). */
    method Add(r: SalesRule)
      modifies this
      ensures rules == old(rules) + [r]
    {
      rules := rules + [r];
    }
  }

  /**
   * `ensureCartRuleExists`. `random` is what `random_bytes(4)` returns, `today`
   * is `date('Y-m-d')` and `websiteId` the current store's website.
   */
  method EnsureCartRuleExists(store: RuleStore, code: Option<string>, discountRate: real, forceCartFixed: bool,
                              random: seq<byte>, today: string, websiteId: int)
    returns (finalCode: string)
    requires !TruthyOpt(code) ==> |random| == 4
    modifies store
    ensures finalCode == CouponCodeFor(code, random)
    ensures store.rules == RulesAfterEnsure(old(store.rules), finalCode, discountRate, forceCartFixed, today, websiteId)
  {
    if TruthyOpt(code) {
      finalCode := code.value;
    } else {
      finalCode := "LOYALTY-" + HexUpper(random);
    }
    if HasCoupon(store.rules, finalCode) {
      return;
    }
    store.Add(AutoRule(finalCode, discountRate, forceCartFixed, today, websiteId));
  }

  // ---------------------------------------------------------------------------
  // claimDiscountAfterAddToLoyaltyCart

  /**
   * `(float)substr((string)$discount, -2)`: the value of the last two characters
   * PHP prints for the whole float d, digits below 10^14 and the exponent's last
   * two digits from there on.
   */
  function LastTwoDigits(d: int): nat
    requires d > 1000
  {
    var s := WholeFloatToString(d);
    WholeFloatEnding(d);
    DecimalLastTwo(if d < Ten14 then d else Significand(d).1);
    DigitsValue(s[|s| - 2..])
  }

  /**
   * The last two printed characters of a discount above 1000 are its remainder
   * modulo 100 below 10^14, and the remainder of its printed decimal exponent
   * modulo 100 from there on.
   */
  lemma {:induction false} LastTwoDigitsValue(d: int)
    requires d > 1000
    ensures d < Ten14 ==> LastTwoDigits(d) == d % 100
    ensures d >= Ten14 ==> LastTwoDigits(d) == Significand(d).1 % 100
  {
    WholeFloatEnding(d);
    if d < Ten14 {
      DecimalLastTwo(d);
    } else {
      DecimalLastTwo(Significand(d).1);
    }
  }

  /** The amount sent to the ledger: above 1000 the last two digits as a fraction, otherwise the discount itself. */
  function SentAmount(d: int): real {
    if d > 1000 then (LastTwoDigits(d) as real) / 100.0 else d as real
  }

  /** The amount the coupon rule gets: above 1000 the last two digits, otherwise the discount itself. */
  function RuleAmount(d: int): real {
    if d > 1000 then LastTwoDigits(d) as real else d as real
  }

  /**
   * Above 1000 the rule gets the last two printed digits and the ledger a hundredth
   * of that: d mod 100 below 10^14, the exponent mod 100 from there on. 1015 becomes
   * 15 and 0.15.
   */
  lemma {:induction false} DiscountAmounts(d: int)
    ensures 1000 < d < Ten14 ==> RuleAmount(d) == (d % 100) as real && SentAmount(d) == RuleAmount(d) / 100.0
    ensures d >= Ten14 ==> RuleAmount(d) == (Significand(d).1 % 100) as real && SentAmount(d) == RuleAmount(d) / 100.0
    ensures d <= 1000 ==> RuleAmount(d) == SentAmount(d) == d as real
    ensures RuleAmount(1015) == 15.0 && SentAmount(1015) == 0.15
  {
    if d > 1000 {
      LastTwoDigitsValue(d);
    }
    DiscountPlain();
  }

  /** 1015 is printed "1015", so the rule gets 15 and the ledger 0.15. */
  lemma {:induction false} DiscountPlain()
    ensures RuleAmount(1015) == 15.0 && SentAmount(1015) == 0.15
  {
    LastTwoDigitsValue(1015);
  }

  /**
   * 10^k from 10^14 on is printed "1.0E+k", so the rule gets k mod 100 and the
   * ledger a hundredth of that: 10^14 becomes 14 and 0.14.
   */
  lemma {:induction false} DiscountAtPower(k: nat)
    requires k >= 14
    ensures RuleAmount(Pow10(k)) == (k % 100) as real
    ensures SentAmount(Pow10(k)) == ((k % 100) as real) / 100.0
  {
    PowerSignificand(k);
    LastTwoDigitsValue(Pow10(k));
  }

  /**
   * `$discountResult['discountCode'] ?? null` over what `claimDiscount`
   * returns; None when that value is not an array or null, which breaks the
   * method's `?array` return type with a TypeError.
   */
  function DiscountCodeOf(answer: Option<Json>): Option<Json> {
    match answer
    case None => Some(JNull)
    case Some(JNull) => Some(JNull)
    case Some(JObj(fields)) => Some(Lookup(fields, "discountCode"))
    case Some(JArr(_)) => Some(JNull)
    case Some(_) => None
  }

  /**
   * How the claim ends before any state changes: with an answer, or, as None
   * inside `Stop`, with an error the method does not catch (a TypeError); or
   * `Apply(code)` when the code is to be applied.
   */
  datatype ClaimPlan = Stop(answer: Option<Answer>) | Apply(code: string)

  /**
   * The decisions of `claimDiscountAfterAddToLoyaltyCart`. `addReply` and
   * `claimReply` are the ledger's answers to the two calls, `claimBody` the
   * decoded body of the claim (None when it is not JSON).
   */
  function ClaimPlanFor(customerId: int, customers: Customers, addReply: Reply, claimReply: Reply,
                        claimBody: Option<Json>): ClaimPlan
  {
    if customerId !in customers then Stop(Some(Failed(ClaimError, BadRequest)))
    else if addReply.Errored? then Stop(None)
    else if addReply.Threw? then Stop(Some(Failed(ClaimError, BadRequest)))
    else if addReply.code != 200 then Stop(Some(Failed(ClaimAddFailed, BadRequest)))
    else if claimReply.Errored? then Stop(None)
    else if claimReply.Threw? then Stop(Some(Failed(ClaimError, BadRequest)))
    else match DiscountCodeOf(ClaimAnswer(claimReply.code, claimBody))
      case None => Stop(None)
      case Some(v) =>
        if !JsonTruthy(v) then Stop(Some(Failed(NoDiscountCode, BadRequest)))
        else if !v.JStr? then Stop(None)
        else if Strlen(v.s) > 255 then Stop(Some(Failed(CodeTooLong, BadRequest)))
        else Apply(v.s)
  }

  /** The ledger calls the claim makes: none for an unknown customer, the claim only after a 200 for the add. */
  function ClaimCalls(customerId: int, customers: Customers, addReply: Reply, sku: string, discount: int): seq<LedgerCall> {
    if customerId !in customers then []
    else if addReply != Status(200) then [AddToCart(customers[customerId], sku)]
    else [AddToCart(customers[customerId], sku), ClaimDiscount(customers[customerId], SentAmount(discount))]
  }

  /**
   * A code is applied exactly when both ledger calls answered 200 and the claim's
   * body carries a non-empty string code of at most 255 bytes.
   */
  lemma ClaimPlanApplies(customerId: int, customers: Customers, addReply: Reply, claimReply: Reply,
                         claimBody: Option<Json>)
    ensures var p := ClaimPlanFor(customerId, customers, addReply, claimReply, claimBody);
      (p.Apply? <==>
        customerId in customers && addReply == Status(200) && claimReply == Status(200)
        && claimBody.Some? && claimBody.value.JObj?
        && Lookup(claimBody.value.fields, "discountCode").JStr?
        && TruthyString(Lookup(claimBody.value.fields, "discountCode").s)
        && Strlen(Lookup(claimBody.value.fields, "discountCode").s) <= 255)
      && (p.Apply? ==> p.code == Lookup(claimBody.value.fields, "discountCode").s)
      && (p.Stop? && p.answer.Some? ==> !p.answer.value.success)
  {
  }

  /**
   * Without a bearer token the first ledger call of the claim throws the TypeError,
   * which the method's `catch (\Exception)` lets through: for a known customer the
   * service gives no answer at all.
   */
  lemma ClaimWithoutToken(c: Config, customerId: int, customers: Customers, sku: string, discount: int,
                          addTransport: Reply, claimTransport: Reply, claimBody: Option<Json>)
    requires c.bearerToken.None?
    ensures customerId in customers ==>
      var email := customers[customerId];
      ClaimPlanFor(customerId, customers, ClientReply(c, AddToCart(email, sku), addTransport),
                   ClientReply(c, ClaimDiscount(email, SentAmount(discount)), claimTransport), claimBody)
      == Stop(None)
  {
    if customerId in customers {
      ClientReplyCases(c, AddToCart(customers[customerId], sku), addTransport);
    }
  }

  /**
   * `claimDiscountAfterAddToLoyaltyCart` for an integer `discount`. On `Apply`
   * the coupon rule is ensured (fixed amount), the code is set on the customer's
   * quote and the quote is saved; otherwise nothing changes. `a` is None when an
   * error escapes the method.
   */
  method ClaimDiscountAfterAddToLoyaltyCart(customerId: int, discount: int, sku: string, customers: Customers,
                                            addReply: Reply, claimReply: Reply, claimBody: Option<Json>,
                                            store: RuleStore, today: string, websiteId: int,
                                            active: Quote?, newQuoteId: nat, now: int)
    returns (a: Option<Answer>, calls: seq<LedgerCall>, quote: Quote?)
    modifies store, active
    ensures calls == ClaimCalls(customerId, customers, addReply, sku, discount)
    ensures var p := ClaimPlanFor(customerId, customers, addReply, claimReply, claimBody);
      (p.Stop? ==> a == p.answer && quote == null && store.rules == old(store.rules))
      && (p.Apply? ==>
            a == Some(Succeeded("Product added and discount code '" + p.code + "' applied."))
            && store.rules == RulesAfterEnsure(old(store.rules), p.code, RuleAmount(discount), true, today, websiteId)
            && quote != null && (active != null ==> quote == active) && (active == null ==> fresh(quote))
            && quote.couponCode == Some(p.code)
            && quote.items == (if active != null then old(active.items) else [])
            && quote.saves == (if active != null then old(active.saves) else 0) + 1)
    ensures quote == null && active != null ==>
      (active.items == old(active.items) && active.saves == old(active.saves)
       && active.couponCode == old(active.couponCode))
  {
    calls, quote := [], null;
    if customerId !in customers {
      return Some(Failed(ClaimError, BadRequest)), calls, quote;
    }
    var email := customers[customerId];
    calls := [AddToCart(email, sku)];
    if !addReply.Status? {
      // An `\Error` escapes the method's `catch (\Exception)`; an exception is answered.
      return (if addReply.Errored? then None else Some(Failed(ClaimError, BadRequest))), calls, quote;
    }
    if addReply.code != 200 {
      return Some(Failed(ClaimAddFailed, BadRequest)), calls, quote;
    }
    var sent := if discount > 1000 then (LastTwoDigits(discount) as real) / 100.0 else discount as real;
    calls := calls + [ClaimDiscount(email, sent)];
    if !claimReply.Status? {
      return (if claimReply.Errored? then None else Some(Failed(ClaimError, BadRequest))), calls, quote;
    }
    var field := DiscountCodeOf(ClaimAnswer(claimReply.code, claimBody));
    if field.None? {
      return None, calls, quote;
    }
    var v := field.value;
    if !JsonTruthy(v) {
      return Some(Failed(NoDiscountCode, BadRequest)), calls, quote;
    }
    if !v.JStr? {
      return None, calls, quote;
    }
    var code := v.s;
    if Strlen(code) > 255 {
      return Some(Failed(CodeTooLong, BadRequest)), calls, quote;
    }
    a, quote := ApplyCode(customerId, email, code, discount, store, today, websiteId, active, newQuoteId, now);
  }

  /**
   * The end of the claim for an accepted, non-empty `code`: the fixed-amount coupon
   * rule is ensured, the code is set on the customer's quote and the quote is saved.
   */
  method ApplyCode(customerId: int, email: string, code: string, discount: int, store: RuleStore, today: string,
                   websiteId: int, active: Quote?, newQuoteId: nat, now: int)
    returns (a: Option<Answer>, quote: Quote)
    requires TruthyString(code)
    modifies store, active
    ensures a == Some(Succeeded("Product added and discount code '" + code + "' applied."))
    ensures store.rules == RulesAfterEnsure(old(store.rules), code, RuleAmount(discount), true, today, websiteId)
    ensures (active != null ==> quote == active) && (active == null ==> fresh(quote))
    ensures quote.couponCode == Some(code)
    ensures quote.items == (if active != null then old(active.items) else [])
    ensures quote.saves == (if active != null then old(active.saves) else 0) + 1
  {
    var amount := if discount > 1000 then LastTwoDigits(discount) as real else discount as real;
    // The code is non-empty, so no random bytes are drawn.
    var finalCode := EnsureCartRuleExists(store, Some(code), amount, true, [], today, websiteId);
    quote := GetOrCreateQuote(customerId, email, active, newQuoteId, now);
    quote.SetCouponCode(finalCode);
    quote.Save();
    a := Some(Succeeded("Product added and discount code '" + finalCode + "' applied."));
  }
}
