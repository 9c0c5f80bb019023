# LoyaltyShop, modelled in Dafny

LoyaltyShop is a Magento 2 extension that connects a web shop to the
LoyaltyEngage loyalty platform. Customers spend loyalty points on products.
Those products sit in the Magento cart as locked, free "loyalty lines". The
platform's ledger is told about every addition, removal and purchase. This
project models the extension's decision logic and proves properties of it:

- **How a cart line is classified.** `Classifiers` holds the loose and the
  strict `isLoyaltyProduct` copies. `CartItemHelper` holds the quantity lock
  that the cart page shows.
- **Quantity enforcement.** `CartUpdatePlugin` rewrites the request array.
  `CartUpdateObserver` resets quote items. `QuoteItemQtyValidatorPlugin`
  reverts a quantity to the original.
- **Cart web services.** `LoyaltyCart` adds one product, adds several, claims a
  discount and ensures a coupon rule. `LoyaltyCartItemRemove`,
  `LoyaltyCartItemsRemoveAll` and `LoyalatiyCartItemRemoveAll` remove. All of
  them answer through `LoyaltyCartResponse`.
- **The ledger client.** `LoyaltyengageCart` builds requests: URLs, bodies and
  the Basic authorisation of section 2 of RFC 7617, over `Base64` (section 4 of
  RFC 4648). It also reads the configuration defaults.
- **Cron jobs.** `CartExpiry` empties abandoned carts. `OrderPlace` reports
  orders to the ledger with a bounded retry counter.
- **Free shipping.** `LoyaltyTierChecker` is a two-level tier cache with a
  qualification check. `ShippingMethodPlugin` has its own uncached check and
  zeroes the shipping rates.
- **Events that become queue messages.** The purchase, free-product purchase,
  return, free-product removal and review observers, plus the `SyncReview`
  console command. Publishing appends to a `Queue.Outbox`.
- **Small pieces.** `PreserveValue` is the masked-secret backend model.
  `HexColorValidation` is the admin colour rule (3- and 6-digit forms of
  section 5.2 of CSS Color Module Level 4).

**How state is modelled**

- A quote (`QuoteModel.Quote`), an order (`OrderModel.Order`), a shipping rate,
  the rule store, the tier cache and the response object are classes whose
  methods update their fields. Their `ensures` give the new state as a function
  of the old one.
- Cart lines, order items, reviews and payloads are values.
- Each loop of the original that changes state or builds a result is a method
  with invariants. It is proved equal to a recursive specification function,
  and lemmas state what that function means.
- The searches that stop at the first hit are recursive functions, and lemmas
  state what they find. These are the `additional_options` scan
  (`Classifiers.ScanEntries`, `CartItemHelper.IsQtyLocked`) and the SKU
  lookups of `addProduct`, `addMultipleProducts` and `removeProduct`
  (`QuoteModel.FirstWithSku`).
- The ledger and the other HTTP services are never called. An operation
  receives the service's reply (`Reply`: a status, an exception or an error) as a
  parameter and returns the `LedgerCall`s it made.
- The clock, the random bytes, the customer directory, the product catalog and
  the configuration getters are parameters too.
- PHP's values are modelled in `Php`: truthiness, loose `==` against a string,
  integer-numeric strings, `(int)` casts of numeric prefixes (fraction and
  exponent included, capped at the 64-bit range), `trim`, and the decimal
  printing of integers and of whole floats (precision 14, exponent form from
  10^14 on). `Json` models payloads and decoded bodies (a duplicate key reads
  as its last value, as `json_decode` keeps it); `Bytes` models UTF-8 and
  `strlen`.

**Behaviour of the code that is easy to misread; the model follows the code:**

- The loose classifier tests the option with `== '1'` and has the Enterprise
  product-flag fallback. The strict one tests `=== '1'` and has neither.
- The cart-expiry job removes every item of an expired cart, regular ones
  included. It does so only when the ledger answers 200. It does not skip carts
  without loyalty lines.
- `LoyaltyTierChecker::qualifiesForFreeShipping` reads the list of qualifying
  tiers only after the tier lookup, so an empty list still costs a lookup.
  `ShippingMethodPlugin` does stop early on an empty level list.

## Model

| member | source | states |
|---|---|---|
| Classifiers.ScanEntriesFinds | Observer/CartPageViewObserver.php:306-319 | the `additional_options` scan hits iff some entry has label exactly 'loyalty_locked_qty' and value exactly '1' |
| Classifiers.LooseSignals | Observer/CartPageViewObserver.php:291-330 | the loose classifier holds iff the option is loosely == '1', or the data is '1' or 1, or a marking `additional_options` entry exists, or (Enterprise and a truthy product flag) |
| Classifiers.StrictSignals | Plugin/CartUpdatePlugin.php:148-184 | the strict classifier holds iff the option is exactly the string '1', or the data is '1' or 1, or a marking `additional_options` entry exists |
| Classifiers.StrictImpliesLoose | Observer/CartUpdateObserver.php:117-153 | every strictly confirmed line is a loyalty line for the loose classifier, on either edition |
| Classifiers.OptionIntOneSeparates | Observer/CartPageViewObserver.php:294-297 | an option holding the integer 1 makes a line loose-positive but not strict-positive |
| Classifiers.EnterpriseFallbackOnly | Observer/CartPageViewObserver.php:321-327 | off Enterprise the product flag never changes the answer; on Enterprise it can only add lines, and only through a truthy flag |
| Classifiers.UnparsableOptionsIgnored | Plugin/QuoteItemQtyValidatorPlugin.php:84-117 | an `additional_options` value that does not unserialize to a list counts as no option, for both classifiers |
| CartItemHelper.LockedSignals | ViewModel/CartItemHelper.php:13-41 | locked iff the data is '1' or 1, or any `loyalty_locked_qty` option exists whatever its value, or a marking entry exists, or the price is 0 |
| CartItemHelper.UnmarkedLockedIffFree | ViewModel/CartItemHelper.php:40 | with no marker at all, a line is locked iff its price is 0 |
| CartItemHelper.StrictImpliesLocked | ViewModel/CartItemHelper.php:13-41 | every strictly confirmed loyalty line is quantity-locked |
| CartItemHelper.LooseNotWithinLocked | ViewModel/CartItemHelper.php:13-41 | a paid line with only the Enterprise product flag is loose-positive but not locked |
| CartItemHelper.LockedNotWithinLoose | ViewModel/CartItemHelper.php:40 | a free line without markers is locked but not loose-positive |
| CheckoutCartItemRendererPlugin.FieldNameRoundTrip | Plugin/CheckoutCartItemRendererPlugin.php:23 | the hidden input's name `cart[<id>][qty]` parses back to the item id |
| CheckoutCartItemRendererPlugin.LockedMarkup | Plugin/CheckoutCartItemRendererPlugin.php:20-24 | a free or option-carrying line is rendered as a span and a hidden input that carry the same quantity printed as a float, under the item's own field name; below 10^14 the text reads back as the quantity, from 10^14 on it is in exponent form |
| Php.WholeFloatText | Plugin/CheckoutCartItemRendererPlugin.php:22-23 | a whole float prints as the integer does while its magnitude is below 10^14 |
| CheckoutCartItemRendererPlugin.UnlockedKeepsMarkup | Plugin/CheckoutCartItemRendererPlugin.php:26 | any other line keeps the original markup |
| CheckoutCartItemRendererPlugin.RendererLockImpliesHelperLock | Plugin/CheckoutCartItemRendererPlugin.php:20 | whatever the renderer locks, the view-model helper locks too |
| CartPageViewObserver.LoyaltyCountAppend | Observer/CartPageViewObserver.php:167-173 | the loyalty count grows by one exactly for a loyalty line |
| CartPageViewObserver.ConfirmedWithinLoyalty | Observer/CartPageViewObserver.php:291-330 | no more lines are strictly confirmed than the loose classifier counts |
| CartPageViewObserver.LogCartOverview | Observer/CartPageViewObserver.php:161-173 | the total is the number of visible items, loyalty the number of loose-positive ones, and loyalty + regular = total |
| CartPageViewObserver.Execute | Observer/CartPageViewObserver.php:69-119 | an overview exists iff the module is on, the page is the cart, the quote is saved and has visible items; it then counts the visible items |
| CartProductAddObserver.AdditionSourceCases | Observer/CartProductAddObserver.php:211-227 | the source is 'loyalty-api' iff the line is loose-positive, else 'loyalty-frontend' iff `loyalty_add` is truthy, else 'regular-cart' |
| CartProductAddObserver.LoyaltyIgnoresRequest | Observer/CartProductAddObserver.php:214-216 | for a loyalty line the request parameter never matters |
| CartProductAddObserver.ExecuteGuards | Observer/CartProductAddObserver.php:60-104 | a record is logged iff the module is on and both an item and a product exist; the product type is LOYALTY exactly when the source is 'loyalty-api' |
| CartUpdatePlugin.PinCountAppend | Plugin/CartUpdatePlugin.php:104-108 | the enforcement counter grows by one exactly for a loyalty entry whose quantity is not 1 |
| CartUpdatePlugin.PinCountZero | Plugin/CartUpdatePlugin.php:131-133 | the counter is 0 iff no entry needed pinning, which is when the request is left alone |
| CartUpdatePlugin.RewriteIdempotent | Plugin/CartUpdatePlugin.php:105 | a second rewrite of the rewritten array changes nothing and enforces nothing |
| CartUpdatePlugin.RewriteEntries | Plugin/CartUpdatePlugin.php:88-129 | every loyalty entry with a quantity gets quantity 1; entries without a quantity, with an unknown id or for other items are unchanged; the counter is the number of pinned entries |
| CartUpdatePlugin.BeforeExecute | Plugin/CartUpdatePlugin.php:69-140 | module off, no cart array or no quote gives no rewrite; otherwise the parameter is rewritten iff some entry was pinned, with the pinned array |
| CartUpdateObserver.ResetCountAppend | Observer/CartUpdateObserver.php:78-80 | the counter grows by one exactly for a confirmed line whose quantity is not 1 |
| CartUpdateObserver.ResetCountZero | Observer/CartUpdateObserver.php:78-80 | the counter is 0 iff no line needed a reset |
| CartUpdateObserver.ResetPinsLoyalty | Observer/CartUpdateObserver.php:74-81 | afterwards every confirmed line has quantity 1 and every other line is unchanged |
| CartUpdateObserver.ResetIdempotent | Observer/CartUpdateObserver.php:78 | a second run changes nothing and counts 0 |
| CartUpdateObserver.Execute | Observer/CartUpdateObserver.php:52-109 | module off, no cart or no quote leaves the items; otherwise the items are reset and the count returned; the quote is not saved |
| QuoteItemQtyValidatorPlugin.RevertCases | Plugin/QuoteItemQtyValidatorPlugin.php:44-66 | the quantity changes iff the line is confirmed, the request is no cart update, and the original is truthy, positive and different; it then becomes the original |
| QuoteItemQtyValidatorPlugin.ProtectIdempotent | Plugin/QuoteItemQtyValidatorPlugin.php:52-66 | reverting twice is reverting once |
| QuoteItemQtyValidatorPlugin.BeforeValidate | Plugin/QuoteItemQtyValidatorPlugin.php:28-82 | module off or no item leaves the items; otherwise only the given item's quantity is set to the protected value; the quote is never saved and its coupon never changed |
| QuoteModel.VisibleItems | Observer/CartPageViewObserver.php:93 | the visible items are exactly the lines that are not children |
| QuoteModel.FirstWithSku | Model/LoyaltyCartItemRemove.php:71-72 | the first position holding the SKU, or None when no line holds it |
| QuoteModel.ItemById | Plugin/CartUpdatePlugin.php:97-101 | a line with the id exists iff the lookup finds one, and the one found has the id |
| QuoteModel.Quote.RemoveAllItems | Model/LoyaltyCartItemsRemoveAll.php:78-80 | removing item by item leaves the quote without items |
| LoyaltyCart.NewLineIsLoyalty | Model/LoyaltyCart.php:88-92 | the added line (data = integer 1, option 1, custom prices 0) is caught by the strict, loose and lock classifiers |
| LoyaltyCart.AddOnceProperties | Model/LoyaltyCart.php:78-93 | afterwards the SKU is in the cart, at most one loyalty line was appended and only when the SKU was absent, and repeating changes nothing |
| LoyaltyCart.AddOnceKeepsDistinct | Model/LoyaltyCart.php:78-93 | adding never creates a second line with the same SKU |
| LoyaltyCart.GetOrCreateQuote | Model/LoyaltyCart.php:113-125 | the active quote, or a fresh empty active quote of the customer |
| LoyaltyCart.AddProductAnswerCases | Model/LoyaltyCart.php:52-106 | success iff the ids are given, the customer exists, the ledger answers 200 and the product exists and is valid; every failure sets status 401 |
| LoyaltyCart.AddProduct | Model/LoyaltyCart.php:52-106 | no ledger call before the guards; on failure the active quote's items and saves are untouched; on success the product is added once and the quote saved once; the coupon code is never changed |
| LoyaltyCart.RunBatchAfterThrow | Model/LoyaltyCart.php:205-247 | once a ledger call has thrown, the rest of the SKUs change nothing |
| LoyaltyCart.BatchCounts | Model/LoyaltyCart.php:205-247 | without an exception every SKU counts once, so successes + failures = number of SKUs; the loop stops at the first exception or error |
| LoyaltyCart.BatchFailedFromInput | Model/LoyaltyCart.php:208-216 | every failed SKU is one of the requested SKUs |
| LoyaltyCart.BatchOnlyAddsLoyaltyLines | Model/LoyaltyCart.php:229-239 | the loop only appends confirmed loyalty lines of quantity 1, at most one per success, and keeps SKUs distinct |
| LoyaltyCart.BatchAnswer | Model/LoyaltyCart.php:251-260 | success iff nothing threw and at least one SKU succeeded; the message then carries the count and the failed SKUs in input order |
| LoyaltyCart.AddCalls | Model/LoyaltyCart.php:205-206 | one add-to-cart call per attempted SKU, in order |
| LoyaltyCart.AddEach | Model/LoyaltyCart.php:202-247 | the loop's counters and the quote's items are those of the batch specification, and the calls are one per attempted SKU |
| LoyaltyCart.AddMultipleProducts | Model/LoyaltyCart.php:190-268 | missing ids or an empty list fail before any call; an exception fails the whole call unsaved; otherwise the quote is saved once and the answer is the batch's; the coupon code is never changed |
| LoyaltyCart.EnsureIdempotent | Model/LoyaltyCart.php:145-171 | afterwards the coupon exists; at most one rule was added, and none iff it existed; a second call with any amount adds nothing |
| LoyaltyCart.HexRoundTrip | Model/LoyaltyCart.php:142 | the upper-case hex text of the random bytes decodes back to them |
| LoyaltyCart.CouponCodeFor | Model/LoyaltyCart.php:141-143 | a truthy code (not null, '' or '0') is kept; any other code is replaced by the generated one |
| LoyaltyCart.GeneratedCodeShape | Model/LoyaltyCart.php:142 | a generated code is 'LOYALTY-' plus 8 hex characters that give back the 4 random bytes |
| LoyaltyCart.EnsureCartRuleExists | Model/LoyaltyCart.php:138-181 | the code used and the rule store afterwards: a rule is created, `cart_fixed` iff forced, only when no coupon with the code exists |
| LoyaltyCart.LastTwoDigitsValue | Model/LoyaltyCart.php:284 | the last two printed characters of a discount above 1000 read as its remainder modulo 100 below 10^14, and as the printed exponent modulo 100 from 10^14 on |
| LoyaltyCart.DiscountAmounts | Model/LoyaltyCart.php:283-300 | above 1000 the rule gets d mod 100 below 10^14 and the exponent mod 100 from 10^14 on, and the ledger a hundredth of that (1015 gives 15 and 0.15); otherwise both get d |
| LoyaltyCart.DiscountPlain | Model/LoyaltyCart.php:283-300 | 1015 gives the rule 15 and the ledger 0.15 |
| LoyaltyCart.DiscountAtPower | Model/LoyaltyCart.php:283-300 | a discount of 10^k from 10^14 on prints as '1.0E+k', so the rule gets k mod 100 and the ledger a hundredth of it (10^14 gives 14 and 0.14) |
| LoyaltyCart.ClaimPlanApplies | Model/LoyaltyCart.php:278-301 | a code is applied iff both ledger calls answered 200 and the claim body has a truthy string `discountCode` of at most 255 bytes |
| LoyaltyCart.ClaimDiscountAfterAddToLoyaltyCart | Model/LoyaltyCart.php:270-315 | the claim is sent only after a 200 for the add; on an applied code the fixed-amount rule is ensured and the code set on the quote, which is saved once; otherwise nothing changes; an error of either call gives no answer at all |
| LoyaltyCart.ApplyCode | Model/LoyaltyCart.php:298-307 | the rule store is the one after ensuring the fixed-amount rule; the customer's quote (a fresh one when none is active) carries the code and is saved once |
| LoyaltyCart.ClaimWithoutToken | Model/LoyaltyCart.php:270-315 | without a bearer token the add call raises an error, so the claim is never sent and the service gives no answer |
| LoyaltyCart.AddWithoutToken | Model/LoyaltyCart.php:52-106 | without a bearer token the add fails with status 401, since `catch (\Throwable)` takes the error |
| LoyaltyCartItemRemove.AfterRemoveCases | Model/LoyaltyCartItemRemove.php:71-85 | only the first line with the SKU changes: its quantity drops by the amount when it is larger, else it is removed; no line with the SKU means no change |
| LoyaltyCartItemRemove.RemoveAllOfSku | Model/LoyaltyCartItemRemove.php:77-79 | with distinct SKUs, removing at least the line's quantity leaves no line with the SKU |
| LoyaltyCartItemRemove.RemoveUndoesAdd | Model/LoyaltyCartItemRemove.php:71-85 | removing one unit of a freshly added loyalty line gives back the cart before the add |
| LoyaltyCartItemRemove.NonPositiveQuantityGrows | Model/LoyaltyCartItemRemove.php:74-76 | a zero or negative quantity never removes the line and grows it by its absolute value |
| LoyaltyCartItemRemove.RemoveAnswerCases | Model/LoyaltyCartItemRemove.php:56-90 | success iff the customer and the active quote exist and the ledger answers 200; an exception gives its own message; failures carry status 400; an error escapes and gives no answer |
| LoyaltyCartItemRemove.RemoveProduct | Model/LoyaltyCartItemRemove.php:52-91 | the ledger's remove call is made once the quote is found; on success the cart is the remove result and saved only when the SKU was there; on failure it is untouched; the coupon code is never changed |
| LoyaltyCartItemsRemoveAll.RemoveAllAnswerCases | Model/LoyaltyCartItemsRemoveAll.php:53-89 | module off gives success and nothing else; otherwise success iff the customer and the quote exist and the ledger answers 200; an error escapes and gives no answer |
| LoyaltyCartItemsRemoveAll.RemoveAllProduct | Model/LoyaltyCartItemsRemoveAll.php:53-89 | no ledger call with the module off or without a quote; on success every item is removed and the quote saved; otherwise it is untouched; the coupon code is never changed |
| LoyalatiyCartItemRemoveAll.RemoveAllAnswer | Model/LoyalatiyCartItemRemoveAll.php:50-81 | without a module switch: success iff the customer and the quote exist and the ledger answers 200; an error escapes and gives no answer |
| LoyalatiyCartItemRemoveAll.RemoveAllProduct | Model/LoyalatiyCartItemRemoveAll.php:50-81 | on success the quote ends with no items and is saved once; otherwise it is untouched; the coupon code is never changed |
| LoyaltyCartResponse.Succeeded | Model/LoyaltyCart.php:127-130 | a success answer with the message and the HTTP status left alone |
| LoyaltyCartResponse.Failed | Model/LoyaltyCart.php:132-136 | a failure answer with the message and the class's error status |
| LoyaltyCartResponse.Response.SetSuccess | Model/LoyaltyCartResponse.php:27-31 | sets only the flag and returns the same object |
| LoyaltyCartResponse.Response.SetMessage | Model/LoyaltyCartResponse.php:39-43 | sets only the message and returns the same object |
| LoyaltyCartResponse.Response.ToAnswer | Model/LoyaltyCartResponse.php:50-63 | an answer exists iff both fields were set, and carries their last values |
| LoyaltyCartResponse.Respond | Model/LoyaltyCart.php:129 | after the setter chain the getters give back the flag and the message |
| Json.EntriesOf | Observer/PurchaseObserver.php:50-56 | one entry per element, at its position, and nothing else: the shape every products loop builds |
| Json.EntriesOfSnoc | Cron/OrderPlace.php:53-57 | one more element appends exactly its own entry |
| Json.LookupAt | Model/LoyaltyCart.php:289 | a key reads as the value at its last occurrence, as `json_decode` keeps the last duplicate |
| Json.LookupAbsent | Model/LoyaltyCart.php:289 | a missing key reads as null, as `?? null` gives |
| Base64.RoundTrip | Model/LoyaltyengageCart.php:103-110 | decoding the encoding gives back the bytes |
| Base64.EncodeInjective | Model/LoyaltyengageCart.php:103-110 | different byte strings never share a Base64 text, so an authorisation header determines the bytes of `tenant:token` (though not where the two split when either holds a ':') |
| LoyaltyengageCart.BasicAuth | Model/LoyaltyengageCart.php:103-110 | exists iff the bearer token is set, and decodes to the UTF-8 of tenant ':' token |
| LoyaltyengageCart.RequestFor | Model/LoyaltyengageCart.php:119-283 | each call's URL, body (quantity 1 for add; null for remove-all; exactly orderId and products for purchase) and 'Basic' header; DELETE iff a removal |
| LoyaltyengageCart.ShopUrlDetermines | Model/LoyaltyengageCart.php:121-189 | for e-mails without '/', a cart URL determines the customer and the endpoint |
| LoyaltyengageCart.EndpointsDistinct | Model/LoyaltyengageCart.php:121-244 | each endpoint suffix belongs to one kind of call |
| LoyaltyengageCart.ClaimAnswer | Model/LoyaltyengageCart.php:279-283 | the claim's answer is None unless the status is 200, and then the decoded body |
| LoyaltyengageCart.ExpiryTime | Model/LoyaltyengageCart.php:200-214 | '24' when unset or empty, else the configured text |
| LoyaltyengageCart.OrderRetrieveLimitReads | Model/LoyaltyengageCart.php:221-236 | an unset limit is 0, a printed number up to PHP_INT_MAX reads back as itself, and a larger one is capped at PHP_INT_MAX |
| LoyaltyengageCart.ClientReplyCases | Model/LoyaltyengageCart.php:74-81 | without a bearer token every call ends in the return-type error, and with one it gets the transport's reply |
| Php.IntCastOfPrinted | Model/LoyaltyengageCart.php:221-236 | the `(int)` cast reads a printed number back up to PHP_INT_MAX, caps a larger one there, and gives 0 for unset, empty and non-numeric text |
| Php.IntCastOfNonNumbers | Model/LoyaltyengageCart.php:221-236 | null, '' and text without a numeric prefix read as 0 |
| Php.IntCastSkipsSpace | Model/LoyaltyengageCart.php:221-236 | leading whitespace does not change the cast |
| Php.IntCastTrailing | Model/LoyaltyengageCart.php:221-236 | an integer followed by non-numeric text reads as the integer |
| Php.IntCastTruncates | Model/LoyaltyengageCart.php:221-236 | a decimal w.f reads as w and -w.f as -w (truncation toward zero) |
| Php.IntCastExponent | Model/LoyaltyengageCart.php:221-236 | m 'e' x reads as m * 10^x within the 64-bit range |
| Php.CapQuotientMeaning | Model/LoyaltyengageCart.php:221-236 | truncation toward zero inside the 64-bit range, the nearest bound outside it up to the largest double, and 0 beyond |
| Php.SignificandRounds | Model/LoyaltyCart.php:284 | the 14-digit significand of a whole float is within half a unit of its last kept digit |
| Php.WholeFloatPower | Model/LoyaltyCart.php:284 | 10^k from 10^14 on prints as '1.0E+k' |
| Php.WholeFloatCarry | Model/LoyaltyCart.php:284 | 10^k - 1 from 10^15 on rounds up and prints as 10^k |
| Php.WholeFloatTie | Model/LoyaltyCart.php:284 | a value halfway between two significands prints as the even one |
| Php.ExponentFormStrip | Model/LoyaltyCart.php:284 | trailing zeros of the significand do not show in the printed text |
| Php.WholeFloatEnding | Model/LoyaltyCart.php:284 | the printed text ends with the digits of the value below 10^14 and with those of the exponent from there on |
| Php.DecimalLastTwo | Model/LoyaltyCart.php:284 | the last two digits of a printed number of at least two digits read as its value modulo 100 |
| Php.PrintedIntIsNumeric | Cron/CartExpiry.php:48 | a printed integer is an integer-numeric string with that value |
| Php.LooseOneAccepts | Observer/CartPageViewObserver.php:295 | loose `== '1'` accepts 1, '1', '01', ' 1' and true, and refuses null and 0 |
| CartExpiry.ExpiryMinutesReads | Cron/CartExpiry.php:46-48 | unset or empty hours give 1440 minutes, h printed gives 60h minutes, and non-numeric text throws |
| CartExpiry.Cutoff | Cron/CartExpiry.php:47-51 | the cutoff is at most now iff the minute count is not negative |
| CartExpiry.ExpiryCalls | Cron/CartExpiry.php:55-72 | every call empties the ledger cart of an expired, active quote with a truthy e-mail |
| CartExpiry.ExpiryCallsComplete | Cron/CartExpiry.php:62-72 | every such quote gets its call |
| CartExpiry.Execute | Cron/CartExpiry.php:43-106 | module off or an unreadable expiry does nothing; otherwise each selected quote with a truthy e-mail is reported, and a quote is emptied and saved iff the ledger answered 200; the run ends at the first quote whose call raises an error, and every other quote is unchanged |
| CartExpiry.FirstEscape | Cron/CartExpiry.php:62-98 | the first reported quote whose call raises an error, which `catch (\Exception)` does not take; none before it |
| CartExpiry.VisitQuote | Cron/CartExpiry.php:63-93 | a reported quote is called for; it is emptied and saved once iff the answer is 200, else untouched |
| CartExpiry.ExpireAll | Cron/CartExpiry.php:62-98 | the calls up to and including the escaping quote; the quotes before it emptied and saved iff answered 200, all others unchanged |
| OrderPlace.AttemptOutcome | Cron/OrderPlace.php:63-68 | status 200 sets the flag to 1 and keeps the counter; any other status adds exactly 1 to the counter and keeps the flag |
| OrderPlace.RetriesBounded | Cron/OrderPlace.php:39-40 | over any sequence of runs an order is sent at most limit minus its counter times, and an unselected order never |
| OrderPlace.BuildProducts | Cron/OrderPlace.php:52-58 | the loop builds one `{sku, int qtyOrdered}` per order item, children included, in item order |
| OrderPlace.FirstHalt | Cron/OrderPlace.php:47-61 | the first selected order whose call cannot be made (no e-mail, or the call throws) |
| OrderPlace.PlaceCalls | Cron/OrderPlace.php:47-61 | at most one call per order passed |
| OrderPlace.PlaceCallsSent | Cron/OrderPlace.php:47-61 | every call reports a selected order that has an e-mail, with its own products |
| OrderPlace.PlaceOne | Cron/OrderPlace.php:48-69 | an unselected order is untouched; a selected one is sent, updated by the outcome and saved once, unless the run halts on it |
| OrderPlace.PlaceAt | Cron/OrderPlace.php:47-70 | one round keeps the run's invariant: the orders before it processed, the rest untouched, with the call list so far |
| OrderPlace.Execute | Cron/OrderPlace.php:35-71 | orders before the halt that are selected get the outcome's update and one save; all others are unchanged; the calls are those of the processed orders |
| OrderPlace.PlaceAll | Cron/OrderPlace.php:47-70 | the loop over the orders halts at the first order that cannot be sent (no e-mail, an exception or an error) with the same result as the specification |
| FreeProductPurchaseObserver.FreeItems | Observer/FreeProductPurchaseObserver.php:44-51 | exactly the items priced 0, in order |
| FreeProductPurchaseObserver.CollectFree | Observer/FreeProductPurchaseObserver.php:43-51 | the loop builds one `{sku, int quantity}` per free visible item, in order |
| FreeProductPurchaseObserver.FreeEntriesStep | Observer/FreeProductPurchaseObserver.php:45-50 | one more item adds its entry at the end exactly when it is free |
| FreeProductPurchaseObserver.MessageFor | Observer/FreeProductPurchaseObserver.php:28-67 | a message exists iff the status just changed to 'complete' and a visible item is free; it goes to the free-product purchase topic |
| FreeProductPurchaseObserver.MessageContents | Observer/FreeProductPurchaseObserver.php:58-64 | the payload's email, orderId and products are the order's e-mail, increment id and free entries |
| FreeProductPurchaseObserver.Execute | Observer/FreeProductPurchaseObserver.php:28-72 | the outbox gains exactly the message, or nothing |
| PurchaseObserver.CollectProducts | Observer/PurchaseObserver.php:48-56 | the loop builds one `{sku, price, int quantity}` per visible item, in order |
| PurchaseObserver.MessageFor | Observer/PurchaseObserver.php:27-67 | a message exists iff export is on, the event carries an order and its status just changed to 'complete'; it goes to `loyaltyshop.purchase_event` |
| PurchaseObserver.MessageContents | Observer/PurchaseObserver.php:58-64 | a one-element list with event 'Purchase', the e-mail, order id, order date and products |
| PurchaseObserver.Execute | Observer/PurchaseObserver.php:27-72 | the outbox gains exactly the message, or nothing |
| ReturnObserver.CollectProducts | Observer/ReturnObserver.php:39-47 | the loop builds one `{sku, price, int quantity}` per credit-memo item, in order |
| ReturnObserver.MessageFor | Observer/ReturnObserver.php:26-59 | a message exists iff the module and return export are on |
| ReturnObserver.MessageContents | Observer/ReturnObserver.php:49-56 | a one-element list with event 'Return', the order's e-mail, the return date under `orderDate` and the products |
| ReturnObserver.Execute | Observer/ReturnObserver.php:26-65 | the outbox gains exactly the message, or nothing |
| FreeProductRemoveObserver.MessageFor | Observer/FreeProductRemoveObserver.php:31-59 | a message exists iff there is an item, its price is 0 and the session has a truthy e-mail |
| FreeProductRemoveObserver.MessageContents | Observer/FreeProductRemoveObserver.php:52-56 | the payload is the e-mail, the item's SKU and its integer quantity |
| FreeProductRemoveObserver.Execute | Observer/FreeProductRemoveObserver.php:31-64 | the outbox gains exactly the message, or nothing |
| ReviewObserver.CustomerEmail | Observer/ReviewObserver.php:94-115 | the customer's e-mail when the id is set and found, else the nickname when it is a valid e-mail, else none |
| ReviewObserver.MessageFor | Observer/ReviewObserver.php:48-79 | a message exists iff the module and review export are on, the review is approved and an e-mail is found |
| ReviewObserver.MessageContents | Observer/ReviewObserver.php:71-76 | the payload is the review id, the e-mail, the product id and the time |
| ReviewObserver.Execute | Observer/ReviewObserver.php:48-86 | the outbox gains exactly the message, or nothing |
| SyncReview.ExitCode | Console/Command/SyncReview.php:58-113 | SUCCESS iff the review was queued, FAILURE otherwise |
| SyncReview.StatusText | Console/Command/SyncReview.php:146-158 | an id other than the three known statuses reads 'Unknown (<id>)' |
| SyncReview.StatusTextInjective | Console/Command/SyncReview.php:146-158 | different status ids never share a status text |
| SyncReview.CustomerEmail | Console/Command/SyncReview.php:117-144 | the linked customer's e-mail first, then the id lookup, then the review's own e-mail; none iff all three fail |
| SyncReview.RunCases | Console/Command/SyncReview.php:52-110 | each check fails in order with its own message (export off before loading); queued iff all pass, with a one-element `{Review, identifier, reviewid}` payload |
| SyncReview.Execute | Console/Command/SyncReview.php:52-115 | the outcome is the check chain's, the exit code matches it, and the outbox gains the payload only when queued |
| LoyaltyTierChecker.Fetched | Model/LoyaltyTierChecker.php:153-236 | no URL or an exception gives null; a 2xx answer gives its `currentTier`; any other status gives null |
| LoyaltyTierChecker.TierCache.Save | Model/LoyaltyTierChecker.php:141 | the entry for the e-mail is replaced, expiring after the lifetime |
| LoyaltyTierChecker.TierCache.Remove | Model/LoyaltyTierChecker.php:262 | only the e-mail's entry is removed |
| LoyaltyTierChecker.TierCache.Clean | Model/LoyaltyTierChecker.php:273 | all tier entries are removed |
| LoyaltyTierChecker.MemoryHit | Model/LoyaltyTierChecker.php:123-125 | a non-null tier in memory is returned with nothing read, fetched or stored |
| LoyaltyTierChecker.PersistentHit | Model/LoyaltyTierChecker.php:129-134 | a persistent hit makes no fetch; a stored '' is returned as null now but as '' by the next lookup |
| LoyaltyTierChecker.Miss | Model/LoyaltyTierChecker.php:137-144 | a miss fetches once (when a URL is set), stores the tier ('' for null) with the lifetime, and remembers it |
| LoyaltyTierChecker.SecondLookupIsCached | Model/LoyaltyTierChecker.php:120-145 | a second lookup within the lifetime makes no new fetch, and returns the same tier when the first tier was truthy |
| LoyaltyTierChecker.ClearedLookupFetches | Model/LoyaltyTierChecker.php:259-264 | after clearing an e-mail its next lookup fetches again |
| LoyaltyTierChecker.Checker.GetCustomerTier | Model/LoyaltyTierChecker.php:120-145 | the memory, the persistent cache, the fetches and the tier are those of the lookup specification |
| LoyaltyTierChecker.Checker.FetchTierFromApi | Model/LoyaltyTierChecker.php:153-236 | the result is the fetch outcome, and a request is recorded iff a URL is set |
| LoyaltyTierChecker.Checker.QualifiesForFreeShipping | Model/LoyaltyTierChecker.php:70-112 | module or feature off, or no e-mail, gives false with no lookup; otherwise true iff the looked-up tier is truthy and strictly in the list |
| LoyaltyTierChecker.Checker.ClearTierCache | Model/LoyaltyTierChecker.php:259-264 | only the e-mail is removed, from both levels |
| LoyaltyTierChecker.Checker.ClearAllTierCaches | Model/LoyaltyTierChecker.php:271-275 | both levels are emptied |
| ShippingMethodPlugin.RTrimSlash | Plugin/ShippingMethodPlugin.php:47 | the longest prefix not ending in '/', with only slashes cut |
| ShippingMethodPlugin.RequestFor | Plugin/ShippingMethodPlugin.php:38-57 | a request iff the levels are non-empty and the id, secret and trimmed URL are truthy; its URL and a 'Basic' header decoding to id ':' secret |
| ShippingMethodPlugin.Qualifies | Plugin/ShippingMethodPlugin.php:36-78 | true only when the request is sent, the status is exactly 200 and the tier (else the level) is present and loosely in the list |
| ShippingMethodPlugin.QualifiesWithListedLevel | Plugin/ShippingMethodPlugin.php:62-69 | a listed level qualifies as a tier, as a level or printed as a number, but not with status 201 |
| ShippingMethodPlugin.MakeFree | Plugin/ShippingMethodPlugin.php:103-108 | every rate's price and cost become 0 |
| ShippingMethodPlugin.AfterCollectRates | Plugin/ShippingMethodPlugin.php:88-112 | no request without a session e-mail; all rates are free iff the customer qualifies, otherwise unchanged |
| PreserveValue.Preserved | Model/Config/Backend/PreserveValue.php:12-14 | exactly the mask '******' is replaced by the old value; anything else is kept |
| PreserveValue.PreservedIdempotent | Model/Config/Backend/PreserveValue.php:12-14 | applying it twice is applying it once, for every submitted and stored value; five or seven asterisks are kept |
| PreserveValue.ConfigValue.BeforeSave | Model/Config/Backend/PreserveValue.php:9-17 | the value becomes the preserved one and the parent's `beforeSave` runs exactly once |
| HexColorValidation.ValidHexColorMeaning | view/adminhtml/web/js/validation.js:9-15 | accepted iff empty, or '#' followed by exactly 3 or 6 hex digits of either case |
| HexColorValidation.Examples | view/adminhtml/web/js/validation.js:14 | '#28a745', '#fff', '#FFF' and '' pass; 4 and 8 digits, a missing '#' and non-hex digits fail |

## Left out

- HTTP transport: the Curl client, its headers and timeouts, and the decoding of bodies. Each call's reply is an input. That includes the `CUSTOMREQUEST` option lingering on the shared client between calls.
- Logging: `Helper/Logger.php`, every logger call, console output and the static "logged once" flags.
- Queue publishing and consumers: a publish always succeeds. So the "failed to queue" branches of the observers and of `SyncReview` (lines 111-113) are not modelled. The consumers and consumer starters are out, and so are controllers and REST response codes.
- Configuration getters: `Helper/Data.php` has no getters for some of the settings the core reads (review export, minimum review length, module switch, free-shipping tiers and levels, tier cache lifetime). All settings are parameters.
- Edition detection: Enterprise detection is a boolean parameter. Theme detection and the storefront JavaScript are out.
- Cache keys: the tier cache is keyed by e-mail, not by `md5`; the tag `loyalty_tier` covers every entry.
- Cache lifetime: Magento's special lifetime values (null and 0) are not modelled.
- Time: the clock, `date('Y-m-d')` and ISO-8601 formatting are inputs, and dates are given strings.
- Randomness: `random_bytes(4)` is an input.
- Numbers: prices are exact reals, quantities integers, and the claimed discount an integer. Fractional quantities and PHP's float-to-string slicing of non-integral discounts are out.
- LoyaltyCart.LastTwoDigits, LoyaltyCart.DiscountAmounts: every integer discount is printed as if it were an exact double. Rounding to the nearest double is not modelled, and neither is a discount beyond the double range (PHP prints INF).
- Php.IntCast, LoyaltyengageCart.OrderRetrieveLimit: a decimal or exponent string is truncated at its exact value, not after rounding to the nearest double, so above 2^53, where not every integer is a double, the result can differ from PHP's by that rounding.
- Loose equality: only integer-numeric strings are modelled. Decimal and exponent numeric strings count as non-numeric.
- Scalar values: a `currentTier` that is not a string, and a tier or level that is a float or an array, are not modelled.
- E-mail validation: `FILTER_VALIDATE_EMAIL` is a parameter predicate.
- Magento internals:
  - Items are removed by position, with no child-item cascade.
  - `collectTotals` is not modelled.
  - A failure of `addProduct` or of a rule save is not modelled.
  - The SQL meaning of the `neq NULL` and `lt` filters is given as predicates on the loaded values.
  - The `method_exists(getEmail)` probe of `SyncReview` becomes an optional stored e-mail.
  - A credit memo always has an order.
  - A customer always has an e-mail. A null `getEmail()` passed to `addToCart(string $email)` would raise a TypeError, which is not modelled.
- Concurrency: requests running at the same time are out.
- CartExpiry.ExpiryMinutes, CartExpiry.Execute: a leading-numeric or decimal hour string (such as "1.5") is treated as non-numeric, so the run stops as for a throw. PHP would multiply it or warn instead.
- OrderPlace.Execute: the TypeError of a null e-mail, and an exception or error from the ledger call, are all modelled as stopping the run at that order, with nothing saved for it.
- Errors: an `\Error` raised before a request is sent (the return-type error of `getBearerToken` without a token) is modelled as a reply kind, `Errored`. The call is still listed among the calls an operation makes, though no request left the client.
