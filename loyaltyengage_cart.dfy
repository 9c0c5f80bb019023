/**
 * The client of the LoyaltyEngage ledger API. Each call of the extension into the
 * ledger is a `LedgerCall`; `RequestFor` gives the HTTP request it is sent as:
 * the method, the URL built from the configured API base, the Basic
 * authorisation header and the JSON body. The transport itself is outside the
 * model; callers receive its outcome as a `Reply`.
 */
module LoyaltyengageCart {
  import opened Wrappers
  import opened Php
  import opened Json
  import opened Bytes
  import Base64

  /** The store configuration the client reads; None is an unset value. */
  datatype Config = Config(
    apiUrl: Option<string>,
    tenantId: Option<string>,
    bearerToken: Option<string>,
    cartExpiryTime: Option<string>,
    orderPlaceRetrieve: Option<string>)

  /**
   * What a call into the ledger comes back with: the HTTP status; an `\Exception`
   * with its message (a transport failure); or an `\Error` with its message, which
   * a `catch (\Exception)` does not catch (the TypeError of an unset bearer token).
   */
  datatype Reply = Status(code: int) | Threw(message: string) | Errored(message: string)

  /** One call of the extension into the ledger, with its arguments. */
  datatype LedgerCall =
    | AddToCart(email: string, sku: string)
    | RemoveItem(email: string, sku: string, quantity: int)
    | RemoveAllItems(email: string)
    | PlaceOrder(email: string, orderId: string, products: seq<Json>)
    | ClaimDiscount(email: string, discount: real)

  datatype Method = Post | Delete

  datatype Request = Request(verb: Method, url: string, authorization: string, body: Json)

  /**
   * `basicAuth`: base64 of "tenant:token" (an unset tenant reads as ""). An unset
   * bearer token makes `getBearerToken`, declared to return a string, throw a
   * TypeError: None.
   */
  function BasicAuth(c: Config): (r: Option<string>)
    ensures r.Some? <==> c.bearerToken.Some?
    ensures r.Some? ==>
      Base64.Decode(r.value) == Some(Utf8(c.tenantId.GetOr("") + ":" + c.bearerToken.value))
  {
    if c.bearerToken.None? then None
    else
      var bytes := Utf8(c.tenantId.GetOr("") + ":" + c.bearerToken.value);
      Base64.RoundTrip(bytes);
      Some(Base64.Encode(bytes))
  }

  /** The path prefix every cart endpoint shares. */
  const ShopPath: string := "/api/v1/loyalty/shop/"

  /** The URL of a cart endpoint for a customer e-mail; an unset base URL reads as "". */
  function ShopUrl(c: Config, email: string, endpoint: string): string {
    c.apiUrl.GetOr("") + ShopPath + email + endpoint
  }

  /** The endpoint suffix of each cart call. */
  function Endpoint(call: LedgerCall): (e: string)
    requires !call.ClaimDiscount?
    ensures |e| > 0 && e[0] == '/'
  {
    match call
    case AddToCart(_, _) => "/cart/add"
    case RemoveItem(_, _, _) => "/cart/remove"
    case RemoveAllItems(_) => "/cart"
    case PlaceOrder(_, _, _) => "/cart/purchase"
  }

  /** The request body of each call. */
  function Body(call: LedgerCall): Json {
    match call
    case AddToCart(_, sku) => JObj([("sku", JStr(sku)), ("quantity", JInt(1))])
    case RemoveItem(_, sku, q) => JObj([("sku", JStr(sku)), ("quantity", JInt(q))])
    case RemoveAllItems(_) => JNull
    case PlaceOrder(_, orderId, products) => JObj([("orderId", JStr(orderId)), ("products", JArr(products))])
    case ClaimDiscount(_, d) => JObj([("discount", JNum(d))])
  }

  /** The URL of each call. */
  function Url(c: Config, call: LedgerCall): string {
    if call.ClaimDiscount? then c.apiUrl.GetOr("") + "/api/v1/discount/" + call.email + "/claim"
    else ShopUrl(c, call.email, Endpoint(call))
  }

  /**
   * `addToCart`, `removeItem`, `removeAllItem`, `placeOrder` and `claimDiscount`:
   * the request each sends, or None when building the authorisation throws.
   */
  function RequestFor(c: Config, call: LedgerCall): (r: Option<Request>)
    ensures r.Some? <==> c.bearerToken.Some?
    ensures r.Some? ==> r.value.url == Url(c, call) && r.value.body == Body(call)
    ensures r.Some? ==> r.value.authorization == "Basic " + BasicAuth(c).value
    ensures r.Some? ==> (r.value.verb == Delete <==> call.RemoveItem? || call.RemoveAllItems?)
  {
    match BasicAuth(c)
    case None => None
    case Some(auth) =>
      var m := if call.RemoveItem? || call.RemoveAllItems? then Delete else Post;
      Some(Request(m, Url(c, call), "Basic " + auth, Body(call)))
  }

  /** The message of the TypeError `getBearerToken` throws when no bearer token is set. */
  const TokenTypeError: string :=
    "LoyaltyEngage\\LoyaltyShop\\Model\\LoyaltyengageCart::getBearerToken(): Return value must be of type string, null returned"

  /**
   * The reply a caller sees for `call` when the transport would answer `transport`:
   * building the request throws the TypeError first when there is no request to send.
   */
  function ClientReply(c: Config, call: LedgerCall, transport: Reply): Reply {
    if RequestFor(c, call).None? then Errored(TokenTypeError) else transport
  }

  /**
   * Without a bearer token every call comes back as an `\Error`, whatever the
   * transport; with one the caller sees the transport's reply.
   */
  lemma ClientReplyCases(c: Config, call: LedgerCall, transport: Reply)
    ensures c.bearerToken.None? ==> ClientReply(c, call, transport) == Errored(TokenTypeError)
    ensures c.bearerToken.Some? ==> ClientReply(c, call, transport) == transport
    ensures ClientReply(c, call, transport).Errored? <==> c.bearerToken.None? || transport.Errored?
  {
  }

  predicate NoSlash(s: string) {
    forall k :: 0 <= k < |s| ==> s[k] != '/'
  }

  /** The position of the first slash, or the length when there is none. */
  function FirstSlash(t: string): (n: nat)
    ensures n <= |t|
  {
    if t == [] || t[0] == '/' then 0 else 1 + FirstSlash(t[1..])
  }

  lemma {:induction false} FirstSlashAfter(e: string, s: string)
    requires NoSlash(e) && |s| > 0 && s[0] == '/'
    ensures FirstSlash(e + s) == |e|
  {
    if e == [] {
      assert e + s == s;
    } else {
      assert (e + s)[0] == e[0];
      assert (e + s)[1..] == e[1..] + s;
      FirstSlashAfter(e[1..], s);
    }
  }

  /** A string without a slash followed by a suffix starting with one splits in one way only. */
  lemma SplitAtSlash(e1: string, s1: string, e2: string, s2: string)
    requires NoSlash(e1) && NoSlash(e2)
    requires |s1| > 0 && s1[0] == '/' && |s2| > 0 && s2[0] == '/'
    requires e1 + s1 == e2 + s2
    ensures e1 == e2 && s1 == s2
  {
    FirstSlashAfter(e1, s1);
    FirstSlashAfter(e2, s2);
    assert e1 == (e1 + s1)[..|e1|];
    assert e2 == (e2 + s2)[..|e2|];
    assert s1 == (e1 + s1)[|e1|..];
    assert s2 == (e2 + s2)[|e2|..];
  }

  /** Two cart URLs for the same configuration are equal only when what follows the shared prefix is. */
  lemma ShopUrlTail(c: Config, e1: string, s1: string, e2: string, s2: string)
    requires ShopUrl(c, e1, s1) == ShopUrl(c, e2, s2)
    ensures e1 + s1 == e2 + s2
  {
    var p := c.apiUrl.GetOr("") + ShopPath;
    assert ShopUrl(c, e1, s1) == p + (e1 + s1);
    assert ShopUrl(c, e2, s2) == p + (e2 + s2);
    assert e1 + s1 == ShopUrl(c, e1, s1)[|p|..];
    assert e2 + s2 == ShopUrl(c, e2, s2)[|p|..];
  }

  /**
   * For e-mails without a slash, a cart URL tells both the customer and the
   * endpoint: no two different cart calls share a URL.
   */
  lemma ShopUrlDetermines(c: Config, a: LedgerCall, b: LedgerCall)
    requires !a.ClaimDiscount? && !b.ClaimDiscount?
    requires NoSlash(a.email) && NoSlash(b.email)
    requires Url(c, a) == Url(c, b)
    ensures a.email == b.email
    ensures Endpoint(a) == Endpoint(b)
  {
    ShopUrlTail(c, a.email, Endpoint(a), b.email, Endpoint(b));
    SplitAtSlash(a.email, Endpoint(a), b.email, Endpoint(b));
  }

  /** Each endpoint suffix belongs to one kind of call. */
  lemma EndpointsDistinct(a: LedgerCall, b: LedgerCall)
    requires !a.ClaimDiscount? && !b.ClaimDiscount?
    requires Endpoint(a) == Endpoint(b)
    ensures a.AddToCart? <==> b.AddToCart?
    ensures a.RemoveItem? <==> b.RemoveItem?
    ensures a.RemoveAllItems? <==> b.RemoveAllItems?
    ensures a.PlaceOrder? <==> b.PlaceOrder?
  {
    assert |"/cart"| == 5 && |"/cart/add"| == 9 && |"/cart/remove"| == 12 && |"/cart/purchase"| == 14;
  }

  /**
   * `claimDiscount`'s answer: the decoded body on status 200 (None for a body that
   * is not JSON), None for any other status.
   */
  function ClaimAnswer(status: int, body: Option<Json>): (r: Option<Json>)
    ensures status != 200 ==> r.None?
    ensures status == 200 ==> r == body
  {
    if status != 200 then None else body
  }

  /** `getexpiryTime`: the configured hours, "24" when unset or empty. */
  function ExpiryTime(c: Config): (r: string)
    ensures r != ""
    ensures c.cartExpiryTime.Some? && c.cartExpiryTime.value != "" ==> r == c.cartExpiryTime.value
    ensures c.cartExpiryTime.None? || c.cartExpiryTime == Some("") ==> r == "24"
  {
    match c.cartExpiryTime
    case None => "24"
    case Some(v) => if v == "" then "24" else v
  }

  /** `getLoyaltyOrderRetrieveLimit`: the `(int)` cast of the configured value. */
  function OrderRetrieveLimit(c: Config): int {
    IntCast(c.orderPlaceRetrieve)
  }

  /**
   * An unset limit is 0, a limit printed as a number up to PHP_INT_MAX reads back as
   * that number, and a larger one is capped at PHP_INT_MAX.
   */
  lemma {:induction false} OrderRetrieveLimitReads(c: Config, n: nat)
    ensures c.orderPlaceRetrieve.None? ==> OrderRetrieveLimit(c) == 0
    ensures c.orderPlaceRetrieve == Some(NatToDecimal(n)) && n <= IntMax ==> OrderRetrieveLimit(c) == n
    ensures c.orderPlaceRetrieve == Some(NatToDecimal(n)) && IntMax < n < InfinityBound ==> OrderRetrieveLimit(c) == IntMax
  {
    IntCastOfPrinted(n);
  }
}
