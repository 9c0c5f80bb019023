/**
 * The plugin on shipping-rate collection: for a logged-in customer whose
 * loyalty level is one of the configured levels, every collected rate becomes free.
 */
module ShippingMethodPlugin {
  import opened Wrappers
  import opened Php
  import opened Bytes
  import Base64

  /** The settings the plugin reads. */
  datatype Settings = Settings(
    loyaltyLevels: seq<string>,
    clientId: Option<string>,
    clientSecret: Option<string>,
    apiUrl: Option<string>)

  /**
   * The loyalty-status answer: the HTTP status and the decoded body's `tier` and
   * `level` (Null when missing or null), or an exception.
   */
  datatype LevelReply = Answered(status: int, tier: Scalar, level: Scalar) | Threw

  /** `rtrim($s, '/')`. */
  function RTrimSlash(s: string): (r: string)
    ensures |r| <= |s| && r == s[..|r|]
    ensures r == [] || r[|r| - 1] != '/'
    ensures forall k :: |r| <= k < |s| ==> s[k] == '/'
  {
    if |s| > 0 && s[|s| - 1] == '/' then RTrimSlash(s[..|s| - 1]) else s
  }

  /** The status request: the URL and the Basic authorisation header. */
  datatype Request = Request(url: string, authorization: string)

  /**
   * The request `customerQualifiesForFreeShipping` sends, or None when it returns
   * false first: an empty level list, or a falsy client id, secret or trimmed URL.
   */
  function RequestFor(s: Settings, email: string): (r: Option<Request>)
    ensures r.Some? <==> s.loyaltyLevels != [] && TruthyOpt(s.clientId) && TruthyOpt(s.clientSecret)
                         && TruthyString(RTrimSlash(s.apiUrl.GetOr("")))
    ensures r.Some? ==> r.value.url == RTrimSlash(s.apiUrl.value) + "/api/v1/contact/" + email + "/loyalty_status"
    ensures r.Some? ==> |r.value.authorization| >= 6 && r.value.authorization[..6] == "Basic "
    ensures r.Some? ==> Base64.Decode(r.value.authorization[6..])
                        == Some(Utf8(s.clientId.value + ":" + s.clientSecret.value))
  {
    var base := RTrimSlash(s.apiUrl.GetOr(""));
    if s.loyaltyLevels == [] || !TruthyOpt(s.clientId) || !TruthyOpt(s.clientSecret) || !TruthyString(base)
    then None
    else
      var bytes := Utf8(s.clientId.value + ":" + s.clientSecret.value);
      Base64.RoundTrip(bytes);
      var auth := "Basic " + Base64.Encode(bytes);
      assert auth[6..] == Base64.Encode(bytes) && auth[..6] == "Basic ";
      Some(Request(base + "/api/v1/contact/" + email + "/loyalty_status", auth))
  }

  /**
   * `customerQualifiesForFreeShipping`: true only when the request is sent, the
   * status is exactly 200 and the `tier` (else the `level`) is loosely
   * (`in_array` without the strict flag) one of the configured levels.
   */
  function Qualifies(s: Settings, email: string, reply: LevelReply): (q: bool)
    ensures q ==> RequestFor(s, email).Some? && reply.Answered? && reply.status == 200
    ensures q ==> (reply.tier != Null ==> LooseInArray(reply.tier, s.loyaltyLevels))
    ensures q ==> (reply.tier == Null ==> LooseInArray(reply.level, s.loyaltyLevels))
    ensures reply.Answered? && reply.tier == Null && reply.level == Null ==> !q
  {
    if RequestFor(s, email).None? then false
    else match reply
      case Threw => false
      case Answered(status, tier, level) =>
        if status != 200 || (tier == Null && level == Null) then false
        else LooseInArray(if tier != Null then tier else level, s.loyaltyLevels)
  }

  /** A level that is one of the configured ones qualifies, in whatever scalar form the body gives it. */
  lemma QualifiesWithListedLevel(s: Settings, email: string, level: string, n: int)
    requires RequestFor(s, email).Some? && level in s.loyaltyLevels
    ensures Qualifies(s, email, Answered(200, Str(level), Null))
    ensures Qualifies(s, email, Answered(200, Null, Str(level)))
    ensures level == IntToDecimal(n) ==> Qualifies(s, email, Answered(200, Int(n), Null))
    ensures !Qualifies(s, email, Answered(201, Str(level), Null))
  {
    var k :| 0 <= k < |s.loyaltyLevels| && s.loyaltyLevels[k] == level;
    LooseEqualsReflexive(level);
    PrintedIntIsNumeric(n);
  }

  /** A shipping rate of the collected result. */
  class Rate {
    var price: real
    var cost: real

    constructor (price: real, cost: real)
      ensures this.price == price && this.cost == cost
    {
      this.price := price;
      this.cost := cost;
    }
  }

  /** The loop over `getAllRates()`: every rate's price and cost become 0. */
  method MakeFree(rates: seq<Rate>)
    modifies rates`price, rates`cost
    ensures forall r :: r in rates ==> r.price == 0.0 && r.cost == 0.0
  {
    var k := 0;
    while k < |rates|
      invariant 0 <= k <= |rates|
      invariant forall j :: 0 <= j < k ==> rates[j].price == 0.0 && rates[j].cost == 0.0
    {
      rates[k].price := 0.0;
      rates[k].cost := 0.0;
      k := k + 1;
    }
  }

  /**
   * `afterCollectRates`. `sessionEmail` is the logged-in customer's e-mail (None
   * when nobody is logged in); the status call is made, and `reply` used, only
   * for a truthy e-mail. Returns the request sent, if any.
   */
  method AfterCollectRates(s: Settings, sessionEmail: Option<string>, reply: LevelReply, rates: seq<Rate>)
    returns (sent: Option<Request>)
    modifies rates`price, rates`cost
    ensures !TruthyOpt(sessionEmail) ==> sent.None?
    ensures TruthyOpt(sessionEmail) ==> sent == RequestFor(s, sessionEmail.value)
    ensures TruthyOpt(sessionEmail) && Qualifies(s, sessionEmail.value, reply) ==>
      forall r :: r in rates ==> r.price == 0.0 && r.cost == 0.0
    ensures !(TruthyOpt(sessionEmail) && Qualifies(s, sessionEmail.value, reply)) ==>
      forall r :: r in rates ==> r.price == old(r.price) && r.cost == old(r.cost)
  {
    sent := None;
    if !TruthyOpt(sessionEmail) {
      return;
    }
    sent := RequestFor(s, sessionEmail.value);
    if Qualifies(s, sessionEmail.value, reply) {
      MakeFree(rates);
    }
  }
}
