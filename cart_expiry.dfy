/**
 * The cart-expiry cron job: it selects the active quotes with an e-mail that
 * were created at least the configured number of hours ago, asks the ledger to
 * empty each customer's loyalty cart and, where the ledger answers 200, removes
 * every item of the quote and saves it.
 */
module CartExpiry {
  import opened Wrappers
  import opened Php
  import opened QuoteModel
  import opened LoyaltyengageCart

  /**
   * `$expiryTime * 60`: the configured hours as minutes. None when the hours are
   * not an integer numeric string, where the multiplication throws and the run
   * ends before any quote is read.
   */
  function ExpiryMinutes(c: Config): Option<int> {
    match IntegerNumericValue(ExpiryTime(c))
    case None => None
    case Some(h) => Some(h * 60)
  }

  /** The unset or empty setting means 24 hours; a printed number of hours is read back. */
  lemma ExpiryMinutesReads(c: Config, h: int)
    ensures c.cartExpiryTime.None? || c.cartExpiryTime == Some("") ==> ExpiryMinutes(c) == Some(1440)
    ensures c.cartExpiryTime == Some(IntToDecimal(h)) ==> ExpiryMinutes(c) == Some(h * 60)
    ensures c.cartExpiryTime == Some("abc") ==> ExpiryMinutes(c).None?
  {
    PrintedIntIsNumeric(24);
    assert IntToDecimal(24) == "24";
    PrintedIntIsNumeric(h);
    if c.cartExpiryTime == Some(IntToDecimal(h)) {
      NatToDecimalShape(if h < 0 then -h else h);
      assert IntToDecimal(h) != "";
    }
    assert TrimNumericSpace("abc") == "abc";
  }

  /** The creation time at or before which a quote has expired: `now` minus the minutes, in seconds. */
  function Cutoff(now: int, minutes: int): (t: int)
    ensures t <= now <==> minutes >= 0
  {
    now - minutes * 60
  }

  /** The search filter: created at or before the cutoff, an e-mail set, active. */
  predicate Expired(q: Quote, cutoff: int) {
    q.createdAt <= cutoff && q.customerEmail.Some? && q.isActive
  }

  /** A selected quote whose e-mail is truthy gets a remove-all call. */
  predicate Notified(q: Quote, cutoff: int) {
    Expired(q, cutoff) && TruthyOpt(q.customerEmail)
  }

  /** A notified quote is cleared when the ledger answers exactly 200. */
  predicate Cleared(q: Quote, cutoff: int, reply: Reply) {
    Notified(q, cutoff) && reply == Status(200)
  }

  /**
   * A notified quote whose remove-all call raises an `\Error`: the loop's
   * `catch (\Exception)` lets it through, and the run ends there.
   */
  predicate Escapes(q: Quote, cutoff: int, reply: Reply) {
    Notified(q, cutoff) && reply.Errored?
  }

  /** The position of the first quote whose call escapes, the number of quotes when none does. */
  function FirstEscape(quotes: seq<Quote>, replies: seq<Reply>, cutoff: int): (h: nat)
    requires |replies| == |quotes|
    ensures h <= |quotes|
    ensures forall i :: 0 <= i < h ==> !Escapes(quotes[i], cutoff, replies[i])
    ensures h < |quotes| ==> Escapes(quotes[h], cutoff, replies[h])
    decreases |quotes|
  {
    if quotes == [] then 0
    else if Escapes(quotes[0], cutoff, replies[0]) then 0
    else
      var h := 1 + FirstEscape(quotes[1..], replies[1..], cutoff);
      assert forall i :: 1 <= i < h ==> quotes[1..][i - 1] == quotes[i] && replies[1..][i - 1] == replies[i];
      h
  }

  /** The first escape is at k when no earlier quote escapes and quote k does, or k is the end. */
  lemma FirstEscapeAt(quotes: seq<Quote>, replies: seq<Reply>, cutoff: int, k: nat)
    requires |replies| == |quotes| && k <= |quotes|
    requires forall i :: 0 <= i < k ==> !Escapes(quotes[i], cutoff, replies[i])
    requires k < |quotes| ==> Escapes(quotes[k], cutoff, replies[k])
    ensures FirstEscape(quotes, replies, cutoff) == k
  {
  }

  /** The remove-all calls of a run over the quotes, in order. */
  function ExpiryCalls(quotes: seq<Quote>, cutoff: int): (r: seq<LedgerCall>)
    ensures |r| <= |quotes|
    ensures forall c :: c in r ==>
      exists k :: 0 <= k < |quotes| && Notified(quotes[k], cutoff) && c == RemoveAllItems(quotes[k].customerEmail.value)
    decreases |quotes|
  {
    if quotes == [] then []
    else
      var n := |quotes| - 1;
      var prev := ExpiryCalls(quotes[..n], cutoff);
      assert forall k :: 0 <= k < n ==> quotes[..n][k] == quotes[k];
      var q := quotes[n];
      prev + (if Notified(q, cutoff) then [RemoveAllItems(q.customerEmail.value)] else [])
  }

  lemma {:induction false} ExpiryCallsComplete(quotes: seq<Quote>, cutoff: int, k: nat)
    requires k < |quotes| && Notified(quotes[k], cutoff)
    ensures RemoveAllItems(quotes[k].customerEmail.value) in ExpiryCalls(quotes, cutoff)
    decreases |quotes|
  {
    var n := |quotes| - 1;
    if k < n {
      ExpiryCallsComplete(quotes[..n], cutoff, k);
      assert quotes[..n][k] == quotes[k];
    }
  }

  lemma ExpiryCallsPrefix(quotes: seq<Quote>, cutoff: int, k: nat)
    requires k < |quotes|
    ensures ExpiryCalls(quotes[..k + 1], cutoff)
         == ExpiryCalls(quotes[..k], cutoff)
            + (if Notified(quotes[k], cutoff) then [RemoveAllItems(quotes[k].customerEmail.value)] else [])
  {
    assert quotes[..k + 1][..k] == quotes[..k];
  }

  /**
   * One round of the loop for quote q: the remove-all call when q is notified, and
   * the quote emptied and saved when the ledger confirms with 200.
   */
  method VisitQuote(q: Quote, cutoff: int, reply: Reply) returns (call: seq<LedgerCall>)
    modifies q`items, q`saves
    ensures call == (if Notified(q, cutoff) then [RemoveAllItems(q.customerEmail.value)] else [])
    ensures if Cleared(q, cutoff, reply)
      then q.items == [] && q.saves == old(q.saves) + 1
      else q.items == old(q.items) && q.saves == old(q.saves)
  {
    call := [];
    if Expired(q, cutoff) && TruthyOpt(q.customerEmail) {
      call := [RemoveAllItems(q.customerEmail.value)];
      if reply == Status(200) {
        q.RemoveAllItems();
        q.Save();
      }
    }
  }

  /**
   * The loop of `execute` over the selected quotes, for a given cutoff: it goes up
   * to the first quote whose call raises an `\Error`, which ends the run
   * (`escaped`); the quotes from there on are untouched.
   */
  method ExpireAll(quotes: seq<Quote>, replies: seq<Reply>, cutoff: int)
    returns (calls: seq<LedgerCall>, escaped: bool)
    requires |replies| == |quotes|
    requires forall i, j :: 0 <= i < j < |quotes| ==> quotes[i] != quotes[j]
    modifies quotes`items, quotes`saves
    ensures var h := FirstEscape(quotes, replies, cutoff);
      escaped == (h < |quotes|)
      && calls == ExpiryCalls(quotes[..if escaped then h + 1 else h], cutoff)
      && forall k :: 0 <= k < |quotes| ==>
        if k < h && Cleared(quotes[k], cutoff, replies[k])
        then quotes[k].items == [] && quotes[k].saves == old(quotes[k].saves) + 1
        else quotes[k].items == old(quotes[k].items) && quotes[k].saves == old(quotes[k].saves)
  {
    calls := [];
    var k := 0;
    while k < |quotes|
      invariant 0 <= k <= |quotes|
      invariant forall i :: 0 <= i < k ==> !Escapes(quotes[i], cutoff, replies[i])
      invariant calls == ExpiryCalls(quotes[..k], cutoff)
      invariant forall i :: 0 <= i < k ==>
        if Cleared(quotes[i], cutoff, replies[i])
        then quotes[i].items == [] && quotes[i].saves == old(quotes[i].saves) + 1
        else quotes[i].items == old(quotes[i].items) && quotes[i].saves == old(quotes[i].saves)
      invariant forall i :: k <= i < |quotes| ==>
        quotes[i].items == old(quotes[i].items) && quotes[i].saves == old(quotes[i].saves)
    {
      var q := quotes[k];
      ExpiryCallsPrefix(quotes, cutoff, k);
      var call := VisitQuote(q, cutoff, replies[k]);
      calls := calls + call;
      if Escapes(q, cutoff, replies[k]) {
        FirstEscapeAt(quotes, replies, cutoff, k);
        return calls, true;
      }
      k := k + 1;
    }
    assert quotes[..k] == quotes;
    FirstEscapeAt(quotes, replies, cutoff, k);
    escaped := false;
  }

  /**
   * `execute`. `replies[k]` is the ledger's answer to the remove-all call for
   * `quotes[k]`, the quotes the store holds; `now` is the current time in seconds.
   * Nothing happens when the module is off or the configured hours are not a
   * number; otherwise the quotes go through `ExpireAll` with the cutoff.
   */
  method Execute(enabled: bool, config: Config, now: int, quotes: seq<Quote>, replies: seq<Reply>)
    returns (calls: seq<LedgerCall>, escaped: bool)
    requires |replies| == |quotes|
    requires forall i, j :: 0 <= i < j < |quotes| ==> quotes[i] != quotes[j]
    modifies quotes`items, quotes`saves
    ensures !enabled || ExpiryMinutes(config).None? ==>
      calls == [] && !escaped && forall k :: 0 <= k < |quotes| ==>
        quotes[k].items == old(quotes[k].items) && quotes[k].saves == old(quotes[k].saves)
    ensures enabled && ExpiryMinutes(config).Some? ==>
      var cutoff := Cutoff(now, ExpiryMinutes(config).value);
      var h := FirstEscape(quotes, replies, cutoff);
      escaped == (h < |quotes|)
      && calls == ExpiryCalls(quotes[..if escaped then h + 1 else h], cutoff)
      && forall k :: 0 <= k < |quotes| ==>
        if k < h && Cleared(quotes[k], cutoff, replies[k])
        then quotes[k].items == [] && quotes[k].saves == old(quotes[k].saves) + 1
        else quotes[k].items == old(quotes[k].items) && quotes[k].saves == old(quotes[k].saves)
  {
    calls, escaped := [], false;
    if !enabled {
      return;
    }
    var minutes := ExpiryMinutes(config);
    if minutes.None? {
      return;
    }
    calls, escaped := ExpireAll(quotes, replies, Cutoff(now, minutes.value));
  }
}
