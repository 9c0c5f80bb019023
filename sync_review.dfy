/**
 * The console command `loyaltyshop:sync:review <review_id>`: it checks a review
 * and, when the review passes every check, queues it for export.
 */
module SyncReview {
  import opened Wrappers
  import opened Php
  import opened Json
  import opened Bytes
  import opened QuoteModel
  import opened ReviewModel
  import opened Queue

  const Topic: string := "loyaltyshop.review_event"

  /** `Command::SUCCESS` and `Command::FAILURE`. */
  const ExitSuccess: int := 0
  const ExitFailure: int := 1

  const ExportDisabled: string := "Review export is disabled in configuration"
  const NotApproved: string := "Review is not approved - cannot sync"
  const NoEmail: string := "Could not determine customer email"

  function NotFound(reviewId: string): string {
    "Review with ID " + reviewId + " not found"
  }

  function TooShort(length: int, minimum: int): string {
    "Review too short (" + IntToDecimal(length) + " chars, minimum " + IntToDecimal(minimum) + " required)"
  }

  /** How a run ends: the queued message, or the error line it writes. */
  datatype Outcome = Queued(message: Message) | Failed(error: string)

  function ExitCode(o: Outcome): (c: int)
    ensures c == ExitSuccess <==> o.Queued?
    ensures c == ExitSuccess || c == ExitFailure
  {
    if o.Queued? then ExitSuccess else ExitFailure
  }

  /** `getStatusText`. */
  function StatusText(statusId: int): (t: string)
    ensures statusId != StatusApproved && statusId != StatusPending && statusId != StatusNotApproved ==>
      |t| > 9 && t[..9] == "Unknown ("
  {
    if statusId == StatusApproved then "Approved"
    else if statusId == StatusPending then "Pending"
    else if statusId == StatusNotApproved then "Not Approved"
    else "Unknown (" + IntToDecimal(statusId) + ")"
  }

  /** Only the texts of unknown ids start with a 'U'. */
  lemma StatusTextFirstLetter(x: int)
    ensures |StatusText(x)| > 0
    ensures StatusText(x)[0] == 'U' <==> x != StatusApproved && x != StatusPending && x != StatusNotApproved
  {
  }

  /** Different status ids always have different texts. */
  lemma StatusTextInjective(a: int, b: int)
    requires StatusText(a) == StatusText(b)
    ensures a == b
  {
    StatusTextFirstLetter(a);
    StatusTextFirstLetter(b);
    if StatusText(a)[0] == 'U' {
      var ta, tb := StatusText(a), StatusText(b);
      assert ta[9..|ta| - 1] == IntToDecimal(a);
      assert tb[9..|tb| - 1] == IntToDecimal(b);
      PrintedIntIsNumeric(a);
      PrintedIntIsNumeric(b);
    }
  }

  /** The detail's length as the check measures it: the bytes of the trimmed text. */
  function DetailLength(r: Review): nat {
    Strlen(Trim(r.detail.GetOr("")))
  }

  /**
   * `getCustomerEmail`: the attached customer's e-mail when it is truthy, then the
   * e-mail of the customer the customer id names when that customer exists, then
   * the review's own e-mail when it is truthy; None when all three fail.
   */
  function CustomerEmail(r: Review, customers: Customers): (e: Option<string>)
    ensures TruthyOpt(r.linkedEmail) ==> e == r.linkedEmail
    ensures (!TruthyOpt(r.linkedEmail) && r.customerId.Some? && r.customerId.value != 0
             && r.customerId.value in customers) ==> e == Some(customers[r.customerId.value])
    ensures e.Some? ==>
      (e == r.linkedEmail || e == r.storedEmail
       || (r.customerId.Some? && r.customerId.value in customers && e == Some(customers[r.customerId.value])))
    ensures e.None? <==>
      (!TruthyOpt(r.linkedEmail)
       && !(r.customerId.Some? && r.customerId.value != 0 && r.customerId.value in customers)
       && !TruthyOpt(r.storedEmail))
  {
    if TruthyOpt(r.linkedEmail) then r.linkedEmail
    else if r.customerId.Some? && r.customerId.value != 0 && r.customerId.value in customers
    then Some(customers[r.customerId.value])
    else if TruthyOpt(r.storedEmail) then r.storedEmail
    else None
  }

  /** The one-element payload list; `reviewid` is the argument as typed. */
  function Payload(email: string, reviewId: string): Json {
    JArr([JObj([("event", JStr("Review")), ("identifier", JStr(email)), ("reviewid", JStr(reviewId))])])
  }

  /**
   * A run for the argument `reviewId`; `loaded` is the review it loads (None when
   * none has that id) and `minCharacters` the configured minimum length.
   */
  function Run(exportEnabled: bool, reviewId: string, loaded: Option<Review>, minCharacters: int,
               customers: Customers): Outcome
  {
    if !exportEnabled then Failed(ExportDisabled)
    else if loaded.None? then Failed(NotFound(reviewId))
    else
      var r := loaded.value;
      if r.statusId != StatusApproved then Failed(NotApproved)
      else if minCharacters > 0 && DetailLength(r) < minCharacters
      then Failed(TooShort(DetailLength(r), minCharacters))
      else
        var email := CustomerEmail(r, customers);
        if !TruthyOpt(email) then Failed(NoEmail)
        else Queued(Message(Topic, Payload(email.value, reviewId)))
  }

  /**
   * The checks in their order. A run queues a message exactly when export is on,
   * the review exists and is approved, its trimmed detail is long enough (only a
   * positive minimum is checked) and a truthy e-mail is found; the message then
   * names that e-mail and the argument.
   */
  lemma RunCases(exportEnabled: bool, reviewId: string, loaded: Option<Review>, minCharacters: int,
                 customers: Customers)
    ensures var o := Run(exportEnabled, reviewId, loaded, minCharacters, customers);
      (!exportEnabled ==> o == Failed(ExportDisabled))
      && (exportEnabled && loaded.None? ==> o == Failed(NotFound(reviewId)))
      && (exportEnabled && loaded.Some? && loaded.value.statusId != StatusApproved ==> o == Failed(NotApproved))
      && (exportEnabled && loaded.Some? && loaded.value.statusId == StatusApproved
          && minCharacters > 0 && DetailLength(loaded.value) < minCharacters
          ==> o == Failed(TooShort(DetailLength(loaded.value), minCharacters)))
      && (o.Queued? <==>
           exportEnabled && loaded.Some? && loaded.value.statusId == StatusApproved
           && !(minCharacters > 0 && DetailLength(loaded.value) < minCharacters)
           && TruthyOpt(CustomerEmail(loaded.value, customers)))
      && (o.Queued? ==>
            (o.message.topic == Topic
             && o.message.payload == Payload(CustomerEmail(loaded.value, customers).value, reviewId)))
  {
  }

  /** `execute`: the outcome, its exit code, and the message appended to the queue on success. */
  method Execute(exportEnabled: bool, reviewId: string, loaded: Option<Review>, minCharacters: int,
                 customers: Customers, outbox: Outbox)
    returns (o: Outcome, code: int)
    modifies outbox`messages
    ensures o == Run(exportEnabled, reviewId, loaded, minCharacters, customers) && code == ExitCode(o)
    ensures o.Failed? ==> outbox.messages == old(outbox.messages)
    ensures o.Queued? ==> outbox.messages == old(outbox.messages) + [o.message]
  {
    if !exportEnabled {
      o := Failed(ExportDisabled);
      return o, ExitFailure;
    }
    if loaded.None? {
      o := Failed(NotFound(reviewId));
      return o, ExitFailure;
    }
    var r := loaded.value;
    if r.statusId != StatusApproved {
      o := Failed(NotApproved);
      return o, ExitFailure;
    }
    var length := Strlen(Trim(r.detail.GetOr("")));
    if minCharacters > 0 && length < minCharacters {
      o := Failed(TooShort(length, minCharacters));
      return o, ExitFailure;
    }
    var email := CustomerEmail(r, customers);
    if !TruthyOpt(email) {
      o := Failed(NoEmail);
      return o, ExitFailure;
    }
    var m := Message(Topic, Payload(email.value, reviewId));
    outbox.Publish(m);
    o := Queued(m);
    code := ExitSuccess;
  }
}
