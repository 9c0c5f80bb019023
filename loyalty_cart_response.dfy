/**
 * The response object of the cart web services, and the answer a service call
 * ends with: the object's success flag and message, plus the HTTP status that
 * `setErrorResponse` puts on the web response (None when the status is left alone).
 */
module LoyaltyCartResponse {
  import opened Wrappers

  /** What a cart service call ends with. */
  datatype Answer = Answer(success: bool, message: string, httpStatus: Option<int>)

  /** `setSuccessResponse`: success, the message, the HTTP status untouched. */
  function Succeeded(message: string): (a: Answer)
    ensures a.success && a.message == message && a.httpStatus.None?
  {
    Answer(true, message, None)
  }

  /** `setErrorResponse`: failure, the message, and the given HTTP status. */
  function Failed(message: string, status: int): (a: Answer)
    ensures !a.success && a.message == message && a.httpStatus == Some(status)
  {
    Answer(false, message, Some(status))
  }

  /**
   * `LoyaltyCartResponse`. Both fields start unset; a getter on an unset field
   * violates its declared return type and throws, which the getters show as None.
   */
  class Response {
    var success: Option<bool>
    var message: Option<string>

    constructor ()
      ensures success.None? && message.None?
    {
      success := None;
      message := None;
    }

    /** `setSuccess`; returns the object itself, for chaining. */
    method SetSuccess(s: bool) returns (self: Response)
      modifies this`success
      ensures success == Some(s) && self == this
    {
      success := Some(s);
      self := this;
    }

    /** `setMessage`; returns the object itself, for chaining. */
    method SetMessage(m: string) returns (self: Response)
      modifies this`message
      ensures message == Some(m) && self == this
    {
      message := Some(m);
      self := this;
    }

    /** `getSuccess`: None when the flag was never set. */
    function GetSuccess(): Option<bool>
      reads this
    {
      success
    }

    /** `getMessage`: None when the message was never set. */
    function GetMessage(): Option<string>
      reads this
    {
      message
    }

    /** The answer the object holds once both fields are set. */
    function ToAnswer(httpStatus: Option<int>): (a: Option<Answer>)
      reads this
      ensures a.Some? <==> success.Some? && message.Some?
      ensures a.Some? ==> a.value.success == success.value && a.value.message == message.value
    {
      if success.Some? && message.Some? then Some(Answer(success.value, message.value, httpStatus)) else None
    }
  }

  /**
   * The chain `create()->setSuccess(s)->setMessage(m)` that every service ends
   * with: a fresh object whose getters give back `s` and `m`.
   */
  method Respond(s: bool, m: string) returns (r: Response)
    ensures fresh(r)
    ensures r.GetSuccess() == Some(s) && r.GetMessage() == Some(m)
    ensures r.ToAnswer(None) == Some(Answer(s, m, None))
  {
    r := new Response();
    var r1 := r.SetSuccess(s);
    var r2 := r1.SetMessage(m);
    assert r2 == r;
  }
}
