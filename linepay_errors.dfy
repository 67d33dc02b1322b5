/**
 * The errors the client reports: `LinePayError` for an unparseable response,
 * an HTTP error or a business error, `LinePayTimeoutError` for a request
 * that ran out of time, and `LinePayConfigError` for a rejected
 * configuration. All three are immutable once built.
 */
module Errors {
  import opened Php

  /** An error answer of the LINE Pay API. */
  datatype LinePayError = LinePayError(
    returnCode: string,
    returnMessage: string,
    httpStatus: int,
    rawResponse: Option<string>)
  {
    /** The exception message: "LINE Pay API Error [<code>]: <message>". */
    function Message(): (m: string)
      ensures |m| == 20 + |returnCode| + 3 + |returnMessage|
      ensures StartsWith(m, "LINE Pay API Error [")
      ensures m[20..20 + |returnCode|] == returnCode
      ensures m[20 + |returnCode|..23 + |returnCode|] == "]: "
      ensures m[23 + |returnCode|..] == returnMessage
    {
      "LINE Pay API Error [" + returnCode + "]: " + returnMessage
    }

    /** Authentication and authorization errors: codes of the 1xxx series. */
    predicate IsAuthError() {
      StartsWith(returnCode, "1")
    }

    /** Payment errors: codes of the 2xxx series. */
    predicate IsPaymentError() {
      StartsWith(returnCode, "2")
    }

    /** Internal errors of the provider: codes of the 9xxx series. */
    predicate IsInternalError() {
      StartsWith(returnCode, "9")
    }

    /**
     * `toArray()`: exactly the keys name, message, returnCode, returnMessage,
     * httpStatus and rawResponse, each mirroring the error (rawResponse is
     * null when the error carries none).
     */
    function ToArray(): (a: PhpArray)
      ensures a.Keys == {StrKey("name"), StrKey("message"), StrKey("returnCode"),
                         StrKey("returnMessage"), StrKey("httpStatus"), StrKey("rawResponse")}
      ensures a[StrKey("name")] == Str("LinePayError")
      ensures a[StrKey("message")] == Str(Message())
      ensures a[StrKey("returnCode")] == Str(returnCode)
      ensures a[StrKey("returnMessage")] == Str(returnMessage)
      ensures a[StrKey("httpStatus")] == Int(httpStatus)
      ensures a[StrKey("rawResponse")] == if rawResponse.Some? then Str(rawResponse.value) else Null
    {
      map[StrKey("name") := Str("LinePayError"),
          StrKey("message") := Str(Message()),
          StrKey("returnCode") := Str(returnCode),
          StrKey("returnMessage") := Str(returnMessage),
          StrKey("httpStatus") := Int(httpStatus),
          StrKey("rawResponse") := if rawResponse.Some? then Str(rawResponse.value) else Null]
    }
  }

  /** `new LinePayError($code, $message)`: no HTTP status (0) and no raw response. */
  function NewLinePayError(
    returnCode: string,
    returnMessage: string,
    httpStatus: int := 0,
    rawResponse: Option<string> := None): (e: LinePayError)
    ensures e.returnCode == returnCode && e.returnMessage == returnMessage
    ensures e.httpStatus == httpStatus && e.rawResponse == rawResponse
  {
    LinePayError(returnCode, returnMessage, httpStatus, rawResponse)
  }

  /** Rebuilds an error from the array `toArray` gives; the inverse of ToArray. */
  function FromArray(a: PhpArray): (e: Option<LinePayError>)
    ensures e.Some? ==> Get(a, StrKey("returnCode")) == Str(e.value.returnCode)
    ensures e.Some? ==> Get(a, StrKey("returnMessage")) == Str(e.value.returnMessage)
    ensures e.Some? ==> Get(a, StrKey("httpStatus")) == Int(e.value.httpStatus)
  {
    var code := Get(a, StrKey("returnCode"));
    var msg := Get(a, StrKey("returnMessage"));
    var status := Get(a, StrKey("httpStatus"));
    var raw := Get(a, StrKey("rawResponse"));
    if code.Str? && msg.Str? && status.Int? && (raw.Str? || raw.Null?) then
      Some(LinePayError(code.s, msg.s, status.i, if raw.Str? then Some(raw.s) else None))
    else
      None
  }

  lemma ToArrayRoundTrip(e: LinePayError)
    ensures FromArray(e.ToArray()) == Some(e)
  {
  }

  /** At most one of the three classes applies to any return code. */
  lemma ErrorClassesExclusive(e: LinePayError)
    ensures !(e.IsAuthError() && e.IsPaymentError())
    ensures !(e.IsAuthError() && e.IsInternalError())
    ensures !(e.IsPaymentError() && e.IsInternalError())
  {
  }

  /** The codes the client makes up itself belong to no class, and neither does "". */
  lemma SyntheticCodesUnclassified(e: LinePayError)
    requires e.returnCode in {"", "HTTP_ERROR", "PARSE_ERROR", "UNKNOWN_ERROR"}
    ensures !e.IsAuthError() && !e.IsPaymentError() && !e.IsInternalError()
  {
    ErrorClassByLeadingDigit(e);
  }

  /** The class of a code depends on its first character only. */
  lemma ErrorClassByLeadingDigit(e: LinePayError)
    ensures e.IsAuthError() <==> |e.returnCode| > 0 && e.returnCode[0] == '1'
    ensures e.IsPaymentError() <==> |e.returnCode| > 0 && e.returnCode[0] == '2'
    ensures e.IsInternalError() <==> |e.returnCode| > 0 && e.returnCode[0] == '9'
  {
  }

  /** A request that exceeded its time budget. */
  datatype LinePayTimeoutError = LinePayTimeoutError(timeout: int, url: Option<string>)
  {
    /**
     * The exception message: "Request timeout after <timeout>s", the timeout
     * written in canonical decimal (IntToString), which reads back as it.
     */
    function Message(): (m: string)
      ensures StartsWith(m, "Request timeout after ")
      ensures |m| > 23 && m[|m| - 1] == 's'
      ensures m[22..|m| - 1] == IntToString(timeout)
      ensures ParseInt(m[22..|m| - 1]) == Some(timeout)
    {
      IntToStringRoundTrip(timeout);
      var m := "Request timeout after " + IntToString(timeout) + "s";
      assert m[22..|m| - 1] == IntToString(timeout);
      m
    }
  }

  /** `new LinePayTimeoutError($timeout)`: no URL. */
  function NewLinePayTimeoutError(timeout: int, url: Option<string> := None): (e: LinePayTimeoutError)
    ensures e.timeout == timeout && e.url == url
  {
    LinePayTimeoutError(timeout, url)
  }

  /** A configuration the client refuses to start with. */
  datatype LinePayConfigError = LinePayConfigError(message: string)

  /** The errors built in the tests of the error classes. */
  lemma ErrorExamples()
    ensures NewLinePayError("1104", "Auth Error", 401).IsAuthError()
    ensures !NewLinePayError("2101", "Payment Error", 400).IsAuthError()
    ensures NewLinePayError("2101", "Payment Error", 400).IsPaymentError()
    ensures NewLinePayError("9000", "Internal Error", 500).IsInternalError()
    ensures NewLinePayError("1104", "Invalid Channel ID", 400, Some("raw")).ToArray()[StrKey("rawResponse")] == Str("raw")
    ensures NewLinePayError("1104", "x").httpStatus == 0
    ensures NewLinePayTimeoutError(20).url == None
    ensures NewLinePayTimeoutError(30).Message() == "Request timeout after 30s"
  {
    ErrorClassByLeadingDigit(NewLinePayError("2101", "Payment Error", 400));
    assert NatToString(30) == NatToString(3) + [DigitChar(0)];
  }
}
