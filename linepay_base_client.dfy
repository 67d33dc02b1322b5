/**
 * The base client: it validates a configuration, signs and sends requests,
 * and turns what comes back into a success, an API error, a timeout or a
 * transport failure passed on unchanged.
 *
 * The network, JSON, URL-encoding and cryptography are collaborators the
 * client is given: a request goes to the `transport` function, which
 * answers with a response or a connection failure.
 */
module Client {
  import opened Php
  import Env
  import Config
  import Errors
  import Utils

  // ---------------------------------------------------------------------
  // Configuration checks
  // ---------------------------------------------------------------------

  const MISSING_CHANNEL_ID := "channelId is required and cannot be empty"
  const MISSING_CHANNEL_SECRET := "channelSecret is required and cannot be empty"
  const NON_POSITIVE_TIMEOUT := "timeout must be a positive number"

  /**
   * The error the constructor throws for `config`, if any: the first of an
   * empty channel ID, an empty channel secret and a timeout that is not
   * positive, checked in this order.
   */
  function ValidateConfig(config: Config.LinePayConfig): (e: Option<Errors.LinePayConfigError>)
    ensures e.None? <==> config.channelId != "" && config.channelSecret != "" && config.timeout > 0
    ensures config.channelId == "" ==> e == Some(Errors.LinePayConfigError(MISSING_CHANNEL_ID))
    ensures config.channelId != "" && config.channelSecret == "" ==>
      e == Some(Errors.LinePayConfigError(MISSING_CHANNEL_SECRET))
    ensures config.channelId != "" && config.channelSecret != "" && config.timeout <= 0 ==>
      e == Some(Errors.LinePayConfigError(NON_POSITIVE_TIMEOUT))
  {
    if config.channelId == "" then Some(Errors.LinePayConfigError(MISSING_CHANNEL_ID))
    else if config.channelSecret == "" then Some(Errors.LinePayConfigError(MISSING_CHANNEL_SECRET))
    else if config.timeout <= 0 then Some(Errors.LinePayConfigError(NON_POSITIVE_TIMEOUT))
    else None
  }

  /**
   * A credential made only of whitespace is trimmed to "" by the
   * configuration and then refused by the client.
   */
  lemma WhitespaceCredentialRejected(channelId: string, channelSecret: string, env: string, timeout: int)
    requires forall i :: 0 <= i < |channelId| ==> Config.IsTrimChar(channelId[i])
    ensures ValidateConfig(Config.NewLinePayConfig(channelId, channelSecret, env, timeout))
      == Some(Errors.LinePayConfigError(MISSING_CHANNEL_ID))
  {
  }

  /** Every error names the setting at fault; a zero timeout passes the configuration but not the client. */
  lemma ConfigValidationExamples()
    ensures ValidateConfig(Config.NewLinePayConfig("", "secret")).value.message == MISSING_CHANNEL_ID
    ensures ValidateConfig(Config.NewLinePayConfig("id", "")).value.message == MISSING_CHANNEL_SECRET
    ensures ValidateConfig(Config.NewLinePayConfig("id", "secret", "sandbox", 0)).value.message == NON_POSITIVE_TIMEOUT
    ensures ValidateConfig(Config.NewLinePayConfig("id", "secret", "sandbox", -5)).value.message == NON_POSITIVE_TIMEOUT
    ensures ValidateConfig(Config.NewLinePayConfig("", "", "sandbox", 0)).value.message == MISSING_CHANNEL_ID
    ensures ValidateConfig(Config.NewLinePayConfig("   ", "secret")).value.message == MISSING_CHANNEL_ID
    ensures ValidateConfig(Config.NewLinePayConfig("id", "secret")).None?
  {
    var id, secret := "id", "secret";
    assert !Config.IsTrimChar(id[0]) && !Config.IsTrimChar(secret[0]);
    WhitespaceCredentialRejected("   ", "secret", "sandbox", Env.DEFAULT_TIMEOUT);
  }

  // ---------------------------------------------------------------------
  // Collaborators
  // ---------------------------------------------------------------------

  /** What `json_encode` gives: a JSON text, or `false` on failure. */
  datatype EncodeResult = Encoded(json: string) | EncodeFailed

  /** What `json_decode($text, true)` gives: a value, or a JSON error. */
  datatype DecodeResult = Decoded(value: PhpValue) | DecodeFailed

  /**
   * A request handed to the HTTP client, whose base URI and timeout (for
   * the connection and for the whole request) come from the client. The
   * body is `None` when no body option is set.
   */
  datatype HttpRequest = HttpRequest(
    httpMethod: string,
    baseUri: string,
    target: string,
    headers: Assoc,
    body: Option<EncodeResult>,
    timeout: int)

  /**
   * What the HTTP client does with a request: it answers with a response
   * (HTTP errors are answers too, not exceptions), fails to connect, or
   * throws another exception.
   */
  datatype TransportReply =
    | Response(status: int, text: string, reasonPhrase: string)
    | ConnectFailure(message: string)
    | OtherFailure(message: string)

  /**
   * The code outside the client: the cryptographic primitives, JSON
   * encoding and decoding, `http_build_query`'s percent-encoding, and the
   * HTTP client.
   */
  datatype Collaborators = Collaborators(
    crypto: Utils.Crypto,
    jsonEncode: PhpArray -> EncodeResult,
    jsonDecode: string -> DecodeResult,
    urlEncode: string -> string,
    transport: HttpRequest -> TransportReply)

  /** How a request ends: the decoded response, or one of the exceptions `sendRequest` throws. */
  datatype ApiOutcome =
    | Success(data: PhpArray)
    | ApiError(error: Errors.LinePayError)
    | Timeout(timeoutError: Errors.LinePayTimeoutError)
    | Rethrow(reply: TransportReply)

  // ---------------------------------------------------------------------
  // Response classification
  // ---------------------------------------------------------------------

  const PARSE_ERROR := "PARSE_ERROR"
  const PARSE_ERROR_MESSAGE := "Failed to parse response as JSON"
  const HTTP_ERROR := "HTTP_ERROR"
  const UNKNOWN_ERROR := "UNKNOWN_ERROR"
  const UNKNOWN_ERROR_MESSAGE := "Unknown error"
  const SUCCESS_CODE := "0000"

  /** `isset($a[$k]) && is_string($a[$k]) ? $a[$k] : ''` */
  function StringField(a: PhpArray, key: string): (s: string)
    ensures Get(a, StrKey(key)).Str? ==> s == Get(a, StrKey(key)).s
    ensures !Get(a, StrKey(key)).Str? ==> s == ""
  {
    var v := Get(a, StrKey(key));
    if v.Str? then v.s else ""
  }

  /** Whether the decoded response passes the JSON check: decoded without error, and an array. */
  predicate IsArrayResponse(decoded: DecodeResult) {
    decoded.Decoded? && decoded.value.Arr?
  }

  /**
   * What `sendRequest` makes of a response with the given status, text and
   * reason phrase, the text having been decoded to `decoded`. The HTTP
   * status is looked at before the return code; every error carries the
   * status and the raw text, and never has an empty code.
   */
  function Classify(status: int, responseText: string, reasonPhrase: string, decoded: DecodeResult): (r: ApiOutcome)
    ensures r.Success? || r.ApiError?
    ensures r.Success? <==>
      IsArrayResponse(decoded) && status < 400 && StringField(decoded.value.entries, "returnCode") == SUCCESS_CODE
    ensures r.Success? ==> r.data == decoded.value.entries
    ensures r.ApiError? ==>
      r.error.httpStatus == status && r.error.rawResponse == Some(responseText) && r.error.returnCode != ""
    ensures !IsArrayResponse(decoded) ==>
      r.error.returnCode == PARSE_ERROR && r.error.returnMessage == PARSE_ERROR_MESSAGE
    ensures IsArrayResponse(decoded) && status >= 400 ==>
      var code := StringField(decoded.value.entries, "returnCode");
      var message := StringField(decoded.value.entries, "returnMessage");
      && r.error.returnCode == (if code != "" then code else HTTP_ERROR)
      && r.error.returnMessage == (if message != "" then message else reasonPhrase)
    ensures IsArrayResponse(decoded) && status < 400 && r.ApiError? ==>
      var code := StringField(decoded.value.entries, "returnCode");
      var message := StringField(decoded.value.entries, "returnMessage");
      && r.error.returnCode == (if code != "" then code else UNKNOWN_ERROR)
      && r.error.returnMessage == (if message != "" then message else UNKNOWN_ERROR_MESSAGE)
  {
    if !IsArrayResponse(decoded) then
      ApiError(Errors.NewLinePayError(PARSE_ERROR, PARSE_ERROR_MESSAGE, status, Some(responseText)))
    else
      var json := decoded.value.entries;
      var returnCode := StringField(json, "returnCode");
      var returnMessage := StringField(json, "returnMessage");
      if status >= 400 then
        ApiError(Errors.NewLinePayError(
          if returnCode != "" then returnCode else HTTP_ERROR,
          if returnMessage != "" then returnMessage else reasonPhrase,
          status, Some(responseText)))
      else if returnCode != SUCCESS_CODE then
        ApiError(Errors.NewLinePayError(
          if returnCode != "" then returnCode else UNKNOWN_ERROR,
          if returnMessage != "" then returnMessage else UNKNOWN_ERROR_MESSAGE,
          status, Some(responseText)))
      else
        Success(json)
  }

  /** An HTTP error status wins over a success code in the body. */
  lemma HttpStatusCheckedFirst(status: int, responseText: string, reasonPhrase: string, json: PhpArray)
    requires status >= 400
    requires Get(json, StrKey("returnCode")) == Str(SUCCESS_CODE)
    ensures var r := Classify(status, responseText, reasonPhrase, Decoded(Arr(json)));
      r.ApiError? && r.error.returnCode == SUCCESS_CODE && r.error.httpStatus == status
  {
  }

  /**
   * A JSON list decodes to an array, so it passes the JSON check: with a
   * status below 400 it is an unknown error, not a parse error.
   */
  lemma ListIsNotParseError(status: int, responseText: string, reasonPhrase: string, items: seq<PhpValue>)
    requires status < 400
    ensures var list := map i | 0 <= i < |items| :: IntKey(i) := items[i];
      Classify(status, responseText, reasonPhrase, Decoded(Arr(list)))
        == ApiError(Errors.LinePayError(UNKNOWN_ERROR, UNKNOWN_ERROR_MESSAGE, status, Some(responseText)))
  {
    var list := map i | 0 <= i < |items| :: IntKey(i) := items[i];
    assert StrKey("returnCode") !in list;
    assert StrKey("returnMessage") !in list;
  }

  /** A return code or message that is not a string counts as absent. */
  lemma NonStringFieldsIgnored(status: int, responseText: string, reasonPhrase: string, json: PhpArray, code: PhpValue, message: PhpValue)
    requires !code.Str? && !message.Str?
    ensures var withFields := json[StrKey("returnCode") := code][StrKey("returnMessage") := message];
      var withoutFields := json - {StrKey("returnCode"), StrKey("returnMessage")};
      var r := Classify(status, responseText, reasonPhrase, Decoded(Arr(withFields)));
      && r.ApiError?
      && r == Classify(status, responseText, reasonPhrase, Decoded(Arr(withoutFields)))
  {
  }

  /** Whether the body parsed does not depend on the status: a text that is not a JSON array is always a parse error. */
  lemma ParseErrorWhateverStatus(status: int, responseText: string, reasonPhrase: string, decoded: DecodeResult)
    requires !IsArrayResponse(decoded)
    ensures Classify(status, responseText, reasonPhrase, decoded)
      == ApiError(Errors.LinePayError(PARSE_ERROR, PARSE_ERROR_MESSAGE, status, Some(responseText)))
    ensures !Classify(status, responseText, reasonPhrase, decoded).error.IsAuthError()
  {
    Errors.ErrorClassByLeadingDigit(Classify(status, responseText, reasonPhrase, decoded).error);
  }

  /** The responses of the client's tests and what they become. */
  lemma ClassifyExamples(info: PhpValue)
    ensures var ok := map[StrKey("returnCode") := Str("0000"), StrKey("returnMessage") := Str("OK"),
                          StrKey("info") := info];
      Classify(200, "ok-text", "OK", Decoded(Arr(ok))) == Success(ok)
    ensures var auth := map[StrKey("returnCode") := Str("1104"), StrKey("returnMessage") := Str("Invalid Channel ID")];
      var r := Classify(400, "auth-text", "Bad Request", Decoded(Arr(auth)));
      r == ApiError(Errors.LinePayError("1104", "Invalid Channel ID", 400, Some("auth-text"))) && r.error.IsAuthError()
    ensures var bad := map[StrKey("returnCode") := Str("1199"), StrKey("returnMessage") := Str("bad signature")];
      Classify(200, "t", "OK", Decoded(Arr(bad))) == ApiError(Errors.LinePayError("1199", "bad signature", 200, Some("t")))
    ensures Classify(500, "not-json", "Internal Server Error", DecodeFailed)
      == ApiError(Errors.LinePayError(PARSE_ERROR, PARSE_ERROR_MESSAGE, 500, Some("not-json")))
    ensures Classify(200, "null", "OK", Decoded(Null)).error.returnCode == PARSE_ERROR
    ensures Classify(502, "{}", "Bad Gateway", Decoded(Arr(map[])))
      == ApiError(Errors.LinePayError(HTTP_ERROR, "Bad Gateway", 502, Some("{}")))
  {
    var auth := map[StrKey("returnCode") := Str("1104"), StrKey("returnMessage") := Str("Invalid Channel ID")];
    Errors.ErrorClassByLeadingDigit(Classify(400, "auth-text", "Bad Request", Decoded(Arr(auth))).error);
  }

  // ---------------------------------------------------------------------
  // Transport failures
  // ---------------------------------------------------------------------

  /** Whether a connection failure's message reads as a timeout. */
  predicate IsTimeoutMessage(message: string) {
    Contains(message, "timed out") || Contains(message, "timeout")
  }

  /**
   * A connection failure whose message mentions "timed out" or "timeout"
   * becomes a timeout error naming the client's timeout and the full URL;
   * any other connection failure is passed on unchanged.
   */
  function ConnectFailureOutcome(message: string, timeout: int, url: string): (r: ApiOutcome)
    ensures r.Timeout? <==> IsTimeoutMessage(message)
    ensures r.Timeout? ==> r.timeoutError.timeout == timeout && r.timeoutError.url == Some(url)
    ensures !r.Timeout? ==> r == Rethrow(ConnectFailure(message))
  {
    if IsTimeoutMessage(message) then Timeout(Errors.NewLinePayTimeoutError(timeout, Some(url)))
    else Rethrow(ConnectFailure(message))
  }

  /** A string lacking one of the characters of `needle` does not contain it. */
  lemma NotContainsMissingChar(s: string, needle: string, j: nat)
    requires j < |needle| && needle[j] !in s
    ensures !Contains(s, needle)
  {
    if Contains(s, needle) {
      var i := ContainsWitness(s, needle);
    }
  }

  /** Messages of the kind cURL reports are timeouts. */
  lemma TimeoutMessages()
    ensures IsTimeoutMessage("cURL error 28: Operation timed out")
    ensures IsTimeoutMessage("Connection timeout")
  {
    ContainsAt("cURL error 28: Operation timed out", "timed out", 25);
    ContainsAt("Connection timeout", "timeout", 11);
  }

  /** A failure to resolve the host is passed on unchanged. */
  lemma OtherConnectFailure(timeout: int, url: string)
    ensures ConnectFailureOutcome("Could not resolve host", timeout, url) == Rethrow(ConnectFailure("Could not resolve host"))
  {
    NotContainsMissingChar("Could not resolve host", "timed out", 2);
    NotContainsMissingChar("Could not resolve host", "timeout", 2);
  }

  /** What a reply becomes, whatever request it answers. */
  function ReplyOutcome(reply: TransportReply, jsonDecode: string -> DecodeResult, timeout: int, url: string): (r: ApiOutcome)
    ensures reply.Response? ==> r == Classify(reply.status, reply.text, reply.reasonPhrase, jsonDecode(reply.text))
    ensures reply.ConnectFailure? ==> r == ConnectFailureOutcome(reply.message, timeout, url)
    ensures reply.OtherFailure? ==> r == Rethrow(reply)
    ensures r.Timeout? ==> reply.ConnectFailure?
  {
    match reply
    case Response(status, text, reasonPhrase) => Classify(status, text, reasonPhrase, jsonDecode(text))
    case ConnectFailure(message) => ConnectFailureOutcome(message, timeout, url)
    case OtherFailure(_) => Rethrow(reply)
  }

  // ---------------------------------------------------------------------
  // Request assembly
  // ---------------------------------------------------------------------

  /** `$body !== null ? json_encode($body, JSON_UNESCAPED_UNICODE) : ''` */
  function BodyString(jsonEncode: PhpArray -> EncodeResult, body: Option<PhpArray>): (s: EncodeResult)
    ensures body.None? ==> s == Encoded("")
    ensures body.Some? ==> s == jsonEncode(body.value)
  {
    if body.Some? then jsonEncode(body.value) else Encoded("")
  }

  /**
   * `$bodyString ?: ''`, the body that is signed: a failed encoding, like
   * every other falsy string ("" and "0"), is signed as "".
   */
  function SignedBody(bodyString: EncodeResult): (s: string)
    ensures bodyString.Encoded? && bodyString.json != "" && bodyString.json != "0" ==> s == bodyString.json
    ensures bodyString.EncodeFailed? || bodyString.json == "" || bodyString.json == "0" ==> s == ""
  {
    if bodyString.Encoded? && bodyString.json != "0" then bodyString.json else ""
  }

  /** The headers every request carries, in this order. */
  function AuthHeaders(channelId: string, nonce: string, signature: string): (h: Assoc)
    ensures |h| == 4
    ensures Lookup(h, "Content-Type") == Some("application/json")
    ensures Lookup(h, "X-LINE-ChannelId") == Some(channelId)
    ensures Lookup(h, "X-LINE-Authorization-Nonce") == Some(nonce)
    ensures Lookup(h, "X-LINE-Authorization") == Some(signature)
    ensures NoDuplicateKeys(h)
  {
    var h := [("Content-Type", "application/json"),
              ("X-LINE-ChannelId", channelId),
              ("X-LINE-Authorization-Nonce", nonce),
              ("X-LINE-Authorization", signature)];
    assert h[1..][1..] == h[2..] && h[2..][1..] == h[3..];
    assert Lookup(h[3..], "X-LINE-Authorization") == Some(signature);
    assert Lookup(h[2..], "X-LINE-Authorization") == Lookup(h[3..], "X-LINE-Authorization");
    assert Lookup(h[1..], "X-LINE-Authorization") == Lookup(h[2..], "X-LINE-Authorization");
    assert Lookup(h[1..], "X-LINE-Authorization-Nonce") == Lookup(h[2..], "X-LINE-Authorization-Nonce");
    h
  }

  /**
   * The headers sent: the authentication headers, with the additional
   * headers merged over them by `array_merge`. The authentication headers
   * keep their places, an additional header of the same name replaces the
   * value of one of them, the other additional headers follow in their own
   * order, and nothing else is added.
   */
  function RequestHeaders(auth: Assoc, additionalHeaders: Option<Assoc>): (h: Assoc)
    ensures additionalHeaders.None? ==> h == auth
    ensures |auth| <= |h|
    ensures forall i :: 0 <= i < |auth| ==> h[i].0 == auth[i].0
    ensures var extra := if additionalHeaders.Some? then additionalHeaders.value else [];
      forall i :: 0 <= i < |auth| ==>
        h[i].1 == if HasKey(extra, auth[i].0) then Lookup(extra, auth[i].0).value else auth[i].1
    ensures additionalHeaders.Some? ==> h[|auth|..] == Appended(additionalHeaders.value, auth)
    ensures var extra := if additionalHeaders.Some? then additionalHeaders.value else [];
      forall k :: Lookup(h, k) == if HasKey(extra, k) then Lookup(extra, k) else Lookup(auth, k)
    ensures NoDuplicateKeys(auth) && (additionalHeaders.Some? ==> NoDuplicateKeys(additionalHeaders.value))
      ==> NoDuplicateKeys(h)
  {
    if additionalHeaders.Some? then ArrayMerge(auth, additionalHeaders.value) else auth
  }

  // ---------------------------------------------------------------------
  // The client
  // ---------------------------------------------------------------------

  /**
   * A client for one channel. Its settings are read-only once it is
   * built, and a built client has passed ValidateConfig.
   */
  class LinePayBaseClient {
    const channelId: string
    const channelSecret: string
    const baseUrl: string
    const timeout: int

    /** What the constructor guarantees of every client. */
    ghost predicate Valid() {
      && channelId != ""
      && channelSecret != ""
      && timeout > 0
      && (baseUrl == Env.BASE_URL_PRODUCTION || baseUrl == Env.BASE_URL_SANDBOX)
    }

    /** `new LinePayBaseClient($config)` for a configuration it accepts. */
    constructor (config: Config.LinePayConfig)
      requires ValidateConfig(config).None?
      ensures Valid()
      ensures channelId == config.channelId && channelSecret == config.channelSecret
      ensures baseUrl == config.GetBaseUrl() && timeout == config.timeout
    {
      channelId := config.channelId;
      channelSecret := config.channelSecret;
      baseUrl := config.GetBaseUrl();
      timeout := config.timeout;
    }

    /** `new LinePayBaseClient($config)`, or the LinePayConfigError it throws. */
    static method Create(config: Config.LinePayConfig) returns (r: Result<LinePayBaseClient, Errors.LinePayConfigError>)
      ensures r.Err? <==> ValidateConfig(config).Some?
      ensures r.Err? ==> r.error == ValidateConfig(config).value
      ensures r.Ok? ==> fresh(r.value) && r.value.Valid()
      ensures r.Ok? ==> r.value.channelId == config.channelId && r.value.channelSecret == config.channelSecret
      ensures r.Ok? ==> r.value.baseUrl == config.GetBaseUrl() && r.value.timeout == config.timeout
    {
      var error := ValidateConfig(config);
      if error.Some? {
        return Err(error.value);
      }
      var client := new LinePayBaseClient(config);
      return Ok(client);
    }

    /** `getChannelId()`: the configured, trimmed channel ID; never "" on a built client. */
    function GetChannelId(): (id: string)
      ensures id == channelId
      ensures Valid() ==> id != ""
    {
      channelId
    }

    /** `getBaseUrl()`: one of the two API hosts. */
    function GetBaseUrl(): (url: string)
      ensures url == baseUrl
      ensures Valid() ==> url == Env.BASE_URL_PRODUCTION || url == Env.BASE_URL_SANDBOX
    {
      baseUrl
    }

    /** `getTimeout()`: the configured timeout in seconds; positive on a built client. */
    function GetTimeout(): (t: int)
      ensures t == timeout
      ensures Valid() ==> t > 0
    {
      timeout
    }

    /**
     * `sendRequest`: signs the request with a fresh nonce (made from
     * `randomBytes`), sends it, and classifies what comes back.
     *
     * The signature covers the path, the query string (with its "?"), the
     * signed body and the nonce. The request goes to the path followed by
     * the query string; its headers are the four authentication headers,
     * which the additional headers are merged over, so that these win on a
     * shared name. A body is sent only with POST, and only when the body
     * string is not "".
     */
    method SendRequest(
      collaborators: Collaborators,
      randomBytes: seq<bv8>,
      httpMethod: string,
      path: string,
      body: Option<PhpArray>,
      params: Option<Assoc>,
      additionalHeaders: Option<Assoc>)
      returns (request: HttpRequest, outcome: ApiOutcome)
      requires |randomBytes| == 16
      ensures var queryString := Utils.BuildQueryString(params, collaborators.urlEncode);
        && request.httpMethod == httpMethod
        && request.baseUri == baseUrl
        && request.target == path + queryString
        && request.timeout == timeout
        && outcome == ReplyOutcome(collaborators.transport(request), collaborators.jsonDecode, timeout,
                                   baseUrl + path + queryString)
      ensures var bodyString := BodyString(collaborators.jsonEncode, body);
        && (request.body.Some? <==> httpMethod == "POST" && bodyString != Encoded(""))
        && (request.body.Some? ==> request.body.value == bodyString)
      ensures var nonce := Utils.UuidV4(randomBytes);
        var queryString := Utils.BuildQueryString(params, collaborators.urlEncode);
        var signature := Utils.GenerateSignature(collaborators.crypto, channelSecret, path,
          SignedBody(BodyString(collaborators.jsonEncode, body)), nonce, queryString);
        request.headers == RequestHeaders(AuthHeaders(channelId, nonce, signature), additionalHeaders)
    {
      var nonce := Utils.GenerateNonce(randomBytes);
      var queryString := Utils.BuildQueryString(params, collaborators.urlEncode);
      var url := path + queryString;
      assert baseUrl + url == baseUrl + path + queryString;
      var bodyString := BodyString(collaborators.jsonEncode, body);

      var signature := Utils.GenerateSignature(collaborators.crypto, channelSecret, path,
        SignedBody(bodyString), nonce, queryString);

      var headers := AuthHeaders(channelId, nonce, signature);
      if additionalHeaders.Some? {
        headers := ArrayMerge(headers, additionalHeaders.value);
      }

      var requestBody := None;
      if httpMethod == "POST" && bodyString != Encoded("") {
        requestBody := Some(bodyString);
      }

      request := HttpRequest(httpMethod, baseUrl, url, headers, requestBody, timeout);
      var reply := collaborators.transport(request);
      match reply {
        case Response(status, text, reasonPhrase) =>
          outcome := Classify(status, text, reasonPhrase, collaborators.jsonDecode(text));
        case ConnectFailure(message) =>
          if IsTimeoutMessage(message) {
            outcome := Timeout(Errors.NewLinePayTimeoutError(timeout, Some(baseUrl + url)));
          } else {
            outcome := Rethrow(reply);
          }
        case OtherFailure(_) =>
          outcome := Rethrow(reply);
      }
    }
  }

  /**
   * The nonce header holds the nonce that was signed: unless additional
   * headers replace them, the nonce header of a request is a UUID v4 and
   * its signature header verifies against the path, query string, body and
   * that same nonce.
   */
  lemma SignedNonceHeader(
    crypto: Utils.Crypto, channelId: string, channelSecret: string, randomBytes: seq<bv8>,
    path: string, queryString: string, signedBody: string, additionalHeaders: Option<Assoc>)
    requires |randomBytes| == 16
    requires additionalHeaders.Some? ==>
      !HasKey(additionalHeaders.value, "X-LINE-Authorization-Nonce") &&
      !HasKey(additionalHeaders.value, "X-LINE-Authorization")
    ensures var nonce := Utils.UuidV4(randomBytes);
      var headers := RequestHeaders(AuthHeaders(channelId, nonce,
        Utils.GenerateSignature(crypto, channelSecret, path, signedBody, nonce, queryString)), additionalHeaders);
      && Lookup(headers, "X-LINE-Authorization-Nonce") == Some(nonce)
      && |nonce| == 36 && nonce[14] == '4' && nonce[19] in {'8', '9', 'a', 'b'}
      && Lookup(headers, "X-LINE-Authorization").Some?
      && Utils.VerifySignature(crypto, channelSecret,
           Utils.SigningData(channelSecret, path, queryString, signedBody, nonce),
           Lookup(headers, "X-LINE-Authorization").value)
  {
    Utils.UuidV4Shape(randomBytes);
  }

  /** An additional header with an authentication header's name replaces it, whatever its position. */
  lemma AdditionalHeadersOverride(channelId: string, nonce: string, signature: string, extra: Assoc, name: string)
    requires HasKey(extra, name)
    ensures Lookup(RequestHeaders(AuthHeaders(channelId, nonce, signature), Some(extra)), name) == Lookup(extra, name)
    ensures Lookup(RequestHeaders(AuthHeaders(channelId, nonce, signature), Some(extra)), "Content-Type")
      == if HasKey(extra, "Content-Type") then Lookup(extra, "Content-Type") else Some("application/json")
  {
  }

  /**
   * The headers sent name no header twice, provided the additional headers
   * do not, and they are at most the four authentication headers plus the
   * additional ones.
   */
  lemma SentHeadersDistinct(channelId: string, nonce: string, signature: string, additionalHeaders: Option<Assoc>)
    requires additionalHeaders.Some? ==> NoDuplicateKeys(additionalHeaders.value)
    ensures var h := RequestHeaders(AuthHeaders(channelId, nonce, signature), additionalHeaders);
      && NoDuplicateKeys(h)
      && |h| <= 4 + (if additionalHeaders.Some? then |additionalHeaders.value| else 0)
  {
  }

  /** With no additional headers, exactly the four authentication headers are sent. */
  lemma NoAdditionalHeaders(channelId: string, nonce: string, signature: string)
    ensures RequestHeaders(AuthHeaders(channelId, nonce, signature), None) == AuthHeaders(channelId, nonce, signature)
    ensures var h := RequestHeaders(AuthHeaders(channelId, nonce, signature), None);
      [h[0].0, h[1].0, h[2].0, h[3].0]
        == ["Content-Type", "X-LINE-ChannelId", "X-LINE-Authorization-Nonce", "X-LINE-Authorization"]
  {
  }

  /** Without a body nothing is sent and "" is signed; a body the encoder turns into JSON text is sent with POST only. */
  lemma BodyOnlyWithPost(jsonEncode: PhpArray -> EncodeResult, body: Option<PhpArray>)
    ensures body.None? ==> SignedBody(BodyString(jsonEncode, body)) == "" && BodyString(jsonEncode, body) == Encoded("")
    ensures body.Some? && jsonEncode(body.value).Encoded? && jsonEncode(body.value).json !in {"", "0"} ==>
      SignedBody(BodyString(jsonEncode, body)) == jsonEncode(body.value).json &&
      BodyString(jsonEncode, body) != Encoded("")
  {
  }
}
