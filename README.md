# LINE Pay PHP client core, modelled in Dafny

This project models the core of a PHP client for the LINE Pay API. It
covers how the client builds, signs and sends an authenticated request and
how it turns the answer into a result or an exception. It also covers the
small value objects and helpers that this relies on:

- the environment table (`Env`): two API hosts and a default timeout;
- the configuration (`Config`): trimmed credentials, environment, timeout;
- the three error classes (`Errors`): API errors with their return-code
  classes, timeouts and configuration errors;
- the static helpers (`Utils`): HMAC signing and checking, the 19-digit
  transaction-ID format, query strings, the confirmation callback's query,
  and UUID-v4 nonces;
- the base client (`Client`): configuration checks, header, URL and body
  assembly, response classification and the mapping of connection failures.

`Php` holds the part of PHP that the code depends on:
- PHP values as `json_decode($text, true)` produces them;
- string-keyed arrays and `array_merge`;
- the `(string)` cast;
- `str_starts_with` and `str_contains`.

Each source file is a module. Value objects are datatypes with member
functions. The client's read-only settings are `const` fields of a class.
`generateNonce`, `parseConfirmQuery` and `sendRequest` work on their locals
step by step in the source, so here they are methods. Each method is tied
to a specification function, and that function's properties are proved as
lemmas.

Some things are parameters instead of code, because they live outside the
client:
- the 16 random bytes of a nonce;
- HMAC-SHA256 and Base64 (`Utils.Crypto`);
- `json_encode` and `json_decode`;
- the percent-encoding of `http_build_query`;
- the HTTP client, as a `transport` function from a request to a reply
  (`Client.Collaborators`).

An exception that the PHP code throws becomes a value:
- a `Result` error for the helpers;
- an `Option` error for the configuration check;
- an `ApiOutcome` variant (`ApiError`, `Timeout`, `Rethrow`) for
  `sendRequest`.

Where the code behaves otherwise than its documentation says, or than a
first reading suggests, the model follows the code:
- The doc comment of `generateSignature` (src/LinePayUtils.php:40) says
  the query string comes without a leading `?`. `sendRequest` passes the
  output of `buildQueryString`, which starts with `?`. The signed data
  therefore holds the `?` (`Client.LinePayBaseClient.SendRequest`).
- The transaction-ID pattern `/^\d{19}$/` has no `D` modifier. Its `$`
  also matches before one final newline, so the model also accepts 19
  digits followed by `"\n"` (`Utils.TransactionIdShapes`).
- A response whose JSON is a list decodes to a PHP array, so it passes the
  JSON check and is not a parse error (`Client.ListIsNotParseError`).
- Additional headers are merged after the authentication headers by
  `array_merge`, so they can replace them (`Client.AdditionalHeadersOverride`).
- A timeout is recognised by the words "timed out" or "timeout" in the
  connection failure's message, not by a dedicated error type
  (`Client.ConnectFailureOutcome`).
- With a status of 400 or more and no return message, the error message is
  the reason phrase as given, even when that is empty.

## Model

Predicates and functions that carry no contract of their own are stated by
the rows that name them: `Php.IsScalar` by `Php.ScalarToString`,
`Php.StartsWith` by `Errors.ErrorClassByLeadingDigit`, `Php.Contains` by
`Php.ContainsAt` and `Php.ContainsWitness`, the three return-code classes
`Errors.LinePayError.IsAuthError`, `IsPaymentError` and `IsInternalError` by
`Errors.ErrorClassByLeadingDigit`, `Utils.IsValidTransactionId` by
`Utils.TransactionIdShapes`, `Utils.FormatUuid` by `Utils.FormatUuidLayout`,
`Utils.UuidV4` by `Utils.UuidV4Shape` and `Utils.UuidV4Decodes`,
`Client.IsArrayResponse` by `Client.Classify`, and `Client.IsTimeoutMessage`
by `Client.ConnectFailureOutcome`.

| member | source | states |
|---|---|---|
| Php.Get | src/LinePayUtils.php:127 | `$a[$k] ?? null`: the stored value when the key is present, null otherwise |
| Php.IntToString | src/Errors/LinePayTimeoutError.php:38 | an int's canonical decimal text: digits only when non-negative, "-" and digits when negative, no leading zero except for "0" itself, never "-0" |
| Php.IntToStringRoundTrip | src/Errors/LinePayTimeoutError.php:38 | the decimal text of an int reads back as the same int through `Php.ParseInt`, a reference inverse defined independently |
| Php.ScalarToString | src/LinePayUtils.php:139-147 | `(string)` of a scalar (`is_scalar`: bool, int or string): a string unchanged, true as "1", false as "", an int as its canonical decimal text (IntToString), which parses back to it |
| Php.ContainsWitness | src/LinePayBaseClient.php:184 | when `str_contains` holds, the needle occurs at some position |
| Php.ContainsAt | src/LinePayBaseClient.php:184 | a needle that occurs at some position is contained |
| Php.ArrayMerge | src/LinePayBaseClient.php:128-130 | `array_merge` on string keys: the first array's entries keep their positions and take the second array's value where it has the key; after them come exactly the second array's entries with new keys, in its order (Appended); a key is present iff either array has it, the second array's value wins, and no key repeats when neither array repeats one |
| Php.Overwritten | src/LinePayBaseClient.php:128-130 | the first array's keys in place, each value taken from the second array when it has the key |
| Php.Appended | src/LinePayBaseClient.php:128-130 | holds exactly the second array's entries whose keys the first lacks, no more of them than the second array has |
| Php.AppendedConcat | src/LinePayBaseClient.php:128-130 | the appended entries of a concatenation are those of each part, one after the other, so the second array's order is kept |
| Php.AppendedSingle | src/LinePayBaseClient.php:128-130 | one entry is appended exactly when the first array lacks its key |
| Env.GetBaseUrl | src/Config/Env.php:37-43 | always one of the two hosts; production iff the environment is exactly "production", sandbox for every other string |
| Env.KnownEnvironments | tests/ConfigTest.php:16-42 | the hosts for "production", "sandbox" and "unknown", as the tests expect, and a default timeout of 20; also "Production", which the case-sensitive `match` of src/Config/Env.php:39-41 sends to the sandbox host |
| Config.Trim | src/Config/LinePayConfig.php:61-62 | `trim`: the infix left after stripping " \t\n\r\0\x0B" at both ends; empty iff the input holds only those characters, and otherwise neither starts nor ends with one |
| Config.TrimIdempotent | src/Config/LinePayConfig.php:61-62 | trimming a trimmed credential changes nothing |
| Config.NewLinePayConfig | src/Config/LinePayConfig.php:55-65 | credentials stored trimmed (empty iff all whitespace); environment and timeout stored verbatim, defaulting to "sandbox" and 20 |
| Config.LinePayConfig.GetBaseUrl | src/Config/LinePayConfig.php:72-75 | the production host iff the stored environment is "production", the sandbox host otherwise |
| Config.ConfigExamples | tests/ConfigTest.php:44-88 | the defaults, a zero timeout accepted as is, and the production host |
| Config.TrimExample | tests/ConfigTest.php:70-79 | "  test-id  " is stored as "test-id" |
| Errors.LinePayError.Message | src/Errors/LinePayError.php:70 | the message is "LINE Pay API Error [" + code + "]: " + message, piece by piece |
| Errors.LinePayError.ToArray | src/Errors/LinePayError.php:140-150 | exactly the six keys, name "LinePayError", and the other five mirroring the error (rawResponse null when absent) |
| Errors.NewLinePayError | src/Errors/LinePayError.php:59-68 | the getters give back the arguments; the status defaults to 0 and the raw response to null |
| Errors.FromArray | src/Errors/LinePayError.php:140-150 | a reference inverse of toArray (used by ToArrayRoundTrip): code, message and status come from the matching keys |
| Errors.ToArrayRoundTrip | src/Errors/LinePayError.php:140-150 | reading back the array of any error gives that error |
| Errors.ErrorClassByLeadingDigit | src/Errors/LinePayError.php:110-133 | `isAuthError`, `isPaymentError` and `isInternalError` (`str_starts_with`) hold exactly for the codes whose first character is 1, 2 and 9 |
| Errors.ErrorClassesExclusive | src/Errors/LinePayError.php:110-133 | at most one of the three classes holds for any code |
| Errors.SyntheticCodesUnclassified | src/Errors/LinePayError.php:110-133 | "", HTTP_ERROR, PARSE_ERROR and UNKNOWN_ERROR belong to no class |
| Errors.ErrorExamples | tests/ErrorsTest.php:18-84 | the classes of 1104, 2101 and 9000, toArray's raw response, the status default, a timeout without URL and its message |
| Errors.LinePayTimeoutError.Message | src/Errors/LinePayTimeoutError.php:38 | "Request timeout after " + the timeout's canonical decimal text (IntToString) + "s"; the number between reads back as the timeout |
| Errors.NewLinePayTimeoutError | src/Errors/LinePayTimeoutError.php:33-36 | the getters give back the timeout and the URL, null when omitted |
| Utils.SigningData | src/LinePayUtils.php:51 | the signed data is secret, URI, query string, body and nonce, concatenated in that order |
| Utils.GenerateSignature | src/LinePayUtils.php:44-54 | Base64 of the HMAC keyed by the secret over the signing data, with the query string (default "") in third place whatever the parameter order |
| Utils.VerifySignature | src/LinePayUtils.php:65-70 | true iff the signature equals the Base64 HMAC of the data |
| Utils.VerifyGeneratedSignature | tests/LinePayUtilsTest.php:43-52 | a generated signature verifies against its signing data |
| Utils.VerifyRejectsOtherSignatures | tests/LinePayUtilsTest.php:54-62 | every other signature is refused |
| Utils.QueryStringIsSigned | src/LinePayUtils.php:51 | a non-empty query string changes the signed data |
| Utils.TransactionIdShapes | src/LinePayUtils.php:24 | `IsValidTransactionId`, the pattern, accepts exactly 19 ASCII digits, optionally followed by one final newline |
| Utils.ValidateTransactionId | src/LinePayUtils.php:79-86 | fails iff the ID is invalid, with a message starting "Invalid transactionId format" |
| Utils.TransactionIdExamples | tests/LinePayUtilsTest.php:64-92 | the valid and invalid IDs of the tests |
| Utils.EncodedPairs | src/LinePayUtils.php:113 | one `key=value` piece per parameter, in order, each side encoded |
| Utils.BuildQueryString | src/LinePayUtils.php:107-114 | "" iff the parameters are null or empty; otherwise starts with "?" |
| Utils.QueryStringPairs | src/LinePayUtils.php:113 | after the "?", splitting at "&" gives back exactly the encoded pairs, in order, when the encoder never emits "&" |
| Utils.QueryStringExamples | tests/LinePayUtilsTest.php:94-120 | `foo=bar&baz=qux` after "?", and "" for an empty array or null |
| Utils.FirstIfArray | src/LinePayUtils.php:130-132 | an array parameter stands for its element at key 0 (null when missing); other values stand for themselves |
| Utils.ConfirmQuery | src/LinePayUtils.php:125-151 | an error iff the (first) transactionId is missing, null or ""; otherwise a transactionId key holding the scalar's `(string)` cast ("" for a non-scalar), an orderId key exactly when that value is non-null, non-empty and scalar, holding its `(string)` cast, and no other key |
| Utils.ParseConfirmQuery | src/LinePayUtils.php:125-151 | the step-by-step method computes ConfirmQuery |
| Utils.ArrayWrappedParameters | tests/LinePayUtilsTest.php:150-164 | wrapping both parameters in one-element lists gives the same result |
| Utils.ConfirmQueryKeepsStrings | tests/LinePayUtilsTest.php:122-148 | a non-empty string transactionId comes back unchanged |
| Utils.ConfirmQueryExamples | tests/LinePayUtilsTest.php:122-180 | the callback queries of the tests, plus a false flag (cast to "") and an array without key 0 (missing) |
| Utils.Bin2Hex | src/LinePayUtils.php:169 | `bin2hex`: two lower-case hexadecimal digits per byte |
| Utils.HexRoundTrip | src/LinePayUtils.php:169 | decoding the hexadecimal form of any bytes with `Utils.Hex2Bin`, a reference inverse, gives them back |
| Utils.StrSplit | src/LinePayUtils.php:169 | `str_split`: non-empty pieces that, written one after another, give the string back, each of exactly n characters except the last, which has at most n |
| Utils.StrSplit32 | src/LinePayUtils.php:169 | 32 digits split into eight pieces of four, in order |
| Utils.WithVersionBits | src/LinePayUtils.php:163-166 | byte 6 gets version 0100 in its high nibble and byte 8 the variant bits 10, keeping their other bits; the other 14 bytes are unchanged |
| Utils.FormatUuidLayout | src/LinePayUtils.php:169 | `FormatUuid` has the 8-4-4-4-12 layout: dashes at 8, 13, 18 and 23, the digits in order elsewhere, and removing the dashes gives the digits back |
| Utils.UuidV4Shape | tests/LinePayUtilsTest.php:182-190 | a `UuidV4` nonce has 36 characters, dashes at 8, 13, 18 and 23, lower-case hexadecimal elsewhere, 4 at index 14, one of 8, 9, a and b at index 19 |
| Utils.UuidV4Decodes | src/LinePayUtils.php:158-170 | decoding the nonce's digits gives the random bytes with only the version and variant bits changed |
| Utils.GenerateNonce | src/LinePayUtils.php:158-170 | the method overwriting bytes 6 and 8 and formatting the result computes UuidV4 of the random bytes |
| Client.ValidateConfig | src/LinePayBaseClient.php:64-72 | no error iff the ID and secret are non-empty and the timeout positive; otherwise the first failing check's message, in the order ID, secret, timeout |
| Client.WhitespaceCredentialRejected | tests/LinePayBaseClientTest.php:86-97 | a whitespace-only channel ID is trimmed to "" and refused with the channel-ID message |
| Client.ConfigValidationExamples | tests/LinePayBaseClientTest.php:73-138 | the messages for an empty ID, an empty secret, a zero or negative timeout, and acceptance of a valid configuration |
| Client.StringField | src/LinePayBaseClient.php:157-162 | a field is its value when that is set and a string, and "" otherwise |
| Client.Classify | src/LinePayBaseClient.php:146-182 | success iff the body is a JSON array (IsArrayResponse), the status is below 400 and the code is "0000", returning the decoded array unchanged; every error carries the status and raw text and a non-empty code; a parse error otherwise; the HTTP_ERROR/reason-phrase fallbacks from 400 up; the UNKNOWN_ERROR/"Unknown error" fallbacks below |
| Client.HttpStatusCheckedFirst | src/LinePayBaseClient.php:164-171 | a status of 400 or more is an error even when the body says "0000" |
| Client.ListIsNotParseError | src/LinePayBaseClient.php:148 | a JSON list passes the JSON check and, below 400, is an UNKNOWN_ERROR |
| Client.NonStringFieldsIgnored | src/LinePayBaseClient.php:157-162 | a non-string returnCode or returnMessage classifies as if it were absent |
| Client.ParseErrorWhateverStatus | src/LinePayBaseClient.php:148-155 | a body that is not a JSON array is a PARSE_ERROR with "Failed to parse response as JSON" at any status, and not an auth error |
| Client.ClassifyExamples | src/LinePayBaseClient.php:146-182 | success with the whole body, an auth-class 1104 at 400, a 1199 error at 200, a parse error for "not-json" at 500 and for null, and HTTP_ERROR with the reason phrase |
| Client.ConnectFailureOutcome | src/LinePayBaseClient.php:183-187 | a timeout iff the message contains (IsTimeoutMessage) "timed out" or "timeout", carrying the client's timeout and the full URL; otherwise the failure is passed on unchanged |
| Client.TimeoutMessages | src/LinePayBaseClient.php:184 | cURL's "Operation timed out" and "Connection timeout" read as timeouts |
| Client.OtherConnectFailure | src/LinePayBaseClient.php:187 | "Could not resolve host" is passed on unchanged |
| Client.ReplyOutcome | src/LinePayBaseClient.php:140-193 | a response is classified, a connection failure mapped, any other exception passed on; only a connection failure becomes a timeout |
| Client.BodyString | src/LinePayBaseClient.php:111 | the JSON encoding of the body, or "" when there is none |
| Client.SignedBody | src/LinePayBaseClient.php:116 | `?: ''`: the encoding is signed unless it failed, is "" or is "0", which are signed as "" |
| Client.AuthHeaders | src/LinePayBaseClient.php:121-126 | four headers: Content-Type application/json, the channel ID, the nonce and the signature, no name twice |
| Client.RequestHeaders | src/LinePayBaseClient.php:121-130 | without additional headers, exactly the authentication headers; otherwise these keep their positions, an additional header of the same name replaces the value of one, and after them come exactly the other additional headers, in their order; no name repeats when neither list repeats one |
| Client.SentHeadersDistinct | src/LinePayBaseClient.php:121-130 | the headers sent name no header twice when the additional headers do not, and number at most four plus the additional ones |
| Client.LinePayBaseClient.constructor | src/LinePayBaseClient.php:62-77 | a client built from an accepted configuration stores its ID, secret, base URL and timeout |
| Client.LinePayBaseClient.Create | src/LinePayBaseClient.php:62-77 | an error iff ValidateConfig reports one, with that message; otherwise a new client with the configuration's settings |
| Client.LinePayBaseClient.GetChannelId | src/LinePayBaseClient.php:199-202 | the stored channel ID, never "" on a built client |
| Client.LinePayBaseClient.GetBaseUrl | src/LinePayBaseClient.php:207-210 | the stored base URL, one of the two hosts on a built client |
| Client.LinePayBaseClient.GetTimeout | src/LinePayBaseClient.php:217-220 | the stored timeout, positive on a built client |
| Client.LinePayBaseClient.SendRequest | src/LinePayBaseClient.php:101-194 | the target is path + query string; the headers are the four authentication headers, carrying the signature over path, query string, signed body and the nonce made from the random bytes, with the additional headers merged over them; a body is sent iff the method is POST and the body string is not ""; the outcome is what ReplyOutcome makes of the transport's reply, with the timeout URL base URL + path + query string |
| Client.SignedNonceHeader | src/LinePayBaseClient.php:108-126 | unless replaced, the nonce header is a UUID v4 and the signature header verifies against the signing data built with that same nonce |
| Client.AdditionalHeadersOverride | src/LinePayBaseClient.php:128-130 | an additional header replaces the authentication header of the same name |
| Client.NoAdditionalHeaders | src/LinePayBaseClient.php:121-126 | without additional headers, exactly the four authentication headers are sent, in order |
| Client.BodyOnlyWithPost | src/LinePayBaseClient.php:111-138 | without a body, "" is signed and no body is sent; a successfully encoded body is signed as its JSON text |

## Left out

- The HTTP client is not modelled. That covers its construction with `base_uri`, `timeout`, `connect_timeout` and `http_errors` (src/LinePayBaseClient.php:79-84) and the dispatch of a request. The request carries the base URI and timeout it would be given; the network is the `transport` parameter.
- Client.LinePayBaseClient.SendRequest: the unwrapping of a `RequestException` whose previous exception is a LinePayError (src/LinePayBaseClient.php:188-192) is not modelled. Every failure other than a connection failure is `Rethrow` of the reply.
- Utils.VerifySignature: `hash_equals` is plain equality here. Its constant running time cannot be stated.
- HMAC-SHA256, Base64, `json_encode`, `json_decode`, `http_build_query`'s percent-encoding and `random_bytes` are parameters, not definitions. The JSON error of `json_last_error` is the `DecodeFailed` case.
- Utils.GenerateNonce: the random bytes are a parameter. That nonces are unique across calls is a probabilistic property and is not stated.
- Php.PhpValue has no floats. A float `transactionId` or `orderId` and its `(string)` cast are not modelled.
- Php.ArrayKey does not normalise decimal-integer string keys ("0" to the int key 0), so a StrKey("0") can occur; `Utils.FirstIfArray` then finds no element at key 0.
- Php.ArrayMerge models string keys only. PHP turns integer-like string keys into int keys, and `array_merge` renumbers those.
- Client.BodyString: the request body is a `PhpArray`, a map, so the insertion order of its keys is not modelled. `json_encode` writes the keys in that order, and the signed body and the sent body are that text. Two bodies with the same entries in different orders are therefore one value here, while PHP signs and sends different text. The encoder parameter sees only the map.
- Errors.LinePayError.ToArray and Utils.ConfirmQuery return maps too, so the fixed key order of `toArray` (src/Errors/LinePayError.php:142-149) and the transactionId-before-orderId order of `parseConfirmQuery` (src/LinePayUtils.php:139-147) are not modelled. Their key sets and values are.
- PHP arrays decoded from JSON are maps here, so the order of their entries is not modelled. Headers and query parameters are ordered sequences.
- Php.Lookup reads the first entry for a key. A PHP array never holds a key twice.
- Config.Trim works on characters. PHP's `trim` works on bytes; the two agree on the ASCII characters it strips.
- LinePayConfigError is only a message holder (`Errors.LinePayConfigError`). LinePayValidationError has no logic and is not part of this model.
- `validateTransactionId` and `parseConfirmQuery` throw `InvalidArgumentException`. Here they return an error string instead.
