/**
 * The static helpers of the client: request signing and signature checks,
 * the transaction-ID format, query strings, the confirmation callback's
 * query and UUID-v4 nonces.
 */
module Utils {
  import opened Php

  // ---------------------------------------------------------------------
  // Signing
  // ---------------------------------------------------------------------

  /**
   * The cryptographic primitives, which this model does not look into:
   * `hash_hmac('sha256', data, key, true)` as `hmacSha256(key, data)` and
   * `base64_encode`.
   */
  datatype Crypto = Crypto(
    hmacSha256: (string, string) -> seq<bv8>,
    base64Encode: seq<bv8> -> string)

  /**
   * The string that is signed: the secret, the URI path, the query string,
   * the body and the nonce, concatenated in this order.
   */
  function SigningData(secret: string, uri: string, queryString: string, body: string, nonce: string): (d: string)
    ensures |d| == |secret| + |uri| + |queryString| + |body| + |nonce|
    ensures var a := |secret|; var b := a + |uri|; var c := b + |queryString|; var e := c + |body|;
      && d[..a] == secret && d[a..b] == uri && d[b..c] == queryString
      && d[c..e] == body && d[e..] == nonce
  {
    secret + uri + queryString + body + nonce
  }

  /**
   * `generateSignature`: Base64 of the HMAC-SHA256, keyed by the secret,
   * of the signing data. The query string comes last among the parameters
   * and defaults to "", but it is signed between the URI and the body.
   */
  function GenerateSignature(
    crypto: Crypto, secret: string, uri: string, body: string, nonce: string,
    queryString: string := ""): (signature: string)
    ensures signature == crypto.base64Encode(crypto.hmacSha256(secret, SigningData(secret, uri, queryString, body, nonce)))
  {
    crypto.base64Encode(crypto.hmacSha256(secret, secret + uri + queryString + body + nonce))
  }

  /**
   * `verifySignature`: whether `signature` is the Base64 HMAC of `data`.
   * `hash_equals` is plain string equality here; its constant running time
   * is not modelled.
   */
  function VerifySignature(crypto: Crypto, secret: string, data: string, signature: string): (ok: bool)
    ensures ok <==> signature == crypto.base64Encode(crypto.hmacSha256(secret, data))
  {
    crypto.base64Encode(crypto.hmacSha256(secret, data)) == signature
  }

  /** A signature made by GenerateSignature passes VerifySignature on the same signing data. */
  lemma VerifyGeneratedSignature(crypto: Crypto, secret: string, uri: string, body: string, nonce: string, queryString: string)
    ensures VerifySignature(crypto, secret, SigningData(secret, uri, queryString, body, nonce),
                            GenerateSignature(crypto, secret, uri, body, nonce, queryString))
  {
  }

  /** Any other signature is refused. */
  lemma VerifyRejectsOtherSignatures(crypto: Crypto, secret: string, data: string, signature: string)
    requires signature != crypto.base64Encode(crypto.hmacSha256(secret, data))
    ensures !VerifySignature(crypto, secret, data, signature)
  {
  }

  /**
   * A non-empty query string changes the signed data, so the signature
   * covers it (that the HMAC then differs is a property of HMAC-SHA256).
   */
  lemma QueryStringIsSigned(secret: string, uri: string, body: string, nonce: string, queryString: string)
    requires queryString != ""
    ensures SigningData(secret, uri, queryString, body, nonce) != SigningData(secret, uri, "", body, nonce)
  {
  }

  // ---------------------------------------------------------------------
  // Transaction IDs
  // ---------------------------------------------------------------------

  /**
   * `isValidTransactionId`: the PCRE pattern `/^\d{19}$/` (no `D` modifier)
   * matches. `^` anchors at the start, `\d{19}` takes exactly 19 ASCII
   * digits, and `$` holds at the end of the subject or just before a
   * newline that ends it.
   */
  predicate IsValidTransactionId(s: string) {
    |s| >= 19 && AllDigits(s[..19]) && (|s| == 19 || (|s| == 20 && s[19] == '\n'))
  }

  /** The pattern accepts 19 digits, and 19 digits followed by one final newline. */
  lemma TransactionIdShapes(s: string)
    ensures IsValidTransactionId(s) <==>
      (|s| == 19 && AllDigits(s)) || (|s| == 20 && AllDigits(s[..19]) && s[19] == '\n')
  {
    if |s| == 19 { assert s[..19] == s; }
  }

  const INVALID_TRANSACTION_ID := "Invalid transactionId format"

  /** `validateTransactionId`: throws InvalidArgumentException exactly for an invalid ID. */
  function ValidateTransactionId(transactionId: string): (r: Result<(), string>)
    ensures r.Ok? <==> IsValidTransactionId(transactionId)
    ensures r.Err? ==> StartsWith(r.error, INVALID_TRANSACTION_ID)
  {
    if IsValidTransactionId(transactionId) then Ok(())
    else
      var msg := INVALID_TRANSACTION_ID + ": expected 19-digit number, got \"" + transactionId + "\"";
      assert msg[..|INVALID_TRANSACTION_ID|] == INVALID_TRANSACTION_ID;
      Err(msg)
  }

  /** The IDs checked in the helpers' tests. */
  lemma TransactionIdExamples()
    ensures IsValidTransactionId("1234567890123456789")
    ensures !IsValidTransactionId("12345")
    ensures !IsValidTransactionId("12345678901234567890")
    ensures !IsValidTransactionId("123456789012345678a")
    ensures !IsValidTransactionId("")
    ensures IsValidTransactionId("1234567890123456789\n")
  {
    assert "1234567890123456789\n"[..19] == "1234567890123456789";
    assert "123456789012345678a"[..19] == "123456789012345678a";
    assert "123456789012345678a"[18] == 'a';
  }

  // ---------------------------------------------------------------------
  // Query strings
  // ---------------------------------------------------------------------

  /** `implode(sep, parts)` */
  function Join(parts: seq<string>, sep: char): string
    decreases |parts|
  {
    if |parts| == 0 then ""
    else if |parts| == 1 then parts[0]
    else parts[0] + [sep] + Join(parts[1..], sep)
  }

  /** `explode(sep, s)`: the pieces between the separators; never empty. */
  function Split(s: string, sep: char): (parts: seq<string>)
    ensures |parts| >= 1
    decreases |s|
  {
    if s == [] then [""]
    else
      var rest := Split(s[1..], sep);
      if s[0] == sep then [""] + rest else [[s[0]] + rest[0]] + rest[1..]
  }

  lemma {:induction false} SplitWithout(x: string, sep: char)
    requires sep !in x
    ensures Split(x, sep) == [x]
    decreases |x|
  {
    if x != [] {
      SplitWithout(x[1..], sep);
      assert [x[0]] + x[1..] == x;
    }
  }

  lemma {:induction false} SplitAfter(x: string, sep: char, y: string)
    requires sep !in x
    ensures Split(x + [sep] + y, sep) == [x] + Split(y, sep)
    decreases |x|
  {
    var s := x + [sep] + y;
    if x == [] {
      assert s[1..] == y;
    } else {
      assert s[1..] == x[1..] + [sep] + y;
      SplitAfter(x[1..], sep, y);
      assert [x[0]] + x[1..] == x;
    }
  }

  /** Splitting a join gives the parts back when no part holds the separator. */
  lemma {:induction false} SplitJoin(parts: seq<string>, sep: char)
    requires |parts| >= 1
    requires forall i :: 0 <= i < |parts| ==> sep !in parts[i]
    ensures Split(Join(parts, sep), sep) == parts
    decreases |parts|
  {
    if |parts| == 1 {
      SplitWithout(parts[0], sep);
    } else {
      SplitJoin(parts[1..], sep);
      SplitAfter(parts[0], sep, Join(parts[1..], sep));
    }
  }

  /** The `key=value` pieces of `http_build_query`, each side URL-encoded. */
  function EncodedPairs(params: Assoc, urlEncode: string -> string): (pairs: seq<string>)
    ensures |pairs| == |params|
    ensures forall i :: 0 <= i < |params| ==>
      pairs[i] == urlEncode(params[i].0) + "=" + urlEncode(params[i].1)
  {
    seq(|params|, i requires 0 <= i < |params| => urlEncode(params[i].0) + "=" + urlEncode(params[i].1))
  }

  /**
   * `buildQueryString`: "" for null or an empty array; otherwise "?"
   * followed by the encoded `key=value` pairs joined by "&". The exact
   * percent-encoding of `http_build_query` is the `urlEncode` parameter.
   */
  function BuildQueryString(params: Option<Assoc>, urlEncode: string -> string): (queryString: string)
    ensures queryString == "" <==> params.None? || |params.value| == 0
    ensures queryString != "" ==> queryString[0] == '?'
  {
    if params.None? || |params.value| == 0 then ""
    else "?" + Join(EncodedPairs(params.value, urlEncode), '&')
  }

  /**
   * When the encoder never emits "&" (as `urlencode`, which writes it as
   * %26), the text after "?" splits at "&" into exactly the pairs, in order.
   */
  lemma QueryStringPairs(params: Assoc, urlEncode: string -> string)
    requires |params| > 0
    requires forall s :: '&' !in urlEncode(s)
    ensures var q := BuildQueryString(Some(params), urlEncode);
      Split(q[1..], '&') == EncodedPairs(params, urlEncode)
  {
    var pairs := EncodedPairs(params, urlEncode);
    forall i | 0 <= i < |pairs| ensures '&' !in pairs[i] {
      var k, v := urlEncode(params[i].0), urlEncode(params[i].1);
      assert pairs[i] == k + "=" + v;
      assert '&' !in k && '&' !in v;
    }
    SplitJoin(pairs, '&');
    assert BuildQueryString(Some(params), urlEncode)[1..] == Join(pairs, '&');
  }

  /** The query strings of the helpers' tests, with an encoder that leaves plain words alone. */
  lemma QueryStringExamples(urlEncode: string -> string)
    requires urlEncode("foo") == "foo" && urlEncode("bar") == "bar"
    requires urlEncode("baz") == "baz" && urlEncode("qux") == "qux"
    ensures BuildQueryString(Some([("foo", "bar"), ("baz", "qux")]), urlEncode) == "?foo=bar&baz=qux"
    ensures BuildQueryString(Some([]), urlEncode) == ""
    ensures BuildQueryString(None, urlEncode) == ""
  {
    var params := [("foo", "bar"), ("baz", "qux")];
    var pairs := EncodedPairs(params, urlEncode);
    assert pairs[0] == "foo=bar" by {
      assert pairs[0] == urlEncode(params[0].0) + "=" + urlEncode(params[0].1);
    }
    assert pairs[1] == "baz=qux" by {
      assert pairs[1] == urlEncode(params[1].0) + "=" + urlEncode(params[1].1);
    }
    assert pairs[1..] == ["baz=qux"];
    assert Join(pairs, '&') == "foo=bar" + "&" + "baz=qux";
  }

  // ---------------------------------------------------------------------
  // Confirmation callback query
  // ---------------------------------------------------------------------

  const MISSING_TRANSACTION_ID := "Missing transactionId in callback query"

  /** A parameter that a framework gave as an array stands for its element at key 0. */
  function FirstIfArray(v: PhpValue): (w: PhpValue)
    ensures v.Arr? ==> w == Get(v.entries, IntKey(0))
    ensures !v.Arr? ==> w == v
  {
    if v.Arr? then Get(v.entries, IntKey(0)) else v
  }

  /**
   * What `parseConfirmQuery` returns or throws: an error when the
   * transactionId (first element if an array) is missing, null or "";
   * otherwise a map with the key "transactionId" (its string value, or "" for
   * a non-scalar) and the key "orderId" exactly when that value is present,
   * not "" and scalar.
   */
  function ConfirmQuery(query: PhpArray): (r: Result<map<string, string>, string>)
    ensures var t := FirstIfArray(Get(query, StrKey("transactionId")));
      r.Err? <==> t == Null || t == Str("")
    ensures r.Err? ==> r.error == MISSING_TRANSACTION_ID
    ensures r.Ok? ==> "transactionId" in r.value && r.value.Keys <= {"transactionId", "orderId"}
    ensures r.Ok? ==> var t := FirstIfArray(Get(query, StrKey("transactionId")));
      r.value["transactionId"] == if IsScalar(t) then ScalarToString(t) else ""
    ensures r.Ok? ==> var o := FirstIfArray(Get(query, StrKey("orderId")));
      && ("orderId" in r.value <==> o != Null && o != Str("") && IsScalar(o))
      && ("orderId" in r.value ==> r.value["orderId"] == ScalarToString(o))
  {
    var t := FirstIfArray(Get(query, StrKey("transactionId")));
    if t == Null || t == Str("") then Err(MISSING_TRANSACTION_ID)
    else
      var result := map["transactionId" := if IsScalar(t) then ScalarToString(t) else ""];
      var o := FirstIfArray(Get(query, StrKey("orderId")));
      if o != Null && o != Str("") && IsScalar(o) then Ok(result["orderId" := ScalarToString(o)])
      else Ok(result)
  }

  /** `parseConfirmQuery`, step by step on its locals. */
  method ParseConfirmQuery(query: PhpArray) returns (r: Result<map<string, string>, string>)
    ensures r == ConfirmQuery(query)
  {
    var transactionId := Get(query, StrKey("transactionId"));
    if transactionId.Arr? {
      transactionId := Get(transactionId.entries, IntKey(0));
    }
    if transactionId == Null || (transactionId.Str? && transactionId.s == "") {
      return Err(MISSING_TRANSACTION_ID);
    }
    var result := map["transactionId" := if IsScalar(transactionId) then ScalarToString(transactionId) else ""];
    var orderId := Get(query, StrKey("orderId"));
    if orderId.Arr? {
      orderId := Get(orderId.entries, IntKey(0));
    }
    if orderId != Null && orderId != Str("") && IsScalar(orderId) {
      result := result["orderId" := ScalarToString(orderId)];
    }
    r := Ok(result);
  }

  /** Wrapping a parameter in a one-element list changes nothing. */
  lemma ArrayWrappedParameters(query: PhpArray, t: PhpValue, o: PhpValue)
    requires !t.Arr? && !o.Arr?
    ensures var wrapped := query[StrKey("transactionId") := Arr(map[IntKey(0) := t])]
                                [StrKey("orderId") := Arr(map[IntKey(0) := o])];
      var plain := query[StrKey("transactionId") := t][StrKey("orderId") := o];
      ConfirmQuery(wrapped) == ConfirmQuery(plain)
  {
  }

  /** A string transactionId comes back unchanged, and so does an order ID. */
  lemma ConfirmQueryKeepsStrings(query: PhpArray, id: string)
    requires Get(query, StrKey("transactionId")) == Str(id) && id != ""
    ensures ConfirmQuery(query).Ok? && ConfirmQuery(query).value["transactionId"] == id
  {
  }

  /** The callback queries of the helpers' tests. */
  lemma ConfirmQueryExamples()
    ensures ConfirmQuery(map[]) == Err(MISSING_TRANSACTION_ID)
    ensures ConfirmQuery(map[StrKey("transactionId") := Str("")]) == Err(MISSING_TRANSACTION_ID)
    ensures ConfirmQuery(map[StrKey("transactionId") := Str("1234567890123456789")])
      == Ok(map["transactionId" := "1234567890123456789"])
    ensures ConfirmQuery(map[StrKey("transactionId") := Arr(map[IntKey(0) := Str("1234567890123456789")]),
                             StrKey("orderId") := Arr(map[IntKey(0) := Str("ORDER-123")])])
      == Ok(map["transactionId" := "1234567890123456789", "orderId" := "ORDER-123"])
    // A false flag is not "missing": it is cast to "".
    ensures ConfirmQuery(map[StrKey("transactionId") := Bool(false)]) == Ok(map["transactionId" := ""])
    // An array keyed by something other than 0 counts as missing.
    ensures ConfirmQuery(map[StrKey("transactionId") := Arr(map[StrKey("a") := Str("1")])]).Err?
  {
  }

  // ---------------------------------------------------------------------
  // UUID-v4 nonces
  // ---------------------------------------------------------------------

  predicate IsLowerHex(c: char) {
    '0' <= c <= '9' || 'a' <= c <= 'f'
  }

  /** The lower-case hexadecimal digit of a nibble, as `bin2hex` writes it. */
  function HexDigit(n: bv8): (c: char)
    requires n < 16
    ensures IsLowerHex(c)
  {
    if n < 10 then (48 + n as int) as char else (87 + n as int) as char
  }

  /** The nibble a lower-case hexadecimal digit stands for. */
  function HexValue(c: char): (n: bv8)
    ensures n < 16
  {
    if '0' <= c <= '9' then (c as int - 48) as bv8
    else if 'a' <= c <= 'f' then (c as int - 87) as bv8
    else 0
  }

  /** The digit of a byte's high nibble. */
  function HighDigit(b: bv8): char {
    HexDigit(b >> 4)
  }

  /** The digit of a byte's low nibble. */
  function LowDigit(b: bv8): char {
    HexDigit(b & 0x0f)
  }

  /** The byte written as the two digits `hi` and `lo`. */
  function ByteOf(hi: char, lo: char): bv8 {
    (HexValue(hi) << 4) | HexValue(lo)
  }

  /** `bin2hex`: two lower-case hexadecimal digits per byte, high nibble first. */
  function Bin2Hex(data: seq<bv8>): (hex: string)
    ensures |hex| == 2 * |data|
    ensures forall j :: 0 <= j < |hex| ==> IsLowerHex(hex[j])
  {
    seq(2 * |data|, j requires 0 <= j < 2 * |data| =>
      if j % 2 == 0 then HighDigit(data[j / 2]) else LowDigit(data[j / 2]))
  }

  /** `hex2bin`: one byte from each pair of hexadecimal digits. */
  function Hex2Bin(hex: string): (data: seq<bv8>)
    requires |hex| % 2 == 0
    ensures |data| == |hex| / 2
  {
    seq(|hex| / 2, i requires 0 <= i < |hex| / 2 => ByteOf(hex[2 * i], hex[2 * i + 1]))
  }

  /** A byte is its high nibble shifted left, or'ed with its low nibble. */
  lemma NibblesRoundTrip(b: bv8)
    ensures ByteOf(HighDigit(b), LowDigit(b)) == b
  {
    HexDigitRoundTrip(b >> 4);
    HexDigitRoundTrip(b & 0x0f);
    assert ((b >> 4) << 4) | (b & 0x0f) == b;
  }

  lemma HexDigitRoundTrip(n: bv8)
    requires n < 16
    ensures HexValue(HexDigit(n)) == n
  {
  }

  lemma HexRoundTrip(data: seq<bv8>)
    ensures Hex2Bin(Bin2Hex(data)) == data
  {
    var hex := Bin2Hex(data);
    forall i | 0 <= i < |data| ensures Hex2Bin(hex)[i] == data[i] {
      Bin2HexAt(data, i);
      NibblesRoundTrip(data[i]);
    }
  }

  /** Byte `i` is written at positions 2i and 2i + 1. */
  lemma Bin2HexAt(data: seq<bv8>, i: nat)
    requires i < |data|
    ensures 2 * i + 1 < |Bin2Hex(data)|
    ensures Bin2Hex(data)[2 * i] == HighDigit(data[i]) && Bin2Hex(data)[2 * i + 1] == LowDigit(data[i])
  {
    var j := 2 * i;
    assert j % 2 == 0 && j / 2 == i;
    assert (j + 1) % 2 == 1 && (j + 1) / 2 == i;
  }

  /** The pieces written one after another. */
  function Concat(pieces: seq<string>): string
    decreases |pieces|
  {
    if pieces == [] then "" else pieces[0] + Concat(pieces[1..])
  }

  /**
   * `str_split(s, n)`: consecutive pieces of `n` characters, the last one
   * possibly shorter; written one after another they give `s` back.
   */
  function StrSplit(s: string, n: nat): (pieces: seq<string>)
    requires n > 0
    ensures Concat(pieces) == s
    ensures forall i :: 0 <= i < |pieces| ==> 0 < |pieces[i]| <= n
    ensures forall i :: 0 <= i < |pieces| - 1 ==> |pieces[i]| == n
    decreases |s|
  {
    if |s| <= n then (if s == "" then [] else [s])
    else
      var rest := StrSplit(s[n..], n);
      assert ([s[..n]] + rest)[1..] == rest;
      assert s[..n] + s[n..] == s;
      [s[..n]] + rest
  }

  /** 32 digits split into eight pieces of four. */
  lemma StrSplit32(hex: string)
    requires |hex| == 32
    ensures StrSplit(hex, 4) == [hex[..4], hex[4..8], hex[8..12], hex[12..16],
                                 hex[16..20], hex[20..24], hex[24..28], hex[28..]]
  {
    StrSplit16(hex[16..]);
    assert hex[16..][..4] == hex[16..20] && hex[16..][4..8] == hex[20..24];
    assert hex[16..][8..12] == hex[24..28] && hex[16..][12..] == hex[28..];
    StrSplitPair(hex);
    StrSplitPair(hex[8..]);
    assert hex[8..][8..] == hex[16..];
    assert hex[8..][..4] == hex[8..12] && hex[8..][4..8] == hex[12..16];
  }

  /** 16 digits split into four pieces of four. */
  lemma StrSplit16(t: string)
    requires |t| == 16
    ensures StrSplit(t, 4) == [t[..4], t[4..8], t[8..12], t[12..]]
  {
    StrSplitPair(t);
    StrSplitStep(t[8..]);
    assert t[8..][4..] == t[12..] && t[8..][..4] == t[8..12];
    assert StrSplit(t[12..], 4) == [t[12..]];
  }

  /** More than eight characters: two pieces of four, then the split of the rest. */
  lemma StrSplitPair(t: string)
    requires |t| > 8
    ensures StrSplit(t, 4) == [t[..4], t[4..8]] + StrSplit(t[8..], 4)
  {
    StrSplitStep(t);
    StrSplitStep(t[4..]);
    assert t[4..][4..] == t[8..] && t[4..][..4] == t[4..8];
  }

  /** More than four characters: the first four, then the split of the rest. */
  lemma StrSplitStep(t: string)
    requires |t| > 4
    ensures StrSplit(t, 4) == [t[..4]] + StrSplit(t[4..], 4)
  {
  }

  /** `vsprintf('%s%s-%s-%s-%s-%s%s%s', str_split($hex, 4))` for 32 digits. */
  function FormatUuid(hex: string): string
    requires |hex| == 32
  {
    var pieces := StrSplit(hex, 4);
    StrSplit32(hex);
    pieces[0] + pieces[1] + "-" + pieces[2] + "-" + pieces[3] + "-" + pieces[4] + "-"
      + pieces[5] + pieces[6] + pieces[7]
  }

  /**
   * The 16 random bytes with the version set to 4 (the high nibble of byte 6
   * is 0100) and the variant set to RFC 4122 (the two high bits of byte 8
   * are 10), as sections 4.1.1, 4.1.3 and 4.4 of RFC 4122 ask.
   */
  function WithVersionBits(random: seq<bv8>): (data: seq<bv8>)
    requires |random| == 16
    ensures |data| == 16
    ensures data[6] >> 4 == 4 && data[6] & 0x0f == random[6] & 0x0f
    ensures data[8] >> 6 == 2 && data[8] & 0x3f == random[8] & 0x3f
    ensures forall i :: 0 <= i < 16 && i != 6 && i != 8 ==> data[i] == random[i]
  {
    random[6 := (random[6] & 0x0f) | 0x40][8 := (random[8] & 0x3f) | 0x80]
  }

  /** The nonce `generateNonce` makes from the given random bytes. */
  function UuidV4(random: seq<bv8>): string
    requires |random| == 16
  {
    var hex := Bin2Hex(WithVersionBits(random));
    FormatUuid(hex)
  }

  /** The 32 hexadecimal digits of a UUID string, without its dashes. */
  function UuidHexDigits(uuid: string): string
    requires |uuid| == 36
  {
    uuid[..8] + uuid[9..13] + uuid[14..18] + uuid[19..23] + uuid[24..]
  }

  /** Where the hexadecimal digits of a 32-digit string land in its UUID form. */
  lemma FormatUuidLayout(hex: string)
    requires |hex| == 32
    ensures var u := FormatUuid(hex);
      && |u| == 36
      && u[8] == '-' && u[13] == '-' && u[18] == '-' && u[23] == '-'
      && u[..8] == hex[..8] && u[9..13] == hex[8..12] && u[14..18] == hex[12..16]
      && u[19..23] == hex[16..20] && u[24..] == hex[20..]
      && UuidHexDigits(u) == hex
  {
    StrSplit32(hex);
    var u := FormatUuid(hex);
    assert u == hex[..8] + "-" + hex[8..12] + "-" + hex[12..16] + "-" + hex[16..20] + "-" + hex[20..] by {
      assert hex[..4] + hex[4..8] == hex[..8];
      assert hex[20..24] + hex[24..28] + hex[28..] == hex[20..];
    }
    assert hex == hex[..8] + hex[8..12] + hex[12..16] + hex[16..20] + hex[20..];
  }

  /**
   * The nonce has the 8-4-4-4-12 form: 36 characters, dashes at 8, 13, 18
   * and 23, lower-case hexadecimal elsewhere, the version digit 4 at 14 and
   * the variant digit 8, 9, a or b at 19.
   */
  lemma UuidV4Shape(random: seq<bv8>)
    requires |random| == 16
    ensures var u := UuidV4(random);
      && |u| == 36
      && u[8] == '-' && u[13] == '-' && u[18] == '-' && u[23] == '-'
      && (forall i :: 0 <= i < 36 && i != 8 && i != 13 && i != 18 && i != 23 ==> IsLowerHex(u[i]))
      && u[14] == '4'
      && u[19] in {'8', '9', 'a', 'b'}
      && UuidHexDigits(u) == Bin2Hex(WithVersionBits(random))
  {
    var data := WithVersionBits(random);
    var hex := Bin2Hex(data);
    var u := UuidV4(random);
    FormatUuidLayout(hex);
    assert u[14] == u[14..18][0] == hex[12] == HighDigit(data[6]);
    assert u[19] == u[19..23][0] == hex[16] == HighDigit(data[8]);
    forall i | 0 <= i < 36 && i != 8 && i != 13 && i != 18 && i != 23 ensures IsLowerHex(u[i]) {
      if i < 8 { assert u[i] == u[..8][i]; }
      else if i < 13 { assert u[i] == u[9..13][i - 9]; }
      else if i < 18 { assert u[i] == u[14..18][i - 14]; }
      else if i < 23 { assert u[i] == u[19..23][i - 19]; }
      else { assert u[i] == u[24..][i - 24]; }
    }
  }

  /** Hex-decoding the nonce gives back the random bytes with only the version and variant bits changed. */
  lemma UuidV4Decodes(random: seq<bv8>)
    requires |random| == 16
    ensures var u := UuidV4(random);
      |u| == 36 && Hex2Bin(UuidHexDigits(u)) == WithVersionBits(random)
  {
    UuidV4Shape(random);
    HexRoundTrip(WithVersionBits(random));
  }

  /**
   * `generateNonce`: the random bytes (`random_bytes(16)`, a parameter
   * here) are copied into a buffer, bytes 6 and 8 are overwritten with the
   * version and variant bits, and the buffer is written out as a UUID.
   */
  method GenerateNonce(randomBytes: seq<bv8>) returns (nonce: string)
    requires |randomBytes| == 16
    ensures nonce == UuidV4(randomBytes)
  {
    var data := randomBytes;
    data := data[6 := (data[6] & 0x0f) | 0x40];
    assert data[8] == randomBytes[8];
    data := data[8 := (data[8] & 0x3f) | 0x80];
    assert data == WithVersionBits(randomBytes);
    nonce := FormatUuid(Bin2Hex(data));
  }
}
