/**
 * The client configuration: credentials stored trimmed, the environment
 * name and the timeout stored as given.
 */
module Config {
  import Env

  /** The characters PHP's `trim` strips by default: " \t\n\r\0\x0B". */
  predicate IsTrimChar(c: char) {
    c == ' ' || c == '\t' || c == '\n' || c == '\r' || c == '\0' || c == '\U{000B}'
  }

  /** How many trim characters `s` starts with. */
  function LeadingTrimLength(s: string): (n: nat)
    ensures n <= |s|
    ensures forall i :: 0 <= i < n ==> IsTrimChar(s[i])
    ensures n < |s| ==> !IsTrimChar(s[n])
    decreases |s|
  {
    if s != [] && IsTrimChar(s[0]) then 1 + LeadingTrimLength(s[1..]) else 0
  }

  /** How many trim characters `s` ends with. */
  function TrailingTrimLength(s: string): (n: nat)
    ensures n <= |s|
    ensures forall i :: |s| - n <= i < |s| ==> IsTrimChar(s[i])
    ensures n < |s| ==> !IsTrimChar(s[|s| - n - 1])
    decreases |s|
  {
    if s != [] && IsTrimChar(s[|s| - 1]) then 1 + TrailingTrimLength(s[..|s| - 1]) else 0
  }

  /**
   * PHP's `trim($s)`: the infix of `s` left once the trim characters in front
   * and behind are stripped. It is empty exactly when `s` holds nothing but
   * trim characters, and otherwise neither starts nor ends with one.
   */
  function Trim(s: string): (r: string)
    ensures r == [] <==> forall i :: 0 <= i < |s| ==> IsTrimChar(s[i])
    ensures r != [] ==> !IsTrimChar(r[0]) && !IsTrimChar(r[|r| - 1])
    ensures var k := LeadingTrimLength(s);
      && k + |r| <= |s| && r == s[k..k + |r|]
      && (forall i :: 0 <= i < k ==> IsTrimChar(s[i]))
      && (forall i :: k + |r| <= i < |s| ==> IsTrimChar(s[i]))
  {
    var k := LeadingTrimLength(s);
    if k == |s| then "" else s[k..|s| - TrailingTrimLength(s)]
  }

  lemma TrimIdempotent(s: string)
    ensures Trim(Trim(s)) == Trim(s)
  {
    var t := Trim(s);
    if t != [] {
      assert LeadingTrimLength(t) == 0;
      assert TrailingTrimLength(t) == 0;
    }
  }

  /** The fields of a constructed configuration; they are never changed. */
  datatype LinePayConfig = LinePayConfig(
    channelId: string,
    channelSecret: string,
    env: string,
    timeout: int)
  {
    /** The base URL of this configuration's environment. */
    function GetBaseUrl(): (url: string)
      ensures url == Env.BASE_URL_PRODUCTION <==> env == "production"
      ensures url == Env.BASE_URL_SANDBOX <==> env != "production"
    {
      Env.GetBaseUrl(env)
    }
  }

  /**
   * `new LinePayConfig(...)`: the credentials are trimmed, the environment
   * (default "sandbox") and the timeout (default 20 seconds) are kept as
   * given, without any validation.
   */
  function NewLinePayConfig(
    channelId: string,
    channelSecret: string,
    env: string := "sandbox",
    timeout: int := Env.DEFAULT_TIMEOUT): (c: LinePayConfig)
    ensures c.channelId == Trim(channelId) && c.channelSecret == Trim(channelSecret)
    ensures c.env == env && c.timeout == timeout
    ensures c.channelId == "" <==> forall i :: 0 <= i < |channelId| ==> IsTrimChar(channelId[i])
    ensures c.channelSecret == "" <==> forall i :: 0 <= i < |channelSecret| ==> IsTrimChar(channelSecret[i])
  {
    LinePayConfig(Trim(channelId), Trim(channelSecret), env, timeout)
  }

  /** The configurations built in the tests of the configuration class. */
  lemma ConfigExamples()
    ensures NewLinePayConfig("test-id", "test-secret").env == "sandbox"
    ensures NewLinePayConfig("test-id", "test-secret").timeout == 20
    ensures NewLinePayConfig("id", "secret", "production").GetBaseUrl() == "https://api-pay.line.me"
    ensures NewLinePayConfig("id", "secret", "sandbox", 0).timeout == 0
  {
  }

  /** Surrounding spaces are stripped from a credential. */
  lemma TrimExample()
    ensures Trim("  test-id  ") == "test-id"
  {
    var s := "  test-id  ";
    assert LeadingTrimLength(s[2..]) == 0;
    assert LeadingTrimLength(s) == 2 by {
      assert s[1..][1..] == s[2..];
    }
    assert TrailingTrimLength(s[..9]) == 0;
    assert TrailingTrimLength(s) == 2 by {
      assert s[..10][..9] == s[..9];
    }
    assert s[2..9] == "test-id";
  }
}
