/** The two LINE Pay API hosts and the default request timeout. */
module Env {

  const BASE_URL_PRODUCTION: string := "https://api-pay.line.me"
  const BASE_URL_SANDBOX: string := "https://sandbox-api-pay.line.me"

  /** Default request timeout, in seconds. */
  const DEFAULT_TIMEOUT: int := 20

  /**
   * The base URL of an environment: the production host for exactly the
   * string "production", the sandbox host for every other string (the
   * comparison is case-sensitive).
   */
  function GetBaseUrl(env: string): (url: string)
    ensures url == BASE_URL_PRODUCTION || url == BASE_URL_SANDBOX
    ensures url == BASE_URL_PRODUCTION <==> env == "production"
    ensures url == BASE_URL_SANDBOX <==> env != "production"
  {
    match env
    case "production" => BASE_URL_PRODUCTION
    case _ => BASE_URL_SANDBOX
  }

  /** The environments named in the client's tests and their hosts. */
  lemma KnownEnvironments()
    ensures GetBaseUrl("production") == "https://api-pay.line.me"
    ensures GetBaseUrl("sandbox") == "https://sandbox-api-pay.line.me"
    ensures GetBaseUrl("unknown") == "https://sandbox-api-pay.line.me"
    ensures GetBaseUrl("Production") == "https://sandbox-api-pay.line.me"
    ensures DEFAULT_TIMEOUT == 20
  {
  }
}
