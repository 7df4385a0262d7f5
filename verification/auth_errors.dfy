/** The ways a guarded request can fail: an `AuthError` raised by the auth
    code, a Flask `abort(status)`, or an exception nobody catches. */
module AuthErrors {

  /** `AuthError(error, status_code)`: `error` is the `{code, description}`
      dictionary that the error handler returns as the response message. */
  datatype AuthError = AuthError(code: string, description: string, status: int)

  /** Exceptions that escape the auth code without being turned into an
      `AuthError`; Flask answers them with status 500. */
  datatype Crash =
    | KeySetUnavailable     // `urlopen`/`json.loads` of the key set raised
    | TokenHeaderUnreadable // `jwt.get_unverified_header` raised
    | KeyListMissing        // `jwks['keys']` raised `KeyError`
    | KeyFieldMissing       // `key['kid']` or a copied field raised `KeyError`

  datatype Fault =
    | Rejected(error: AuthError)
    | Aborted(status: int)
    | Crashed(cause: Crash)

  const HeaderMissing := AuthError("authorization_header_missing",
    "Authorization header is expected", 401)
  const HeaderNotTwoParts := AuthError("invalid_header",
    "Authorization header must be in the format Bearer token", 401)
  const HeaderNotBearer := AuthError("invalid_header",
    "Authorization header must start with Bearer", 401)
  const PermissionNotFound := AuthError("unauthorized", "Permission Not found", 401)
  const TokenWithoutKid := AuthError("invalid_header", "Authorization malformed", 401)
  const TokenExpired := AuthError("token_expired", "Token expired.", 401)
  const ClaimsIncorrect := AuthError("invalid_claims",
    "Incorrect claims. Please, check the audience and issuer.", 401)
  const TokenUnparseable := AuthError("invalid_header",
    "Unable to parse authentication token.", 400)
  const KeyNotFound := AuthError("invalid_header", "Unable to find the appropriate key.", 400)

  /** Every `AuthError` the core can raise. */
  const AllAuthErrors := [HeaderMissing, HeaderNotTwoParts, HeaderNotBearer,
    PermissionNotFound, TokenWithoutKid, TokenExpired, ClaimsIncorrect,
    TokenUnparseable, KeyNotFound]

  /** The HTTP status a fault is answered with: the `AuthError` handler uses
      the error's own status, `abort(n)` answers `n`, anything uncaught 500. */
  function HttpStatus(f: Fault): (status: int)
    ensures f.Crashed? ==> status == 500
    ensures f.Aborted? ==> status == f.status
    ensures f.Rejected? ==> status == f.error.status
    ensures f.Rejected? && f.error in AllAuthErrors ==> status in {400, 401}
  {
    match f
    case Rejected(e) => e.status
    case Aborted(s) => s
    case Crashed(_) => 500
  }
}
