/** The interface of the JWT library as the auth code sees it. The library
    itself (compact-token parsing, RSA signature checking, `exp`/`iss`/`aud`
    validation) is not modelled: the model takes its two entry points as
    function parameters. */
module Jwt {
  import opened Wrappers

  /** A JSON object whose values are kept as their text. */
  type JsonObject = map<string, string>

  /** A decoded token payload: its `permissions` claim, if present, and
      the other claims (`iss`, `aud`, `exp`, `sub`, ...) as they were. */
  datatype Payload = Payload(permissions: Option<seq<string>>, claims: JsonObject)

  /** The four ways `jwt.decode` can end: it returns the payload, or raises
      `ExpiredSignatureError`, `JWTClaimsError`, or any other exception. */
  datatype DecodeOutcome =
    | Decoded(payload: Payload)
    | ExpiredSignature
    | ClaimsError
    | OtherError

  /** `jwt.get_unverified_header(token)`: the token's header object, or
      `None` when it raises. */
  type HeaderReader = string -> Option<JsonObject>

  /** `jwt.decode(token, rsa_key, algorithms, audience, issuer)` with the
      configured algorithms, audience and issuer fixed. */
  type Decoder = (string, JsonObject) -> DecodeOutcome
}
