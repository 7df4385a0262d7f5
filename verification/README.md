# Bearer-token authorization core of the casting agency API

This project is a Dafny model of `auth.py`, the authorization layer of the
casting agency API (a Flask service for movies and actors). Every protected
route is wrapped in `requires_auth(permission)`. The wrapper does four things
in order:

1. It reads the bearer token from the `Authorization` header (`get_token_auth_header`).
2. It fetches the identity provider's JSON Web Key Set, reads the token's
   `kid`, picks the first published key with that `kid` and decodes the token
   with it (`verify_decode_jwt`).
3. It checks that the decoded payload's `permissions` claim holds the
   required permission (`check_permissions`).
4. It calls the handler with the payload as its first argument.

Each step either returns a value or raises. The model is functional: every
step is a pure function returning `Result<T, Fault>`. A `Fault` has three
kinds:

- `Rejected(AuthError)`: an `AuthError` with a code, a description and a status.
- `Aborted(400)`: Flask's `abort(400)`. This is deliberately not an `AuthError`.
- `Crashed(cause)`: an exception that nothing catches. Flask answers it with 500.

The JWT library is passed in as two function parameters. `HeaderReader`
stands for `jwt.get_unverified_header`. `Decoder` stands for `jwt.decode`,
with the configured algorithms, audience and issuer built in. Its outcome is
`Decoded(payload) | ExpiredSignature | ClaimsError | OtherError`. The fetched
key-set document is a parameter too (`KeySetFetch`). It is `FetchFailed`
when the fetch or the JSON parse raised. Otherwise it is `Fetched(keys)`,
where `keys` is `None` when the document has no `keys` member.

Modules, one file each:

- `Wrappers`: `Option` and `Result`.
- `PyStr`: `str.split(' ')`, `join` and ASCII `lower`.
- `AuthErrors`: the nine `AuthError` values and `Fault`.
- `BearerHeader`: header extraction.
- `Jwt`: the library interface and `Payload`.
- `KeySet`: the key-selection loop.
- `TokenVerifier`: `verify_decode_jwt`.
- `Permissions`: the permission gate.
- `AuthGuard`: the `requires_auth` wrapper.

## Behaviour of the code that the model follows

Some of `auth.py`'s behaviour is easy to misread. In each case below, the
model follows the code:

- There is no key cache and no refresh-on-miss. Every call fetches the key
  set (auth.py:89-90), and it does so before it reads the token. A failed
  fetch or parse therefore wins over every token error
  (`VerifyDecode`: `FetchFailed` gives `Crashed(KeySetUnavailable)`).
  The document's `keys` member, however, is only read at auth.py:104,
  after the `kid` test. A parsed document without `keys` and a token
  without `kid` therefore give `invalid_header`/401. A token with a `kid`
  gives a `KeyError`, which the model calls `Crashed(KeyListMissing)`.
- The header is split on a single `' '`, not on whitespace in general. So
  `"Bearer  t"`, with two spaces, has three parts and is refused.
- An unreadable token header is not answered `invalid_header`/400. The call
  `jwt.get_unverified_header` (auth.py:93) sits outside the `try`, so its
  exception escapes and Flask answers 500. The model calls this
  `Crashed(TokenHeaderUnreadable)`. The same holds for a key-set entry that
  has no `kid`, or a matching entry that lacks one of `kty, kid, use, n, e`.
  Both raise `KeyError`, which the model calls `Crashed(KeyFieldMissing)`.
- A missing permission gives `unauthorized` with status 401, not 403.
  test_app.py expects 403, but auth.py:71-74 and the handler at
  app.py:241-247 produce 401.
- The test `not header_parts` (auth.py:43) can never be true. `Split`
  always returns exactly one more part than there are spaces, so it never
  returns an empty list.

## Model

| member | source | states |
|---|---|---|
| PyStr.Split | auth.py:41 | `split(' ')` gives one more part than there are spaces, and no part contains a space |
| PyStr.JoinSplit | auth.py:41 | joining the parts of a split with the separator gives back the original header |
| PyStr.SplitJoin | auth.py:41 | splitting a join of space-free parts gives back exactly those parts |
| PyStr.LowerIsBearerIff | auth.py:49 | `p.lower() == 'bearer'` holds exactly for six-character `p` whose letters are each the lower- or upper-case letter of "bearer" |
| AuthErrors.HttpStatus | app.py:241-247 | the `AuthError` handler answers with the error's own status, always 400 or 401 for the core's errors; `abort(n)` answers `n` (the 400 handler at app.py:205-212); an uncaught exception answers 500 |
| BearerHeader.ExtractToken | auth.py:33-54 | an absent or empty header gives `authorization_header_missing`/401; a non-empty header gives the two-parts error exactly when it does not hold exactly one space; every failure is a 401 `AuthError`; a returned token contains no space |
| BearerHeader.ExtractRoundTrip | auth.py:41-54 | for a space-free scheme that lowers to "bearer" and a space-free token, extracting from `scheme + " " + token` returns the token unchanged, and it may be empty |
| BearerHeader.ExtractSound | auth.py:41-54 | a successful extraction came from `scheme + " " + token`, where the scheme is space-free and lowers to "bearer" |
| BearerHeader.NotBearerIff | auth.py:49-52 | for a header with exactly one space, the "must start with Bearer" error is raised exactly when the first part does not lower to "bearer" |
| KeySet.ScanKeys | auth.py:102-116 | the loop stops at the first entry that lacks a `kid` or carries the token's `kid`; on a match the copied key has exactly the fields `kty, kid, use, n, e`, with the entry's values, so it is never empty and `if rsa_key:` (auth.py:116) holds exactly on a match; "no match" holds exactly when every entry has a different `kid`; a missing field raises `KeyError` at the stopping entry |
| KeySet.FirstMatchSelected | auth.py:104-113 | if entry `i` is the first with the wanted `kid`, is complete, and every entry before it has a `kid`, the scan selects entry `i` whatever follows it |
| TokenVerifier.MapDecode | auth.py:116-148 | a decoded payload is returned unchanged; an expired signature gives `token_expired`/401; a claims error gives `invalid_claims`/401; any other failure gives `invalid_header`/400; each outcome has exactly one error, and only the first two are 401 |
| TokenVerifier.VerifyDecode | auth.py:88-153 | a failed key-set fetch or an unreadable token header escapes as an uncaught exception; a token header without `kid` gives `invalid_header`/401, whatever the key list and the decoder say, even when the document has no `keys`; with a `kid`, a missing `keys` member or a `KeyError` in the scan escapes uncaught; "Unable to find the appropriate key"/400 is returned exactly when every key has a different `kid`; every `AuthError` is a 400 or a 401 |
| TokenVerifier.SelectedMapsDecode | auth.py:104-148 | once the first complete key with the token's `kid` is selected, verification's result is the decode outcome for that key's five RSA fields passed through the exception mapping, so an expired signature, a claims error and any other failure reach the caller as `token_expired`/401, `invalid_claims`/401 and `invalid_header`/400 |
| TokenVerifier.VerifyOkIff | auth.py:88-126 | verification returns payload `p` exactly when the key set was fetched, the token header has a `kid`, the first key with that `kid` is complete, every key before it has a `kid`, and decoding with its five RSA fields yields `p` |
| Permissions.CheckPermissions | auth.py:66-75 | a payload without `permissions` gives `abort(400)`, not an `AuthError`; a permission not in the list gives `unauthorized`/401; the result is `True` exactly when the permission is in the list |
| AuthGuard.Guard | auth.py:164-176 | the handler's result is returned exactly when extraction, verification and the permission check all succeed, and the handler receives the verified payload; otherwise the first failing step's fault is the result; an absent or empty header gives `authorization_header_missing`, and a header without exactly one space gives the two-parts error, whatever the key set, decoder and handler; every `AuthError` in a refusal is one of the nine listed in `AuthErrors`; every refusal is answered 400, 401 or 500 |
| AuthGuard.GuardAcceptsWellFormed | auth.py:167-173 | a well-formed Bearer header whose token verifies to a payload that grants the permission runs the handler on exactly that payload |
| AuthGuard.GuardDeniesMissingPermission | auth.py:70-74 | a well-formed header whose token verifies to a payload lacking the permission is refused with `unauthorized`/401 |

## Left out

- The network fetch of the key-set URL and `json.loads` (auth.py:89-90) are I/O. The model receives their outcome: `FetchFailed`, or the parsed document's `keys` member, present or absent. A `keys` member that is not a list of objects is not modelled.
- JWT parsing and RSA signature, `exp`, `iss` and `aud` checking (auth.py:93, 119-125) belong to the `jose` library. They are the function parameters `HeaderReader` and `Decoder`. The configuration `AUTH0_DOMAIN`, `ALGORITHMS` and `API_AUDIENCE` (auth.py:8-10) only feeds them.
- The Flask `request` object is left out. The header value is a parameter. `*args, **kwargs` of the wrapped handler are one value `args`.
- The `print` calls at auth.py:169-170 are logging only.
- PyStr.LowerIsBearerIff: `lower` is modelled on ASCII letters only. No non-ASCII character lowers to one of the letters of "bearer", so the verdict of the comparison is the same.
- JSON values are kept as text. A numeric `kid` is not modelled. A `permissions` claim that is a string, for which Python's `in` would test for a substring, is not modelled either: the claim is a list of strings.
- Flask's conversion of a fault into a JSON response (app.py:205-247) is reduced to its status code (`HttpStatus`). The JSON body is not modelled.
- app.py routes and CRUD handlers, models.py persistence and test_app.py are outside the core.
