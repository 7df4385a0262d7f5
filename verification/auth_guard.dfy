/** `requires_auth(permission)`: the wrapper that runs a handler only for
    a request carrying a valid bearer token that grants `permission`. */
module AuthGuard {
  import opened Wrappers
  import opened PyStr
  import opened AuthErrors
  import opened Jwt
  import opened BearerHeader
  import opened KeySet
  import opened TokenVerifier
  import opened Permissions

  /** The wrapped handler applied to one request: extract the token,
      verify it, check the permission, then call `handler(payload, args)`.
      The first step that fails decides the result and nothing after it
      runs. */
  function Guard<A, R>(permission: string, header: Option<string>,
                       keySet: KeySetFetch, readHeader: HeaderReader,
                       decode: Decoder, handler: (Payload, A) -> R, args: A): (r: Result<R, Fault>)
    ensures var t := ExtractToken(header);
      t.Err? ==> r == Err(t.error)
    ensures var t := ExtractToken(header);
      t.Ok? ==> var v := VerifyDecode(t.value, keySet, readHeader, decode);
      v.Err? ==> r == Err(v.error)
    ensures var t := ExtractToken(header);
      t.Ok? ==> var v := VerifyDecode(t.value, keySet, readHeader, decode);
      v.Ok? ==> var c := CheckPermissions(permission, v.value);
      c.Err? ==> r == Err(c.error)
    ensures r.Ok? <==>
      var t := ExtractToken(header);
      t.Ok? && var v := VerifyDecode(t.value, keySet, readHeader, decode);
      v.Ok? && CheckPermissions(permission, v.value).Ok?
    ensures r.Ok? ==>
      r.value == handler(VerifyDecode(ExtractToken(header).value, keySet, readHeader, decode).value, args)
    ensures header.None? || header.value == "" ==> r == Err(Rejected(HeaderMissing))
    ensures header.Some? && header.value != "" && multiset(header.value)[' '] != 1
      ==> r == Err(Rejected(HeaderNotTwoParts))
    ensures r.Err? && r.error.Rejected? ==> r.error.error in AllAuthErrors
    ensures r.Err? ==> HttpStatus(r.error) in {400, 401, 500}
  {
    var token :- ExtractToken(header);
    var payload :- VerifyDecode(token, keySet, readHeader, decode);
    var _ :- CheckPermissions(permission, payload);
    Ok(handler(payload, args))
  }

  /** A well-formed `Bearer` header whose token verifies to a payload that
      grants `permission` runs the handler on exactly that payload. */
  lemma GuardAcceptsWellFormed<A, R>(permission: string, scheme: string, token: string,
                                     keySet: KeySetFetch, readHeader: HeaderReader,
                                     decode: Decoder, handler: (Payload, A) -> R, args: A,
                                     p: Payload)
    requires ' ' !in scheme && ' ' !in token && Lower(scheme) == "bearer"
    requires VerifyDecode(token, keySet, readHeader, decode) == Ok(p)
    requires p.permissions.Some? && permission in p.permissions.value
    ensures Guard(permission, Some(scheme + " " + token), keySet, readHeader, decode, handler, args)
      == Ok(handler(p, args))
  {
    ExtractRoundTrip(scheme, token);
  }

  /** A verified payload without the required permission is refused with
      `unauthorized`/401 and the handler does not run. */
  lemma GuardDeniesMissingPermission<A, R>(permission: string, scheme: string, token: string,
                                           keySet: KeySetFetch, readHeader: HeaderReader,
                                           decode: Decoder, handler: (Payload, A) -> R, args: A,
                                           p: Payload)
    requires ' ' !in scheme && ' ' !in token && Lower(scheme) == "bearer"
    requires VerifyDecode(token, keySet, readHeader, decode) == Ok(p)
    requires p.permissions.Some? && permission !in p.permissions.value
    ensures Guard(permission, Some(scheme + " " + token), keySet, readHeader, decode, handler, args)
      == Err(Rejected(PermissionNotFound))
  {
    ExtractRoundTrip(scheme, token);
  }
}
