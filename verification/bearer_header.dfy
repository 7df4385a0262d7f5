/** `get_token_auth_header`: from the raw `Authorization` header to the
    bearer token. */
module BearerHeader {
  import opened Wrappers
  import opened PyStr
  import opened AuthErrors

  /** The token of an `Authorization` header, or the `AuthError` that
      rejects the header. `None` stands for an absent header. */
  function ExtractToken(header: Option<string>): (r: Result<string, Fault>)
    ensures header.None? || header.value == "" ==> r == Err(Rejected(HeaderMissing))
    ensures header.Some? && header.value != "" && multiset(header.value)[' '] != 1
      <==> r == Err(Rejected(HeaderNotTwoParts))
    ensures r.Ok? ==> ' ' !in r.value
    ensures r.Err? ==> r.error.Rejected? && r.error.error.status == 401
  {
    if header.None? || header.value == "" then Err(Rejected(HeaderMissing))
    else
      var parts := Split(header.value, ' ');
      if |parts| != 2 || |parts| == 0 then Err(Rejected(HeaderNotTwoParts))
      else if Lower(parts[0]) != "bearer" then Err(Rejected(HeaderNotBearer))
      else Ok(parts[1])
  }

  /** A scheme that lowers to "bearer", one space and a space-free token
      always extract to exactly that token. */
  lemma ExtractRoundTrip(scheme: string, token: string)
    requires ' ' !in scheme && ' ' !in token
    requires Lower(scheme) == "bearer"
    ensures ExtractToken(Some(scheme + " " + token)) == Ok(token)
  {
    SplitJoin([scheme, token], ' ');
    assert Join([scheme, token], ' ') == scheme + " " + token;
  }

  /** Conversely, every successful extraction came from such a header: the
      part before the one space lowers to "bearer" and the rest is the token. */
  lemma ExtractSound(h: string)
    requires ExtractToken(Some(h)).Ok?
    ensures var t := ExtractToken(Some(h)).value;
      |t| < |h| &&
      var scheme := h[..|h| - |t| - 1];
      h == scheme + " " + t && ' ' !in scheme && Lower(scheme) == "bearer"
  {
    var parts := Split(h, ' ');
    JoinSplit(h, ' ');
    assert Join(parts, ' ') == parts[0] + [' '] + parts[1];
  }

  /** With exactly one space, the header is rejected as not Bearer exactly
      when the part before the space does not lower to "bearer". */
  lemma NotBearerIff(scheme: string, token: string)
    requires ' ' !in scheme && ' ' !in token
    ensures ExtractToken(Some(scheme + " " + token)) == Err(Rejected(HeaderNotBearer))
      <==> Lower(scheme) != "bearer"
  {
    SplitJoin([scheme, token], ' ');
    assert Join([scheme, token], ' ') == scheme + " " + token;
  }
}
