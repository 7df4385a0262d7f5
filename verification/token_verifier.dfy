/** `verify_decode_jwt`: fetch the key set, read the token's `kid`, pick
    the matching key and map the library's decode outcome to a payload or
    an `AuthError`. */
module TokenVerifier {
  import opened Wrappers
  import opened AuthErrors
  import opened Jwt
  import opened KeySet

  /** The `try`/`except` around `jwt.decode`: the payload is passed
      through unchanged and each exception class has its own error. */
  function MapDecode(o: DecodeOutcome): (r: Result<Payload, Fault>)
    ensures r.Ok? <==> o.Decoded?
    ensures o.Decoded? ==> r.value == o.payload
    ensures o.ExpiredSignature? <==> r == Err(Rejected(TokenExpired))
    ensures o.ClaimsError? <==> r == Err(Rejected(ClaimsIncorrect))
    ensures o.OtherError? <==> r == Err(Rejected(TokenUnparseable))
    ensures r.Err? ==>
      r.error.Rejected? && (r.error.error.status == 401 <==> o.ExpiredSignature? || o.ClaimsError?)
  {
    match o
    case Decoded(p) => Ok(p)
    case ExpiredSignature => Err(Rejected(TokenExpired))
    case ClaimsError => Err(Rejected(ClaimsIncorrect))
    case OtherError => Err(Rejected(TokenUnparseable))
  }

  /** The whole of `verify_decode_jwt`. The key set is fetched and parsed
      before the token header is read; its `keys` member is read only
      after the `kid` test. */
  function VerifyDecode(token: string, keySet: KeySetFetch,
                        readHeader: HeaderReader, decode: Decoder): (r: Result<Payload, Fault>)
    ensures keySet.FetchFailed? ==> r == Err(Crashed(KeySetUnavailable))
    ensures keySet.Fetched? && readHeader(token).None? ==> r == Err(Crashed(TokenHeaderUnreadable))
    ensures keySet.Fetched? && readHeader(token).Some? && "kid" !in readHeader(token).value
      ==> r == Err(Rejected(TokenWithoutKid))
    ensures keySet.Fetched? && keySet.keys.None? && readHeader(token).Some? && "kid" in readHeader(token).value
      ==> r == Err(Crashed(KeyListMissing))
    ensures r == Err(Rejected(KeyNotFound)) <==>
      && keySet.Fetched? && keySet.keys.Some?
      && readHeader(token).Some? && "kid" in readHeader(token).value
      && MissesBefore(keySet.keys.value, readHeader(token).value["kid"], |keySet.keys.value|)
    ensures keySet.Fetched? && keySet.keys.Some?
      && readHeader(token).Some? && "kid" in readHeader(token).value
      && ScanKeys(keySet.keys.value, readHeader(token).value["kid"]).KeyError?
      ==> r == Err(Crashed(KeyFieldMissing))
    ensures r.Err? && r.error.Rejected? ==> r.error.error.status in {400, 401}
  {
    match keySet
    case FetchFailed => Err(Crashed(KeySetUnavailable))
    case Fetched(keyList) =>
      match readHeader(token)
      case None => Err(Crashed(TokenHeaderUnreadable))
      case Some(header) =>
        if "kid" !in header then Err(Rejected(TokenWithoutKid))
        else if keyList.None? then Err(Crashed(KeyListMissing))
        else
          match ScanKeys(keyList.value, header["kid"])
          case Match(_, rsaKey) => MapDecode(decode(token, rsaKey))
          case NoMatch => Err(Rejected(KeyNotFound))
          case KeyError(_) => Err(Crashed(KeyFieldMissing))
  }

  /** Entry `i` is the key the loop breaks on for `kid`: the first entry
      carrying that `kid`, with every RSA field present. */
  ghost predicate SelectedAt(keys: seq<JsonObject>, kid: string, i: nat)
  {
    && i < |keys| && MissesBefore(keys, kid, i)
    && "kid" in keys[i] && keys[i]["kid"] == kid && RsaFields <= keys[i].Keys
  }

  /** Verification yields payload `p` exactly when the key set was fetched,
      the token header names a `kid`, the first key with that `kid` is
      complete, and decoding with its RSA fields returns `p`. */
  lemma VerifyOkIff(token: string, keySet: KeySetFetch,
                    readHeader: HeaderReader, decode: Decoder, p: Payload)
    ensures VerifyDecode(token, keySet, readHeader, decode) == Ok(p) <==>
      && keySet.Fetched? && keySet.keys.Some?
      && readHeader(token).Some? && "kid" in readHeader(token).value
      && exists i: nat :: SelectedAt(keySet.keys.value, readHeader(token).value["kid"], i)
           && decode(token, Project(keySet.keys.value[i], RsaFields)) == Decoded(p)
  {
    if keySet.Fetched? && keySet.keys.Some? && readHeader(token).Some? && "kid" in readHeader(token).value {
      var keys, kid := keySet.keys.value, readHeader(token).value["kid"];
      var s := ScanKeys(keys, kid);
      if s.Match? {
        assert Project(keys[s.at], RsaFields) == s.rsaKey;
        assert SelectedAt(keys, kid, s.at);
      }
      forall i: nat | SelectedAt(keys, kid, i)
        ensures s == Match(i, Project(keys[i], RsaFields))
      {
        FirstMatchSelected(keys, kid, i);
      }
    }
  }

  /** Once the key for the token's `kid` is selected, every outcome of the
      decode reaches the caller through the `try`/`except` mapping: the
      payload, `token_expired`, `invalid_claims` or `invalid_header`/400. */
  lemma SelectedMapsDecode(token: string, keys: seq<JsonObject>,
                           readHeader: HeaderReader, decode: Decoder, i: nat)
    requires readHeader(token).Some? && "kid" in readHeader(token).value
    requires SelectedAt(keys, readHeader(token).value["kid"], i)
    ensures VerifyDecode(token, Fetched(Some(keys)), readHeader, decode)
      == MapDecode(decode(token, Project(keys[i], RsaFields)))
  {
    FirstMatchSelected(keys, readHeader(token).value["kid"], i);
  }
}
