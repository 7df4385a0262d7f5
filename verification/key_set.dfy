/** The key-selection loop of `verify_decode_jwt`: walk the published key
    set in order and keep the RSA fields of the first key whose `kid`
    equals the token's. */
module KeySet {
  import opened Wrappers
  import opened Jwt

  /** The key-set document fetched from the identity provider: either the
      fetch or `json.loads` raised, or it parsed, and then its `keys` member
      is present (`Some`) or absent (`None`). */
  datatype KeySetFetch = FetchFailed | Fetched(keys: Option<seq<JsonObject>>)

  /** The fields copied from the matching key into `rsa_key`. */
  const RsaFields: set<string> := {"kty", "kid", "use", "n", "e"}

  /** Where the scan stopped: at the first matching key (with the copied
      `rsa_key`), at an entry whose lookup raised `KeyError`, or nowhere. */
  datatype Scan =
    | Match(at: nat, rsaKey: JsonObject)
    | NoMatch
    | KeyError(at: nat)

  /** Every entry before `n` has a `kid`, and it is not `kid`. */
  ghost predicate MissesBefore(keys: seq<JsonObject>, kid: string, n: nat)
    requires n <= |keys|
  {
    forall j :: 0 <= j < n ==> "kid" in keys[j] && keys[j]["kid"] != kid
  }

  /** The dictionary `{f: entry[f] for f in fields}`. */
  function Project(entry: JsonObject, fields: set<string>): JsonObject
    requires fields <= entry.Keys
  {
    map f | f in fields :: entry[f]
  }

  /** The `for key in jwks['keys']` loop with its `break`. */
  function ScanKeys(keys: seq<JsonObject>, kid: string): (r: Scan)
    ensures r.Match? ==>
      && r.at < |keys|
      && MissesBefore(keys, kid, r.at)
      && "kid" in keys[r.at] && keys[r.at]["kid"] == kid
      && r.rsaKey.Keys == RsaFields  // never empty, so `if rsa_key:` holds exactly on a match
      && forall f :: f in RsaFields ==> f in keys[r.at] && r.rsaKey[f] == keys[r.at][f]
    ensures r.NoMatch? <==> MissesBefore(keys, kid, |keys|)
    ensures r.KeyError? ==>
      && r.at < |keys|
      && MissesBefore(keys, kid, r.at)
      && ("kid" !in keys[r.at] || (keys[r.at]["kid"] == kid && !(RsaFields <= keys[r.at].Keys)))
    decreases |keys|
  {
    if |keys| == 0 then NoMatch
    else if "kid" !in keys[0] then KeyError(0)
    else if keys[0]["kid"] == kid then
      if RsaFields <= keys[0].Keys then Match(0, Project(keys[0], RsaFields))
      else KeyError(0)
    else
      match ScanKeys(keys[1..], kid)
      case Match(i, k) => Match(i + 1, k)
      case NoMatch => NoMatch
      case KeyError(i) => KeyError(i + 1)
  }

  /** The scan is decided by the first entry that either lacks a `kid` or
      carries the wanted one: if that entry is a complete match at `i`, the
      scan selects it, whatever follows. */
  lemma FirstMatchSelected(keys: seq<JsonObject>, kid: string, i: nat)
    requires i < |keys| && MissesBefore(keys, kid, i)
    requires "kid" in keys[i] && keys[i]["kid"] == kid && RsaFields <= keys[i].Keys
    ensures ScanKeys(keys, kid) == Match(i, Project(keys[i], RsaFields))
  {
  }
}
