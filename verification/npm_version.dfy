/**
 * Extraction of the latest published version from the registry's response,
 * a loosely typed JSON value: the string under "version" when the body is an
 * object holding one, and the sentinel "unknown" otherwise.
 */
module NpmVersion {
  import opened Wrappers

  datatype Json =
    | JNull
    | JBool(b: bool)
    | JNumber(n: int)
    | JString(s: string)
    | JArray(items: seq<Json>)
    | JObject(fields: map<string, Json>)

  const VersionKey := "version"
  const UnknownVersion := "unknown"

  /** The body holds a string under the "version" key. */
  predicate HasVersionString(body: Json) {
    body.JObject? && VersionKey in body.fields && body.fields[VersionKey].JString?
  }

  /**
   * The version reported by the registry. `payload` is `None` when the
   * request or the JSON parse throws, which the call propagates.
   */
  function FetchVersion(payload: Option<Json>): (r: Option<string>)
    ensures r.None? <==> payload.None?
    ensures payload.Some? && HasVersionString(payload.value) ==>
              r == Some(payload.value.fields[VersionKey].s)
    ensures payload.Some? && !HasVersionString(payload.value) ==> r == Some(UnknownVersion)
  {
    match payload
    case None => None
    case Some(body) =>
      if body.JObject? && VersionKey in body.fields then
        match body.fields[VersionKey]
        case JString(v) => Some(v)
        case _ => Some(UnknownVersion)
      else Some(UnknownVersion)
  }

  /** Only the "version" entry of the object matters. */
  lemma OtherKeysIgnored(fields: map<string, Json>, key: string, value: Json)
    requires key != VersionKey
    ensures FetchVersion(Some(JObject(fields[key := value]))) == FetchVersion(Some(JObject(fields)))
  {
    assert VersionKey in fields[key := value] <==> VersionKey in fields;
  }

  /** An empty object, a non-string version and a non-object body all yield the sentinel. */
  lemma SentinelCases(other: Json)
    requires !other.JString?
    ensures FetchVersion(Some(JObject(map[]))) == Some(UnknownVersion)
    ensures FetchVersion(Some(JObject(map[VersionKey := other]))) == Some(UnknownVersion)
    ensures FetchVersion(Some(JArray([JString("1.0.0")]))) == Some(UnknownVersion)
  {
  }
}
