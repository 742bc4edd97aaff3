/** The threshold artifact as the serving side reads it at startup: the key it
    is stored under, and the accepted shapes of its decoded JSON content. */
module ThresholdArtifact {

  datatype Result<T, E> = Ok(value: T) | Err(error: E)

  /** An already-decoded JSON value. */
  datatype Json =
    | JNull
    | JBool(b: bool)
    | JNumber(x: real)
    | JString(s: string)
    | JArray(items: seq<Json>)
    | JObject(members: map<string, Json>)

  /** What the artifact store holds under a key: JSON text, or bytes that do
      not decode as JSON. */
  datatype Blob = JsonText(json: Json) | NotJson

  datatype LoadError =
    | NotFound(key: string)    // no object under the key
    | Undecodable              // the bytes are not JSON
    | MissingKey               // an object with neither "threshold" nor "t"
    | NotANumber               // the value is not a number

  const KeySuffix: string := "/threshold.json"
  const ThresholdKey: string := "threshold"
  const ShortKey: string := "t"

  /** `s.rstrip("/")`: the longest prefix of `s` that does not end in '/' and
      is followed only by '/' characters. */
  function StripTrailingSlashes(s: string): (r: string)
    ensures r <= s
    ensures r == [] || r[|r| - 1] != '/'
    ensures forall i :: |r| <= i < |s| ==> s[i] == '/'
  {
    if s != [] && s[|s| - 1] == '/' then StripTrailingSlashes(s[..|s| - 1]) else s
  }

  /** Any split of `s` into a stem not ending in '/' and a run of '/' is the
      one stripping finds. */
  lemma {:induction false} StripTrailingSlashesUnique(stem: string, slashes: string)
    requires stem == [] || stem[|stem| - 1] != '/'
    requires forall i :: 0 <= i < |slashes| ==> slashes[i] == '/'
    ensures StripTrailingSlashes(stem + slashes) == stem
  {
    if slashes != [] {
      var shorter := slashes[..|slashes| - 1];
      assert (stem + slashes)[..|stem + slashes| - 1] == stem + shorter;
      StripTrailingSlashesUnique(stem, shorter);
    } else {
      assert stem + slashes == stem;
    }
  }

  /** The artifact key: the prefix with every trailing '/' removed, then
      "/threshold.json". */
  function ArtifactKey(prefix: string): (key: string)
    ensures |key| >= |KeySuffix| && key[|key| - |KeySuffix|..] == KeySuffix
    ensures var stem := key[..|key| - |KeySuffix|];
      stem <= prefix && (stem == [] || stem[|stem| - 1] != '/') &&
      forall i :: |stem| <= i < |prefix| ==> prefix[i] == '/'
  {
    var stem := StripTrailingSlashes(prefix);
    assert (stem + KeySuffix)[..|stem|] == stem;
    stem + KeySuffix
  }

  /** Trailing slashes on the prefix make no difference to the key. */
  lemma ArtifactKeyIgnoresTrailingSlashes(prefix: string, slashes: string)
    requires forall i :: 0 <= i < |slashes| ==> slashes[i] == '/'
    ensures ArtifactKey(prefix + slashes) == ArtifactKey(prefix)
  {
    var stem := StripTrailingSlashes(prefix);
    var tail := prefix[|stem|..];
    assert prefix == stem + tail;
    assert prefix + slashes == stem + (tail + slashes);
    StripTrailingSlashesUnique(stem, tail + slashes);
  }

  /** The configured prefix "artifacts/", and the same with more slashes or
      none, all give "artifacts/threshold.json". */
  lemma ArtifactKeyExamples()
    ensures ArtifactKey("artifacts/") == "artifacts/threshold.json"
    ensures ArtifactKey("artifacts///") == "artifacts/threshold.json"
    ensures ArtifactKey("artifacts") == "artifacts/threshold.json"
  {
    StripTrailingSlashesUnique("artifacts", "/");
    StripTrailingSlashesUnique("artifacts", "///");
    StripTrailingSlashesUnique("artifacts", "");
    assert "artifacts" + "/" == "artifacts/";
    assert "artifacts" + "///" == "artifacts///";
    assert "artifacts" + "" == "artifacts";
  }

  /** `float(value)` restricted to JSON numbers. */
  function AsNumber(value: Json): (r: Result<real, LoadError>)
    ensures r.Ok? <==> value.JNumber?
    ensures r.Ok? ==> r.value == value.x
    ensures r.Err? ==> r.error == NotANumber
  {
    match value
    case JNumber(x) => Ok(x)
    case _ => Err(NotANumber)
  }

  /** The threshold a decoded artifact holds: an object's "threshold" member,
      else its "t" member, else an error; a non-object is the number itself. */
  function ParseThreshold(data: Json): (r: Result<real, LoadError>)
    // {"threshold": x} gives x, whatever else the object holds
    ensures data.JObject? && ThresholdKey in data.members && data.members[ThresholdKey].JNumber? ==>
      r == Ok(data.members[ThresholdKey].x)
    // {"t": x} without "threshold" gives x
    ensures (data.JObject? && ThresholdKey !in data.members && ShortKey in data.members &&
             data.members[ShortKey].JNumber?) ==>
      r == Ok(data.members[ShortKey].x)
    // a bare number gives that number
    ensures data.JNumber? ==> r == Ok(data.x)
    // an object with neither key is a missing-key error, never a default;
    // every other failure is a value that is not a number
    ensures r.Err? ==>
      (r.error == MissingKey <==> data.JObject? && ThresholdKey !in data.members && ShortKey !in data.members)
    ensures r.Err? ==> r.error == MissingKey || r.error == NotANumber
    // every success comes from a number in one of the three shapes
    ensures r.Ok? ==>
      data == JNumber(r.value) ||
      (data.JObject? && ThresholdKey in data.members && data.members[ThresholdKey] == JNumber(r.value)) ||
      (data.JObject? && ThresholdKey !in data.members && ShortKey in data.members &&
       data.members[ShortKey] == JNumber(r.value))
  {
    match data
    case JObject(members) =>
      if ThresholdKey in members then AsNumber(members[ThresholdKey])
      else if ShortKey in members then AsNumber(members[ShortKey])
      else Err(MissingKey)
    case _ => AsNumber(data)
  }

  /** The three accepted shapes agree: 0.42, {"threshold": 0.42} and
      {"t": 0.42} all give 0.42, and {"foo": 1} is an error. */
  lemma ParseThresholdExamples()
    ensures ParseThreshold(JNumber(0.42)) == Ok(0.42)
    ensures ParseThreshold(JObject(map[ThresholdKey := JNumber(0.42)])) == Ok(0.42)
    ensures ParseThreshold(JObject(map[ShortKey := JNumber(0.42)])) == Ok(0.42)
    ensures ParseThreshold(JObject(map[ThresholdKey := JNumber(0.42), ShortKey := JNumber(0.7)])) == Ok(0.42)
    ensures ParseThreshold(JObject(map["foo" := JNumber(1.0)])) == Err(MissingKey)
  {
  }

  /** `_load_threshold_from_s3` with the store as a map from keys to blobs. */
  function LoadThreshold(prefix: string, store: map<string, Blob>): (r: Result<real, LoadError>)
    ensures ArtifactKey(prefix) !in store ==> r == Err(NotFound(ArtifactKey(prefix)))
    ensures ArtifactKey(prefix) in store && store[ArtifactKey(prefix)].NotJson? ==> r == Err(Undecodable)
    ensures ArtifactKey(prefix) in store && store[ArtifactKey(prefix)].JsonText? ==>
      r == ParseThreshold(store[ArtifactKey(prefix)].json)
  {
    var key := ArtifactKey(prefix);
    if key !in store then Err(NotFound(key))
    else
      match store[key]
      case NotJson => Err(Undecodable)
      case JsonText(data) => ParseThreshold(data)
  }
}
