/** The scoring service: one threshold, 0.5 until startup loads it from the
    artifact store, then read by every scoring request. */
module ScoringService {
  import opened DecisionRule
  import opened ThresholdArtifact

  datatype Option<T> = None | Some(value: T)

  /** What a scoring request gets back. */
  datatype Response =
    | Forbidden                                               // 403
    | FeatureCountMismatch(expected: nat, got: nat)           // 400
    | Scored(probability: real, isFraud: int, threshold: real) // 200

  const ExpectedFeatures: nat := 30
  const DefaultThreshold: real := 0.5
  const DefaultApiKey: string := "demo123"
  const DefaultArtifactPrefix: string := "artifacts/"

  function StatusCode(resp: Response): (code: int)
    ensures code == 200 <==> resp.Scored?
    ensures code == 403 <==> resp.Forbidden?
    ensures code == 400 <==> resp.FeatureCountMismatch?
  {
    match resp
    case Forbidden => 403
    case FeatureCountMismatch(_, _) => 400
    case Scored(_, _, _) => 200
  }

  /** The sum of the features; with every feature in [0, 100] it lies in
      [0, 100 * count]. */
  function Sum(xs: seq<real>): (s: real)
    ensures (forall i :: 0 <= i < |xs| ==> 0.0 <= xs[i] <= 100.0) ==> 0.0 <= s <= 100.0 * |xs| as real
  {
    if xs == [] then 0.0 else Sum(xs[..|xs| - 1]) + xs[|xs| - 1]
  }

  /** The placeholder standing in for model inference: the feature sum over
      `EXPECTED_FEATURES * 100`. Thirty features each in [0, 100] give a
      probability in [0, 1]. */
  function PlaceholderProbability(features: seq<real>): (p: real)
    ensures |features| == ExpectedFeatures && (forall i :: 0 <= i < |features| ==> 0.0 <= features[i] <= 100.0) ==>
      0.0 <= p <= 1.0
  {
    Sum(features) / (ExpectedFeatures as real * 100.0)
  }

  /** The response to a request carrying `key` (None when the header is
      absent) and `features`, given the configured key and the loaded threshold. */
  function Respond(apiKey: string, key: Option<string>, features: seq<real>, threshold: real): (resp: Response)
    // a wrong or missing key is refused before anything else is looked at
    ensures resp.Forbidden? <==> key != Some(apiKey)
    // with the right key, a feature count other than 30 is a client error
    ensures resp.FeatureCountMismatch? <==> key == Some(apiKey) && |features| != ExpectedFeatures
    ensures resp.FeatureCountMismatch? ==> resp.expected == ExpectedFeatures && resp.got == |features|
    // otherwise: flagged exactly when the probability reaches the threshold,
    // which the response echoes
    ensures resp.Scored? ==>
      resp.probability == PlaceholderProbability(features) &&
      resp.threshold == threshold &&
      (resp.isFraud == 1 <==> resp.probability >= threshold) &&
      (resp.isFraud == 0 <==> resp.probability < threshold)
  {
    if key != Some(apiKey) then Forbidden
    else if |features| != ExpectedFeatures then FeatureCountMismatch(ExpectedFeatures, |features|)
    else
      var prob := PlaceholderProbability(features);
      Scored(prob, Decide(prob, threshold), threshold)
  }

  /** A wrong key gets the same 403 whatever features come with it. */
  lemma WrongKeyIgnoresFeatures(apiKey: string, key: Option<string>, f1: seq<real>, f2: seq<real>, threshold: real)
    requires key != Some(apiKey)
    ensures Respond(apiKey, key, f1, threshold) == Respond(apiKey, key, f2, threshold) == Forbidden
  {
  }

  /** Two requests that differ only in their features, both with the right
      key and 30 features, are decided against the same threshold; the one
      with the higher probability is never flagged less. */
  lemma HigherProbabilityNeverFlaggedLess(apiKey: string, f1: seq<real>, f2: seq<real>, threshold: real)
    requires |f1| == ExpectedFeatures && |f2| == ExpectedFeatures
    requires PlaceholderProbability(f1) <= PlaceholderProbability(f2)
    ensures Respond(apiKey, Some(apiKey), f1, threshold).Scored?
    ensures Respond(apiKey, Some(apiKey), f1, threshold).isFraud <= Respond(apiKey, Some(apiKey), f2, threshold).isFraud
  {
  }

  /** The serving process: its configuration, and the module-level threshold. */
  class Service {
    const apiKey: string
    const artifactPrefix: string
    var threshold: real
    ghost var startupDone: bool
    /** Startup raised: the process never starts serving. */
    ghost var startupFailed: bool

    /** Until startup has run, the threshold is its 0.5 default; only a
        startup that ran can have failed. */
    ghost predicate Valid()
      reads this
    {
      (!startupDone ==> threshold == DefaultThreshold) &&
      (startupFailed ==> startupDone)
    }

    constructor (apiKey: string, artifactPrefix: string)
      ensures Valid() && !startupDone && !startupFailed
      ensures threshold == DefaultThreshold
      ensures this.apiKey == apiKey && this.artifactPrefix == artifactPrefix
    {
      this.apiKey := apiKey;
      this.artifactPrefix := artifactPrefix;
      threshold := DefaultThreshold;
      startupDone := false;
      startupFailed := false;
    }

    /** `on_startup`: load the threshold once. On failure the threshold is
        not written, the error is returned and the service is marked as
        failed: the raise aborts startup, so it never scores. */
    method Startup(store: map<string, Blob>) returns (outcome: Result<real, LoadError>)
      requires Valid() && !startupDone
      modifies this`threshold, this`startupDone, this`startupFailed
      ensures Valid() && startupDone
      ensures startupFailed <==> outcome.Err?
      ensures outcome == LoadThreshold(artifactPrefix, store)
      ensures threshold == if outcome.Ok? then outcome.value else old(threshold)
    {
      outcome := LoadThreshold(artifactPrefix, store);
      if outcome.Ok? {
        threshold := outcome.value;
      }
      startupDone := true;
      startupFailed := outcome.Err?;
    }

    /** `score`: key check, then feature count, then the decision. It reads
        the threshold and changes nothing. A service whose startup failed
        never receives a request. */
    method Score(key: Option<string>, features: seq<real>) returns (resp: Response)
      requires Valid() && !startupFailed
      ensures resp == Respond(apiKey, key, features, threshold)
      ensures resp.Scored? && !startupDone ==> resp.threshold == DefaultThreshold
    {
      if key != Some(apiKey) {
        return Forbidden;
      }
      if |features| != ExpectedFeatures {
        return FeatureCountMismatch(ExpectedFeatures, |features|);
      }
      var prob := PlaceholderProbability(features);
      var isFraud := if prob >= threshold then 1 else 0;
      resp := Scored(prob, isFraud, threshold);
    }
  }

  /** Two arbitrary requests after a successful startup are both answered
      against the loaded threshold; `Score` modifies nothing, so the same
      holds for any number of requests in any order. */
  method ServeTwice(store: map<string, Blob>, k1: Option<string>, f1: seq<real>, k2: Option<string>, f2: seq<real>)
    returns (r1: Response, r2: Response)
    requires LoadThreshold(DefaultArtifactPrefix, store).Ok?
    ensures r1 == Respond(DefaultApiKey, k1, f1, LoadThreshold(DefaultArtifactPrefix, store).value)
    ensures r2 == Respond(DefaultApiKey, k2, f2, LoadThreshold(DefaultArtifactPrefix, store).value)
  {
    var service := new Service(DefaultApiKey, DefaultArtifactPrefix);
    var outcome := service.Startup(store);
    r1 := service.Score(k1, f1);
    r2 := service.Score(k2, f2);
  }
}
