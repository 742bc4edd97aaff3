/** The hand-off from training to serving: training writes `{"t": thr}`, and
    serving, reading it back, decides every probability as training did. */
module Handoff {
  import opened DecisionRule
  import opened ThresholdSelection
  import opened ThresholdArtifact
  import opened ScoringService

  /** The threshold artifact training writes: `{"t": thr}`. */
  function TrainingArtifact(t: real): (data: Json)
    ensures ParseThreshold(data) == Ok(t)
  {
    JObject(map[ShortKey := JNumber(t)])
  }

  /** An artifact training stored under the serving key loads back as the
      same threshold, whatever else the store holds. */
  lemma LoadReadsTrainingArtifact(prefix: string, store: map<string, Blob>, t: real)
    ensures LoadThreshold(prefix, store[ArtifactKey(prefix) := JsonText(TrainingArtifact(t))]) == Ok(t)
  {
  }

  /** With the threshold chosen on a curve and loaded from the artifact,
      serving flags a 30-feature request exactly as training's prediction
      flags the same probability. */
  lemma ServingAgreesWithTraining(prec: seq<real>, rec: seq<real>, thr: seq<real>, proba: seq<real>,
                                  prefix: string, store: map<string, Blob>, features: seq<real>)
    requires |features| == ExpectedFeatures
    ensures var t := Choose(prec, rec, thr, TrainingMinPrecision).threshold;
      var loaded := LoadThreshold(prefix, store[ArtifactKey(prefix) := JsonText(TrainingArtifact(t))]);
      var resp := Respond(DefaultApiKey, Some(DefaultApiKey), features, loaded.value);
      loaded == Ok(t) &&
      resp.Scored? &&
      resp.isFraud == Predict([PlaceholderProbability(features)], t)[0]
  {
  }
}
