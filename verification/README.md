# Fraud decision threshold: selection and serving

This project models the part of the credit-card fraud system that turns a
fraud probability into a yes/no decision.

- **Training** (`scripts/train.py`) picks a cutoff on a precision-recall curve.
  It takes the curve point of greatest recall among those whose precision
  reaches a floor (0.90). On equal recall the earliest point wins. When no
  point qualifies it falls back to 0.5, with recall -1 as a sentinel. It then
  predicts `proba >= thr`.
- **Serving** (`src/app.py`) keeps one module-level threshold. It is 0.5 until
  startup reads it from `<prefix stripped of trailing "/">/threshold.json`.
  That file may be a bare number, `{"threshold": x}` or `{"t": x}`. Each
  scoring request is checked in order: the API key (403), then the feature
  count of 30 (400). A request that passes is flagged when its probability
  reaches the threshold, and the response echoes the threshold.

Modules:

- `DecisionRule` (`decision_rule.dfy`) holds the rule `prob >= threshold`,
  which training and serving share.
- `ThresholdSelection` (`threshold_selection.dfy`) models `choose_threshold`.
  It is a loop method proved equal to a recursive fold, `Scan`. That fold is
  proved equal to a reference meaning, `Selects`: the maximal-recall eligible
  point with the lowest index, or the fallback. The module also holds the
  training prediction.
- `ThresholdArtifact` (`threshold_artifact.dfy`) models the artifact key, the
  parse of the decoded JSON, and the whole load.
- `ScoringService` (`scoring_service.dfy`) models the response as a pure
  function, plus a `Service` class. The class holds the threshold field, which
  `Startup` writes once and `Score` only reads.
- `Handoff` (`handoff.dfy`) connects the two sides. Serving, reading back the
  `{"t": thr}` that training wrote, decides each probability as training did.

Where the documented design and the code differ, the model takes a side:

- **Accepted shapes: the model follows the design.** The code converts a
  value with `float()`, which also accepts numeric strings and booleans. The
  design rejects any non-numeric value, and so does the model. This
  difference from the code is listed under "## Left out".
- **Failed startup: the code and the design agree, and so does the model.**
  The code raises, which aborts startup. `Startup` returns the error, leaves
  the threshold unwritten and marks the service as failed. `Score` cannot be
  called on a failed service.
- **Serving's probability: the model follows the code.** It is the code's
  placeholder formula (the feature sum over 3000), computed over reals. The
  design asks for the trained model's inference instead.

## Model

| member | source | states |
|---|---|---|
| DecisionRule.Decide | scripts/train.py:67 | the flag is 0 or 1, and it is 1 exactly when the probability is at least the threshold |
| DecisionRule.DecideMonotoneInProbability | src/app.py:86 | a higher probability is never flagged less |
| DecisionRule.DecideAntitoneInThreshold | src/app.py:86 | a higher threshold never flags more |
| ThresholdSelection.Considered | scripts/train.py:28 | the number of points zip examines is exactly min(len(prec)-1, len(rec)-1, len(thr)), counting an empty `[:-1]` as 0 |
| ThresholdSelection.Scan | scripts/train.py:27-30 | the loop state after n steps has recall at least -1, and is the fallback or the threshold and recall of one of the first n points meeting the floor |
| ThresholdSelection.Choose | scripts/train.py:27-31 | the selection over the whole curve has recall at least -1, and is the fallback or the threshold and recall of one considered point meeting the floor |
| ThresholdSelection.ScanSelects | scripts/train.py:27-30 | after n steps the loop holds the fallback exactly when no point so far is eligible, and otherwise the threshold and recall of the lowest-indexed point of maximal recall; its recall is at least -1 and at least every eligible recall |
| ThresholdSelection.SelectsUnique | scripts/train.py:29 | the max-recall, earliest-on-ties rule picks exactly one choice |
| ThresholdSelection.ChooseThreshold | scripts/train.py:25-31 | the loop returns the reference selection over the considered points (fallback, or the threshold and recall of the best eligible index) |
| ThresholdSelection.ChooseFallbackOrPoint | scripts/train.py:27-31 | the result is exactly (0.5, -1) when no considered point is eligible; otherwise threshold and recall come from one index i with `prec[i] >= min_precision` |
| ThresholdSelection.ChooseIsMaximal | scripts/train.py:29 | the returned recall is at least the recall of every considered point meeting the precision floor |
| ThresholdSelection.ChooseEarliestOnTies | scripts/train.py:29 | the returned point has strictly greater recall than every earlier point meeting the floor, so the lowest index wins a tie |
| ThresholdSelection.ScanPrefix | scripts/train.py:28 | the loop state after n steps depends only on the first n entries of each sequence |
| ThresholdSelection.LastEntryIgnored | scripts/train.py:28 | replacing the final precision and recall entries by anything leaves the result unchanged |
| ThresholdSelection.RecallAntitoneInMinPrecision | scripts/train.py:25-31 | raising `min_precision` never increases the returned recall |
| ThresholdSelection.FallbackExactlyWhenUnsatisfiable | scripts/train.py:27-31 | with recalls in [0,1]: fallback iff no considered point has precision at least the floor; recall is always at least -1, and in [0,1] outside the fallback |
| ThresholdSelection.ExampleCurve | scripts/train.py:25-31 | the curve of probabilities [0.1, 0.4, 0.6, 0.9] with labels [0, 0, 1, 1] at floor 0.9 gives cutoff 0.6 with recall 1 |
| ThresholdSelection.Predict | scripts/train.py:67 | one prediction per probability, and `pred[i] = 1` iff `proba[i] >= thr` |
| ThresholdArtifact.StripTrailingSlashes | src/app.py:40 | `rstrip("/")`: the result is a prefix of the input that does not end in '/' and is followed only by '/' |
| ThresholdArtifact.StripTrailingSlashesUnique | src/app.py:40 | any stem not ending in '/' followed by '/' characters strips back to that stem |
| ThresholdArtifact.ArtifactKey | src/app.py:40 | the key ends in "/threshold.json" and what precedes it is the prefix less its trailing '/' characters |
| ThresholdArtifact.ArtifactKeyIgnoresTrailingSlashes | src/app.py:40 | appending any run of '/' to the prefix does not change the key |
| ThresholdArtifact.ArtifactKeyExamples | src/app.py:40 | "artifacts/", "artifacts///" and "artifacts" all give "artifacts/threshold.json" |
| ThresholdArtifact.AsNumber | src/app.py:49-53 | conversion succeeds exactly on numbers, with that number; otherwise a not-a-number error |
| ThresholdArtifact.ParseThreshold | src/app.py:46-53 | `"threshold"` wins over `"t"`; `"t"` is used without `"threshold"`; a bare number is itself; an object with neither key is a missing-key error, never a default; every success is a number in one of the three shapes |
| ThresholdArtifact.ParseThresholdExamples | src/app.py:46-53 | 0.42, {"threshold": 0.42}, {"t": 0.42} and {"threshold": 0.42, "t": 0.7} all give 0.42; {"foo": 1} is a missing-key error |
| ThresholdArtifact.LoadThreshold | src/app.py:39-53 | an absent key is not-found, undecodable bytes are an error, and otherwise the parsed content of the key built from the prefix |
| ScoringService.Sum | src/app.py:85 | with every feature in [0, 100], the sum lies in [0, 100 times the count] |
| ScoringService.PlaceholderProbability | src/app.py:85 | the placeholder `sum / (30 * 100)` maps thirty features in [0, 100] to a probability in [0, 1] |
| ScoringService.StatusCode | src/app.py:77-83 | 403 for a refused key, 400 for a wrong feature count, 200 for a score |
| ScoringService.Respond | src/app.py:76-87 | forbidden iff the key is wrong or missing; a count mismatch (expected 30, got the length) iff the key is right and the count is not 30; otherwise a score flagged iff probability >= threshold, echoing the threshold |
| ScoringService.WrongKeyIgnoresFeatures | src/app.py:77-78 | a wrong key gets 403 whatever the features are |
| ScoringService.HigherProbabilityNeverFlaggedLess | src/app.py:85-86 | two valid requests are decided against the same threshold, monotonically in their probability |
| ScoringService.Service.constructor | src/app.py:14-21 | the threshold starts at 0.5, with the configured key and prefix |
| ScoringService.Service.Startup | src/app.py:55-58 | runs once; the threshold becomes the loaded value on success; on failure it is unchanged and the service is marked failed, so it never scores |
| ScoringService.Service.Score | src/app.py:76-87 | only a service whose startup did not fail scores; the response is `Respond` with the stored threshold, which is 0.5 before startup; nothing is modified |
| ScoringService.ServeTwice | src/app.py:55-87 | after a successful startup, two arbitrary requests are both answered against the loaded threshold; `Score` has no `modifies` clause, so the same holds for any number of requests |
| Handoff.TrainingArtifact | scripts/train.py:74-75 | the artifact training writes parses back to the same threshold |
| Handoff.LoadReadsTrainingArtifact | scripts/train.py:74-75 | that artifact stored under the serving key loads as the same threshold |
| Handoff.ServingAgreesWithTraining | scripts/train.py:66-67 | with the chosen threshold written and loaded, serving flags a 30-feature request exactly as training's prediction flags the same probability |

## Left out

- The precision-recall curve is an input, not computed. `precision_recall_curve` is sklearn code. So is every other library call in training: the data split, XGBoost, calibration, average precision, the confusion matrix and the classification report.
- The documented promise that the chosen threshold achieves the precision floor on the examples is not stated. It depends on how the curve is computed, which is not part of this model.
- Training's file and console I/O are not modelled: CSV reading, `joblib.dump`, JSON writes, the metrics report, `print` and directory creation. The `{"t": thr}` artifact shape is kept.
- The S3 download and byte decoding are replaced by the `store` parameter, a map from key to decoded JSON or undecodable bytes. The bucket name plays no part.
- An unreachable store, or any store-access failure other than a missing key, is not modelled. `LoadError` has no case for it, because the store is a map that is always available.
- ThresholdArtifact.AsNumber: Python's `float()` also accepts numeric strings and booleans. Here every non-number is an error, because those coercions are specific to Python.
- Environment configuration is not modelled. The key and prefix are constructor parameters, with the defaults as constants.
- The FastAPI app, CORS, the pydantic schema, header injection and `/health` are not modelled.
- Floating point is not modelled. Probabilities, precisions, recalls, thresholds and the placeholder sum are reals, so NaN and rounding are absent.
- The React front end is not part of this model. Its 30-value check only mirrors the server's.
