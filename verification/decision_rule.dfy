/** The one decision rule shared by training and serving: a probability at or
    above the threshold is flagged as fraud (1), anything below it is not (0). */
module DecisionRule {

  /** `1 if prob >= threshold else 0`. */
  function Decide(prob: real, threshold: real): (flag: int)
    ensures flag == 0 || flag == 1
    ensures flag == 1 <==> prob >= threshold
  {
    if prob >= threshold then 1 else 0
  }

  /** A higher probability is never flagged less. */
  lemma DecideMonotoneInProbability(p1: real, p2: real, threshold: real)
    requires p1 <= p2
    ensures Decide(p1, threshold) <= Decide(p2, threshold)
  {
  }

  /** A higher threshold never flags more. */
  lemma DecideAntitoneInThreshold(prob: real, t1: real, t2: real)
    requires t1 <= t2
    ensures Decide(prob, t2) <= Decide(prob, t1)
  {
  }
}
