/** Threshold selection at training time: among the points of a
    precision-recall curve whose precision reaches a minimum, pick the one of
    greatest recall (earliest on ties), or fall back to 0.5 with recall -1.
    The curve itself (precision, recall and threshold sequences) is an input. */
module ThresholdSelection {
  import opened DecisionRule

  /** What selection returns: the chosen cutoff and the recall it achieves. */
  datatype Choice = Choice(threshold: real, recall: real)

  /** The precision floor training asks for. */
  const TrainingMinPrecision: real := 0.90
  /** Cutoff returned when no curve point reaches the precision floor. */
  const FallbackThreshold: real := 0.5
  /** Recall sentinel meaning "no curve point reached the precision floor". */
  const NoRecall: real := -1.0
  const Fallback: Choice := Choice(FallbackThreshold, NoRecall)

  /** Length of `s[:-1]`: one less than the length, and 0 for an empty sequence. */
  function DropLastLength(len: nat): nat
  {
    if len == 0 then 0 else len - 1
  }

  function Min(a: nat, b: nat): nat
  {
    if a <= b then a else b
  }

  /** How many triples `zip(prec[:-1], rec[:-1], thr)` yields: zip stops at
      its shortest argument. */
  function Considered(prec: seq<real>, rec: seq<real>, thr: seq<real>): (n: nat)
    // an upper bound on every examined index ...
    ensures n <= |thr|
    ensures n == 0 || (n < |prec| && n < |rec|)
    // ... that one of the three truncated lengths reaches, so n is their minimum
    ensures n == |thr| || n + 1 >= |prec| || n + 1 >= |rec|
  {
    Min(Min(DropLastLength(|prec|), DropLastLength(|rec|)), |thr|)
  }

  /** The state of the selection loop after its first `n` steps. */
  function Scan(prec: seq<real>, rec: seq<real>, thr: seq<real>, minPrecision: real, n: nat): (c: Choice)
    requires n <= |prec| && n <= |rec| && n <= |thr|
    ensures c.recall >= NoRecall
    ensures c == Fallback ||
      exists i :: 0 <= i < n && prec[i] >= minPrecision && c == Choice(thr[i], rec[i])
  {
    if n == 0 then Fallback
    else
      var best := Scan(prec, rec, thr, minPrecision, n - 1);
      if prec[n - 1] >= minPrecision && rec[n - 1] > best.recall
      then Choice(thr[n - 1], rec[n - 1])
      else best
  }

  /** The result of selection over the whole curve. */
  function Choose(prec: seq<real>, rec: seq<real>, thr: seq<real>, minPrecision: real): (c: Choice)
    ensures c.recall >= NoRecall
    ensures c == Fallback ||
      exists i :: 0 <= i < Considered(prec, rec, thr) && prec[i] >= minPrecision && c == Choice(thr[i], rec[i])
  {
    Scan(prec, rec, thr, minPrecision, Considered(prec, rec, thr))
  }

  /** Point `i`, one of the first `n`, reaches the precision floor and has a
      recall the loop can take (above the initial -1). */
  ghost predicate Eligible(prec: seq<real>, rec: seq<real>, minPrecision: real, n: nat, i: int)
    requires n <= |prec| && n <= |rec|
  {
    0 <= i < n && prec[i] >= minPrecision && rec[i] > NoRecall
  }

  /** Point `i` has the greatest recall of the eligible points, and every
      earlier eligible point has a strictly smaller recall. */
  ghost predicate IsBest(prec: seq<real>, rec: seq<real>, minPrecision: real, n: nat, i: int)
    requires n <= |prec| && n <= |rec|
  {
    Eligible(prec, rec, minPrecision, n, i) &&
    (forall j :: Eligible(prec, rec, minPrecision, n, j) ==> rec[j] <= rec[i]) &&
    (forall j :: Eligible(prec, rec, minPrecision, n, j) && j < i ==> rec[j] < rec[i])
  }

  /** The reference meaning of selection over the first `n` points. */
  ghost predicate Selects(prec: seq<real>, rec: seq<real>, thr: seq<real>, minPrecision: real, n: nat, c: Choice)
    requires n <= |prec| && n <= |rec| && n <= |thr|
  {
    if exists i :: Eligible(prec, rec, minPrecision, n, i)
    then exists i :: IsBest(prec, rec, minPrecision, n, i) && c == Choice(thr[i], rec[i])
    else c == Fallback
  }

  /** The loop state after `n` steps is the reference selection over the
      first `n` points, and its recall bounds every eligible point's from above. */
  lemma {:induction false} ScanSelects(prec: seq<real>, rec: seq<real>, thr: seq<real>, minPrecision: real, n: nat)
    requires n <= |prec| && n <= |rec| && n <= |thr|
    ensures Selects(prec, rec, thr, minPrecision, n, Scan(prec, rec, thr, minPrecision, n))
    ensures Scan(prec, rec, thr, minPrecision, n).recall >= NoRecall
    ensures forall j :: Eligible(prec, rec, minPrecision, n, j) ==> rec[j] <= Scan(prec, rec, thr, minPrecision, n).recall
  {
    if n > 0 {
      var m := n - 1;
      var best := Scan(prec, rec, thr, minPrecision, m);
      ScanSelects(prec, rec, thr, minPrecision, m);
      assert forall j :: Eligible(prec, rec, minPrecision, n, j) && j < m ==> Eligible(prec, rec, minPrecision, m, j);
      if prec[m] >= minPrecision && rec[m] > best.recall {
        assert IsBest(prec, rec, minPrecision, n, m);
      } else if exists i :: Eligible(prec, rec, minPrecision, m, i) {
        var i :| IsBest(prec, rec, minPrecision, m, i) && best == Choice(thr[i], rec[i]);
        assert IsBest(prec, rec, minPrecision, n, i);
      } else {
        assert best == Fallback;
        assert !Eligible(prec, rec, minPrecision, n, m);
      }
    }
  }

  /** The reference selection determines the choice: at most one choice meets it. */
  lemma SelectsUnique(prec: seq<real>, rec: seq<real>, thr: seq<real>, minPrecision: real, n: nat, c1: Choice, c2: Choice)
    requires n <= |prec| && n <= |rec| && n <= |thr|
    requires Selects(prec, rec, thr, minPrecision, n, c1)
    requires Selects(prec, rec, thr, minPrecision, n, c2)
    ensures c1 == c2
  {
  }

  /** `choose_threshold` on a given curve: walks the considered points once,
      keeping the best recall seen among points that reach the precision floor. */
  method ChooseThreshold(prec: seq<real>, rec: seq<real>, thr: seq<real>, minPrecision: real)
    returns (threshold: real, recall: real)
    ensures Choice(threshold, recall) == Choose(prec, rec, thr, minPrecision)
    ensures Selects(prec, rec, thr, minPrecision, Considered(prec, rec, thr), Choice(threshold, recall))
  {
    var n := Considered(prec, rec, thr);
    var bestRec, bestThr := NoRecall, FallbackThreshold;
    var i := 0;
    while i < n
      invariant 0 <= i <= n
      invariant Choice(bestThr, bestRec) == Scan(prec, rec, thr, minPrecision, i)
    {
      var p, r, t := prec[i], rec[i], thr[i];
      if p >= minPrecision && r > bestRec {
        bestRec, bestThr := r, t;
      }
      i := i + 1;
    }
    threshold, recall := bestThr, bestRec;
    ScanSelects(prec, rec, thr, minPrecision, n);
  }

  /** Without an eligible point the result is exactly (0.5, -1); with one, it
      is the threshold and recall of a single point that reaches the floor. */
  lemma ChooseFallbackOrPoint(prec: seq<real>, rec: seq<real>, thr: seq<real>, minPrecision: real)
    ensures var n := Considered(prec, rec, thr);
      var c := Choose(prec, rec, thr, minPrecision);
      ((forall i :: 0 <= i < n ==> !Eligible(prec, rec, minPrecision, n, i)) <==> c == Fallback) &&
      (c != Fallback ==>
        exists i :: 0 <= i < n && prec[i] >= minPrecision && c.threshold == thr[i] && c.recall == rec[i])
  {
    var n := Considered(prec, rec, thr);
    ScanSelects(prec, rec, thr, minPrecision, n);
  }

  /** The returned recall is at least the recall of every considered point
      that reaches the floor: it is their maximum. */
  lemma ChooseIsMaximal(prec: seq<real>, rec: seq<real>, thr: seq<real>, minPrecision: real, j: nat)
    requires j < Considered(prec, rec, thr)
    requires prec[j] >= minPrecision
    ensures rec[j] <= Choose(prec, rec, thr, minPrecision).recall
  {
    var n := Considered(prec, rec, thr);
    ScanSelects(prec, rec, thr, minPrecision, n);
    if rec[j] > NoRecall {
      assert Eligible(prec, rec, minPrecision, n, j);
    }
  }

  /** Among points tied on the greatest recall, the earliest one is returned. */
  lemma ChooseEarliestOnTies(prec: seq<real>, rec: seq<real>, thr: seq<real>, minPrecision: real)
    requires Choose(prec, rec, thr, minPrecision) != Fallback
    ensures var n := Considered(prec, rec, thr);
      exists i :: IsBest(prec, rec, minPrecision, n, i) &&
        Choose(prec, rec, thr, minPrecision) == Choice(thr[i], rec[i]) &&
        forall j :: 0 <= j < i && prec[j] >= minPrecision ==> rec[j] < rec[i]
  {
    var n := Considered(prec, rec, thr);
    ScanSelects(prec, rec, thr, minPrecision, n);
    var i :| IsBest(prec, rec, minPrecision, n, i) && Choose(prec, rec, thr, minPrecision) == Choice(thr[i], rec[i]);
    forall j | 0 <= j < i && prec[j] >= minPrecision
      ensures rec[j] < rec[i]
    {
      if rec[j] > NoRecall {
        assert Eligible(prec, rec, minPrecision, n, j);
      }
    }
  }

  /** The loop's state after `n` steps depends only on the first `n` points. */
  lemma {:induction false} ScanPrefix(prec: seq<real>, rec: seq<real>, thr: seq<real>,
                                      prec': seq<real>, rec': seq<real>, thr': seq<real>,
                                      minPrecision: real, n: nat)
    requires n <= |prec| && n <= |rec| && n <= |thr|
    requires n <= |prec'| && n <= |rec'| && n <= |thr'|
    requires prec[..n] == prec'[..n] && rec[..n] == rec'[..n] && thr[..n] == thr'[..n]
    ensures Scan(prec, rec, thr, minPrecision, n) == Scan(prec', rec', thr', minPrecision, n)
  {
    if n > 0 {
      assert prec[..n - 1] == prec[..n][..n - 1] && prec'[..n - 1] == prec'[..n][..n - 1];
      assert rec[..n - 1] == rec[..n][..n - 1] && rec'[..n - 1] == rec'[..n][..n - 1];
      assert thr[..n - 1] == thr[..n][..n - 1] && thr'[..n - 1] == thr'[..n][..n - 1];
      assert prec[n - 1] == prec[..n][n - 1] && rec[n - 1] == rec[..n][n - 1] && thr[n - 1] == thr[..n][n - 1];
      ScanPrefix(prec, rec, thr, prec', rec', thr', minPrecision, n - 1);
    }
  }

  /** The last precision and recall entries never influence the result:
      replacing them by anything gives the same choice. */
  lemma LastEntryIgnored(prec: seq<real>, rec: seq<real>, thr: seq<real>, minPrecision: real, p: real, r: real)
    requires |prec| > 0 && |rec| > 0
    ensures Choose(prec[..|prec| - 1] + [p], rec[..|rec| - 1] + [r], thr, minPrecision)
         == Choose(prec, rec, thr, minPrecision)
  {
    var prec', rec' := prec[..|prec| - 1] + [p], rec[..|rec| - 1] + [r];
    var n := Considered(prec, rec, thr);
    assert Considered(prec', rec', thr) == n;
    assert prec[..n] == prec'[..n];
    assert rec[..n] == rec'[..n];
    ScanPrefix(prec, rec, thr, prec', rec', thr, minPrecision, n);
  }

  /** Raising the precision floor never raises the returned recall. */
  lemma RecallAntitoneInMinPrecision(prec: seq<real>, rec: seq<real>, thr: seq<real>, lo: real, hi: real)
    requires lo <= hi
    ensures Choose(prec, rec, thr, hi).recall <= Choose(prec, rec, thr, lo).recall
  {
    var n := Considered(prec, rec, thr);
    ScanSelects(prec, rec, thr, lo, n);
    ScanSelects(prec, rec, thr, hi, n);
    var c := Choose(prec, rec, thr, hi);
    if exists i :: Eligible(prec, rec, hi, n, i) {
      var i :| IsBest(prec, rec, hi, n, i) && c == Choice(thr[i], rec[i]);
      assert Eligible(prec, rec, lo, n, i);
    }
  }

  /** When every recall lies in [0, 1], as on a real curve, the fallback is
      taken exactly when no considered point reaches the floor, and otherwise
      the returned recall is a genuine recall in [0, 1]. */
  lemma FallbackExactlyWhenUnsatisfiable(prec: seq<real>, rec: seq<real>, thr: seq<real>, minPrecision: real)
    requires forall i :: 0 <= i < |rec| ==> 0.0 <= rec[i] <= 1.0
    ensures var n := Considered(prec, rec, thr);
      var c := Choose(prec, rec, thr, minPrecision);
      (c == Fallback <==> forall i :: 0 <= i < n ==> prec[i] < minPrecision) &&
      c.recall >= NoRecall &&
      (c != Fallback ==> 0.0 <= c.recall <= 1.0)
  {
    var n := Considered(prec, rec, thr);
    ScanSelects(prec, rec, thr, minPrecision, n);
    var c := Choose(prec, rec, thr, minPrecision);
    if exists i :: Eligible(prec, rec, minPrecision, n, i) {
      var i :| IsBest(prec, rec, minPrecision, n, i) && c == Choice(thr[i], rec[i]);
    } else {
      forall i | 0 <= i < n ensures prec[i] < minPrecision {
        assert !Eligible(prec, rec, minPrecision, n, i);
      }
    }
  }

  /** The curve of probabilities [0.1, 0.4, 0.6, 0.9] with labels [0, 0, 1, 1]:
      at a precision floor of 0.9 the cutoff 0.6 is chosen, with recall 1. */
  lemma ExampleCurve()
    ensures Choose([0.5, 2.0 / 3.0, 1.0, 1.0, 1.0], [1.0, 1.0, 1.0, 0.5, 0.0], [0.1, 0.4, 0.6, 0.9], 0.9)
         == Choice(0.6, 1.0)
  {
  }

  /** Training's predictions `(proba >= thr).astype(int)`, one per probability. */
  function Predict(proba: seq<real>, threshold: real): (pred: seq<int>)
    ensures |pred| == |proba|
    ensures forall i :: 0 <= i < |proba| ==> pred[i] == Decide(proba[i], threshold)
    ensures forall i :: 0 <= i < |proba| ==> (pred[i] == 1 <==> proba[i] >= threshold)
  {
    if proba == [] then []
    else Predict(proba[..|proba| - 1], threshold) + [Decide(proba[|proba| - 1], threshold)]
  }
}
