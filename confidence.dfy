/** src/accountability/confidence.py: confidence as the distance of the
    probability from the decision boundary 0.5, scaled to [0, 1], and a
    three-tier status that flags the lowest tier for human review. */
module Confidence {

  /** The two thresholds fixed by `ConfidenceEstimator.__init__`. */
  datatype Estimator = Estimator(high: real, low: real)

  const DefaultEstimator := Estimator(0.8, 0.4)

  const HighStatus := "High"
  const MediumStatus := "Medium"
  const LowStatus := "Low - Manual Review Recommended"
  const NearBoundaryReason := "Prediction is near the decision boundary (0.5), indicating uncertainty."
  const ConfidentReason := "Model is confident in its classification."

  datatype Assessment = Assessment(score: real, status: string, reviewRequired: bool, reason: string)

  function Abs(x: real): real { if x < 0.0 then -x else x }

  /** `abs(prob - 0.5) * 2`. */
  function Score(p: real): (s: real)
    ensures s >= 0.0
    ensures 0.0 <= p <= 1.0 ==> s <= 1.0
    ensures s == 0.0 <==> p == 0.5
  {
    Abs(p - 0.5) * 2.0
  }

  /** `estimate(prob)`: below the low threshold the status is Low and review
      is required; below the high threshold it is Medium; otherwise High. */
  function Estimate(e: Estimator, p: real): (r: Assessment)
    ensures r.score == Score(p)
    ensures r.reviewRequired <==> r.score < e.low
    ensures r.score < e.low ==> r.status == LowStatus
    ensures e.low <= r.score < e.high ==> r.status == MediumStatus
    ensures e.low <= r.score && e.high <= r.score ==> r.status == HighStatus
    ensures r.reason == if r.reviewRequired then NearBoundaryReason else ConfidentReason
  {
    var s := Score(p);
    var status := if s < e.low then LowStatus else if s < e.high then MediumStatus else HighStatus;
    var review := s < e.low;
    Assessment(s, status, review, if review then NearBoundaryReason else ConfidentReason)
  }

  /** A probability and its complement are equally certain. */
  lemma EstimateSymmetric(e: Estimator, p: real)
    ensures Estimate(e, p) == Estimate(e, 1.0 - p)
  {
    assert Abs((1.0 - p) - 0.5) == Abs(p - 0.5);
  }

  /** Farther from 0.5 never means less confident, and never brings back
      the review flag. */
  lemma EstimateMonotone(e: Estimator, p: real, q: real)
    requires Abs(p - 0.5) <= Abs(q - 0.5)
    ensures Estimate(e, p).score <= Estimate(e, q).score
    ensures Estimate(e, q).reviewRequired ==> Estimate(e, p).reviewRequired
  {
  }

  /** With the default thresholds the status names exactly the interval the
      score falls in. */
  lemma DefaultTiers(p: real)
    ensures var r := Estimate(DefaultEstimator, p);
      && (r.status == LowStatus <==> r.score < 0.4)
      && (r.status == MediumStatus <==> 0.4 <= r.score < 0.8)
      && (r.status == HighStatus <==> 0.8 <= r.score)
  {
  }
}
