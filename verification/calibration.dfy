/** The calibration gap the mentorship view shows between the clinician's confidence and
    the service's, and the fixed threshold above which it is flagged as high variance. */
module Calibration {
  import opened Wrappers
  import opened Types
  import opened Service
  import opened Workflow

  /** Gaps strictly above this many percentage points are flagged. */
  const HighVarianceThreshold := 20

  /** The service's confidence as the view reads it: that of the analysis, or 0 when
      there is none yet. */
  function AiConfidence(a: Option<Analysis>): int {
    if a.Some? then a.value.confidence else 0
  }

  /** The absolute difference between the two confidences. */
  function CalibrationGap(h: Hypothesis, a: Option<Analysis>): (g: nat)
    ensures g == h.confidence - AiConfidence(a) || g == AiConfidence(a) - h.confidence
    ensures g == 0 <==> h.confidence == AiConfidence(a)
  {
    var d := h.confidence - AiConfidence(a);
    if d < 0 then -d else d
  }

  predicate HighVariance(h: Hypothesis, a: Option<Analysis>) {
    CalibrationGap(h, a) > HighVarianceThreshold
  }

  /** The two worked examples: 60 against 85 is a 25-point gap and flagged; 70 against 80
      is a 10-point gap and not flagged. */
  lemma CalibrationExamples(diagnosis: string, reasoning: string)
    ensures CalibrationGap(Hypothesis(diagnosis, 60, reasoning), Some(Analysis("Pulmonary Embolism", 85))) == 25
    ensures HighVariance(Hypothesis(diagnosis, 60, reasoning), Some(Analysis("Pulmonary Embolism", 85)))
    ensures CalibrationGap(Hypothesis(diagnosis, 70, reasoning), Some(Analysis(diagnosis, 80))) == 10
    ensures !HighVariance(Hypothesis(diagnosis, 70, reasoning), Some(Analysis(diagnosis, 80)))
  {
  }

  /** A degraded diagnosis reads exactly like a missing one: the gap is the clinician's own
      confidence, so any confidence above the threshold is flagged as high variance. */
  lemma DegradedDiagnosisLooksLikeVariance(h: Hypothesis, reply: Reply<Analysis>)
    requires !reply.Parsed? && h.confidence >= 0
    ensures CalibrationGap(h, Some(DiagnosisOf(reply))) == CalibrationGap(h, None) == h.confidence
    ensures HighVariance(h, Some(DiagnosisOf(reply))) <==> h.confidence > HighVarianceThreshold
  {
  }

  /** After a successful commit the view compares the committed confidence with the
      confidence the join delivered. */
  lemma GapAfterCommit(s: Session, outcome: Joint)
    requires CanCommit(s.humanHypo) && outcome.Joined?
    ensures var r := CommitHypothesis(s, outcome);
      CalibrationGap(r.humanHypo, r.aiAnalysis) == CalibrationGap(s.humanHypo, Some(outcome.analysis))
  {
  }
}
