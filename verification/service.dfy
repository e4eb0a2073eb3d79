/** The observable behaviour of the two calls to the diagnostic reasoning service.
    The request text, the network exchange and the JSON decoding are not modelled: what
    the backend said is an input, and each call's result is a function of it. */
module Service {
  import opened Types

  /** What one backend request came back with, as the client sees it: text that decodes
      to a value of the requested schema, an empty response text, or a failure (the request
      rejected, or the text did not decode). */
  datatype Reply<T> = Parsed(value: T) | EmptyText | Failed

  /** The diagnosis the client substitutes for an empty response text. */
  const Inconclusive := Analysis("Inconclusive", 0)

  /** The diagnosis the client substitutes when the request or its decoding fails. */
  const AnalysisError := Analysis("Error in analysis", 0)

  /** The prompts `generateSocraticNudges` resolves to. It never rejects: an empty text
      decodes the fallback "[]", and a failure is absorbed into the empty list. */
  function NudgesOf(reply: Reply<seq<Nudge>>): (r: seq<Nudge>)
    ensures reply.Parsed? ==> r == reply.value
    ensures !reply.Parsed? ==> r == []
  {
    match reply
    case Parsed(ns) => ns
    case EmptyText => []
    case Failed => []
  }

  /** An empty list of prompts means either that the backend sent an empty list or that
      nothing usable came back: the two cannot be told apart. */
  lemma EmptyNudgesAreAmbiguous(reply: Reply<seq<Nudge>>)
    ensures NudgesOf(reply) == [] <==> !reply.Parsed? || reply.value == []
    ensures NudgesOf(EmptyText) == NudgesOf(Failed) == NudgesOf(Parsed([]))
  {
  }

  /** The diagnosis `getAIDiagnosis` resolves to. It never rejects either: an empty text
      decodes the "Inconclusive" fallback, and a failure is absorbed into the error sentinel. */
  function DiagnosisOf(reply: Reply<Analysis>): (r: Analysis)
    ensures reply.Parsed? ==> r == reply.value
    ensures reply.EmptyText? ==> r.diagnosis == "Inconclusive" && r.confidence == 0
    ensures reply.Failed? ==> r.diagnosis == "Error in analysis" && r.confidence == 0
  {
    match reply
    case Parsed(a) => a
    case EmptyText => Inconclusive
    case Failed => AnalysisError
  }

  /** The outcome of awaiting both calls together: both results, or a rejection of the join. */
  datatype Joint = Joined(nudges: seq<Nudge>, analysis: Analysis) | Rejected

  /** Joining the two calls. `NudgesOf` and `DiagnosisOf` are total because both service
      methods catch every error and return a fallback; this records the consequence: the
      join always delivers both results, whatever the backend said to each request. */
  function JoinReplies(nudgeReply: Reply<seq<Nudge>>, diagnosisReply: Reply<Analysis>): (j: Joint)
    ensures j.Joined?
    ensures j.nudges == NudgesOf(nudgeReply) && j.analysis == DiagnosisOf(diagnosisReply)
  {
    Joined(NudgesOf(nudgeReply), DiagnosisOf(diagnosisReply))
  }

  /** A degraded diagnosis always reports zero confidence, and the two fallbacks stay
      distinguishable from each other. */
  lemma DegradedDiagnosisHasZeroConfidence(reply: Reply<Analysis>)
    requires !reply.Parsed?
    ensures DiagnosisOf(reply).confidence == 0
    ensures DiagnosisOf(reply) == Inconclusive <==> reply.EmptyText?
  {
    assert Inconclusive.diagnosis[0] != AnalysisError.diagnosis[0];
  }
}
