/** The workflow as a state machine over user actions. Each action is the handler of one
    control, and a control can only be used while its step renders it: the intake form and
    the commit button in step 1, Edit Rationale and Finalize Case in step 2, Next Clinical
    Case in step 3. The commit is one atomic step whose outcome is given. */
module Machine {
  import opened Wrappers
  import opened Types
  import opened Cases
  import opened Text
  import opened Service
  import W = Workflow

  datatype Action =
    | Select(patientId: string, now: nat)
    | Reset(now: nat)
    | EditRecord(edit: W.PatientEdit)
    | TypeSymptom(text: string)
    | AddSymptom
    | RemoveSymptom(idx: int)
    | EditHypo(hedit: W.HypothesisEdit)
    | Commit(outcome: Joint)
    | EditRationale
    | Finalize
    | NextCase

  /** The option the case selector shows: "manual" in manual mode, otherwise the record's
      id when it names a template. A controlled select whose value matches no option (a
      blank file after Reset Case) shows its first option, the first template. */
  function SelectorValue(s: W.Session): string {
    if s.isManualMode then W.ManualOption
    else if IsTemplateId(s.activePatient.id) then s.activePatient.id
    else MockPatients[0].id
  }

  /** Whether the control behind `a` is on screen and enabled in session `s`. The selector
      offers the template ids and "manual", and reports a choice only when it differs from
      the value it shows; the slider ranges over 1..100. */
  predicate Available(s: W.Session, a: Action) {
    match a
    case Select(id, _) => s.step == 1 && (id == W.ManualOption || IsTemplateId(id)) && id != SelectorValue(s)
    case Reset(_) => s.step == 1
    case EditRecord(_) => s.step == 1
    case TypeSymptom(_) => s.step == 1
    case AddSymptom => s.step == 1
    case RemoveSymptom(_) => s.step == 1
    case EditHypo(e) => s.step == 1 && (e.Confidence? ==> 1 <= e.confidence <= 100)
    case Commit(_) => s.step == 1 && W.CommitEnabled(s)
    case EditRationale => s.step == 2
    case Finalize => s.step == 2
    case NextCase => s.step == 3
  }

  /** The handler of `a`; an action whose control is not available leaves `s` alone. */
  function Apply(s: W.Session, a: Action): W.Session {
    if !Available(s, a) then s
    else
      match a
      case Select(id, now) => W.SelectCase(s, id, now)
      case Reset(now) => W.ResetCase(s, now)
      case EditRecord(e) => s.(activePatient := W.EditPatient(s.activePatient, e))
      case TypeSymptom(t) => W.SetCurrentSymptom(s, t)
      case AddSymptom => W.AddSymptom(s)
      case RemoveSymptom(i) => W.RemoveSymptom(s, i)
      case EditHypo(e) => s.(humanHypo := W.EditHypothesis(s.humanHypo, e))
      case Commit(o) => W.CommitHypothesis(s, o)
      case EditRationale => W.ClearAiAnalysisAndRestart(s)
      case Finalize => W.Finalize(s)
      case NextCase => W.NextCase(s)
  }

  /** The session after a sequence of actions. */
  function Run(s: W.Session, actions: seq<Action>): W.Session
    decreases |actions|
  {
    if actions == [] then s else Run(Apply(s, actions[0]), actions[1..])
  }

  /** The id of a record the selector can have loaded: a template's or a blank file's. */
  predicate KnownId(id: string) {
    IsTemplateId(id) || W.IsManualId(id)
  }

  /** What holds in every session reachable from the initial one. */
  predicate Inv(s: W.Session) {
    && 1 <= s.step <= 3
    && !s.loading
    && (s.step == 1 ==> s.nudges == [] && s.aiAnalysis == None)
    && (s.step >= 2 ==> s.aiAnalysis.Some? && W.CanCommit(s.humanHypo))
    && 1 <= s.humanHypo.confidence <= 100
    && (s.isManualMode ==> W.IsManualId(s.activePatient.id))
    && KnownId(s.activePatient.id)
  }

  lemma InitialSatisfiesInv()
    ensures Inv(W.Initial)
  {
    TemplatesFoundById();
  }

  /** Any handler, whether or not its control is available, keeps the step in 1..3. */
  lemma StepStaysInRange(s: W.Session, a: Action)
    requires 1 <= s.step <= 3
    ensures 1 <= Apply(s, a).step <= 3
  {
  }

  /** Every action keeps the invariant. */
  lemma ApplyPreservesInv(s: W.Session, a: Action)
    requires Inv(s)
    ensures Inv(Apply(s, a))
  {
    if Available(s, a) {
      match a
      case Select(id, now) =>
        if id == W.ManualOption {
          assert W.ManualId(now)[..7] == "manual-";
        }
      case Reset(now) =>
        LowerCaseIdsAreNotTemplates(W.ManualOption);
      case _ =>
    }
  }

  /** Every session reachable from one satisfying the invariant satisfies it. */
  lemma {:induction false} RunPreservesInv(s: W.Session, actions: seq<Action>)
    requires Inv(s)
    ensures Inv(Run(s, actions))
    decreases |actions|
  {
    if actions != [] {
      ApplyPreservesInv(s, actions[0]);
      RunPreservesInv(Apply(s, actions[0]), actions[1..]);
    }
  }

  /** In particular every session the user can reach satisfies it. */
  lemma ReachableSatisfiesInv(actions: seq<Action>)
    ensures Inv(Run(W.Initial, actions))
  {
    InitialSatisfiesInv();
    RunPreservesInv(W.Initial, actions);
  }

  /** The only step changes are intake to mentorship by a successful commit of a guarded
      hypothesis, mentorship back to intake by Edit Rationale, mentorship to resolution by
      Finalize Case, and resolution back to intake by Next Clinical Case. */
  lemma StepTransitions(s: W.Session, a: Action)
    requires Inv(s)
    ensures var r := Apply(s, a);
      && (s.step == 1 && r.step == 2 <==> a.Commit? && a.outcome.Joined? && W.CanCommit(s.humanHypo) && s.step == 1)
      && (s.step == 1 ==> r.step != 3)
      && (s.step == 2 && r.step == 1 <==> s.step == 2 && a.EditRationale?)
      && (s.step == 2 && r.step == 3 <==> s.step == 2 && a.Finalize?)
      && (s.step == 3 ==> r.step == 3 || a.NextCase?)
  {
  }

  /** While a commit is outstanding the commit button is disabled, so a second click
      changes nothing. */
  lemma NoReentryWhileLoading(s: W.Session, outcome: Joint)
    requires s.loading
    ensures Apply(s, Commit(outcome)) == s
  {
  }

  /** Picking the option the selector already shows reports no change, so it neither
      loads a fresh blank file in manual mode nor reloads a template. */
  lemma ReselectingShownValueIsIgnored(s: W.Session, now: nat)
    ensures Apply(s, Select(SelectorValue(s), now)) == s
  {
  }

  /** After Reset Case on a blank file, manual mode is off and the record's id names no
      option, so the selector shows the first template: picking it reports nothing, while
      picking "manual" or another template does. */
  lemma SelectorAfterManualReset(s: W.Session, t: nat, u: nat, now: nat)
    ensures var r := W.ResetCase(W.SelectCase(s, W.ManualOption, t), u);
      && !r.isManualMode && r.activePatient.id == W.ManualId(t)
      && SelectorValue(r) == Id001
      && Apply(r, Select(Id001, now)) == r
      && Available(r, Select(W.ManualOption, now)) && Available(r, Select(Id002, now))
  {
    var r := W.ResetCase(W.SelectCase(s, W.ManualOption, t), u);
    W.ManualIdsAreFresh(t, t + 1);
    TemplateLookups();
    assert Id002 != Id001 by { assert Id002[7] != Id001[7]; }
  }

  /** Wired to the real service, whose calls never reject, a commit with the guard met
      always reaches mentorship. */
  lemma CommitWithServiceAdvances(s: W.Session, nudgeReply: Reply<seq<Nudge>>, diagnosisReply: Reply<Analysis>)
    requires Inv(s) && s.step == 1 && W.CanCommit(s.humanHypo)
    ensures Apply(s, Commit(JoinReplies(nudgeReply, diagnosisReply))).step == 2
  {
  }

  /** From resolution, Next Clinical Case returns to the initial session, except that text
      left in the symptom box stays there. */
  lemma NextCaseRestarts(s: W.Session)
    requires Inv(s) && s.step == 3
    ensures Apply(s, NextCase) == W.Initial.(currentSymptom := s.currentSymptom)
    ensures s.currentSymptom == "" ==> Apply(s, NextCase) == W.Initial
  {
  }
}
