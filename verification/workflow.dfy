/** The Shadow-Mode session and the handlers that move it from one state to the next:
    case selection and reset, field edits, adding and removing symptoms, committing the
    hypothesis, going back to edit the rationale, finalizing, and starting the next case.
    Each handler is a pure function from the session before to the session after. */
module Workflow {
  import opened Wrappers
  import opened Types
  import opened Cases
  import opened Text
  import opened Service

  /** Everything the workflow holds for one session. `step` is 1 (intake), 2 (mentorship)
      or 3 (resolution); `currentSymptom` is the text typed into the symptom box and not yet
      added; `aiAnalysis` is None until a commit succeeds; `loading` is set while the two
      service calls are outstanding. */
  datatype Session = Session(
    step: int,
    isManualMode: bool,
    activePatient: Patient,
    currentSymptom: string,
    humanHypo: Hypothesis,
    nudges: seq<Nudge>,
    aiAnalysis: Option<Analysis>,
    loading: bool)

  /** The hypothesis a session starts from and every reset returns to. */
  const DefaultHypothesis := Hypothesis("", 70, "")

  /** The selector value that asks for a blank patient file. */
  const ManualOption := "manual"

  /** The vitals a blank patient file starts with. */
  const BlankVitals := Vitals(80.0, "120/80", 37.0, 98.0)

  /** The session when the workflow first appears: the first template, intake step. */
  const Initial := Session(1, false, MockPatients[0], "", DefaultHypothesis, [], None, false)

  /** The id of a blank patient file created at millisecond timestamp `now`. */
  function ManualId(now: nat): string {
    "manual-" + DecimalString(now)
  }

  predicate IsManualId(id: string) {
    |id| >= 7 && id[..7] == "manual-"
  }

  /** A fresh blank patient file. */
  function BlankPatient(now: nat): Patient {
    Patient(ManualId(now), "", 0, Male, [], "", BlankVitals)
  }

  /** Blank files created at different times get different ids. */
  lemma ManualIdsAreFresh(t1: nat, t2: nat)
    requires t1 != t2
    ensures ManualId(t1) != ManualId(t2)
    ensures IsManualId(ManualId(t1)) && !IsTemplateId(ManualId(t1))
  {
    if ManualId(t1) == ManualId(t2) {
      assert DecimalString(t1) == ManualId(t1)[7..];
      DecimalStringInjective(t1, t2);
    }
    LowerCaseIdsAreNotTemplates(ManualId(t1));
  }

  /** Forgets the hypothesis and any AI results and returns to intake. */
  function ResetAnalysisStates(s: Session): (r: Session)
    ensures r.step == 1 && r.humanHypo == DefaultHypothesis
    ensures r.nudges == [] && r.aiAnalysis == None
    ensures r.activePatient == s.activePatient && r.isManualMode == s.isManualMode
    ensures r.currentSymptom == s.currentSymptom && r.loading == s.loading
  {
    s.(humanHypo := DefaultHypothesis, nudges := [], aiAnalysis := None, step := 1)
  }

  /** The case selector (and the Reset Case button, which passes the active patient's id).
      "manual" loads a blank file at timestamp `now` and turns manual mode on; any other id
      turns manual mode off and loads a copy of the template with that id, keeping the
      current patient when no template has it. Every branch then resets the analysis. */
  function SelectCase(s: Session, patientId: string, now: nat): (r: Session)
    ensures r.step == 1 && r.humanHypo == DefaultHypothesis
    ensures r.nudges == [] && r.aiAnalysis == None
    ensures r.isManualMode <==> patientId == ManualOption
    ensures patientId == ManualOption ==>
              && r.activePatient.id == ManualId(now)
              && r.activePatient.name == "" && r.activePatient.history == ""
              && r.activePatient.age == 0 && r.activePatient.sex == Male
              && r.activePatient.symptoms == [] && r.activePatient.vitals == BlankVitals
    ensures forall i :: 0 <= i < |MockPatients| && MockPatients[i].id == patientId ==>
              r.activePatient == MockPatients[i]
    ensures patientId != ManualOption && !IsTemplateId(patientId) ==> r.activePatient == s.activePatient
    ensures r.currentSymptom == s.currentSymptom && r.loading == s.loading
  {
    TemplatesFoundById();
    if patientId == ManualOption then
      ResetAnalysisStates(s.(isManualMode := true, activePatient := BlankPatient(now)))
    else
      var selected := Find(MockPatients, patientId);
      ResetAnalysisStates(s.(isManualMode := false, activePatient := selected.GetOr(s.activePatient)))
  }

  /** The Reset Case button. */
  function ResetCase(s: Session, now: nat): Session {
    SelectCase(s, s.activePatient.id, now)
  }

  /** Reset Case on a template restores the template, discarding every edit of the record. */
  lemma ResetCaseRestoresTemplate(s: Session, now: nat, i: nat)
    requires i < |MockPatients| && s.activePatient.id == MockPatients[i].id
    ensures ResetCase(s, now).activePatient == MockPatients[i]
    ensures !ResetCase(s, now).isManualMode
  {
    LowerCaseIdsAreNotTemplates(ManualOption);
  }

  /** Reset Case on a blank file keeps the record as edited and turns manual mode off,
      since its id names no template. */
  lemma ResetCaseKeepsManualRecord(s: Session, now: nat)
    requires IsManualId(s.activePatient.id)
    ensures ResetCase(s, now).activePatient == s.activePatient
    ensures !ResetCase(s, now).isManualMode
    ensures ResetCase(s, now).humanHypo == DefaultHypothesis
  {
    assert s.activePatient.id[0] == 'm';
    LowerCaseIdsAreNotTemplates(s.activePatient.id);
  }

  /** Selecting the same case twice in a row has the effect of selecting it once. */
  lemma SelectCaseIdempotent(s: Session, patientId: string, now: nat)
    ensures SelectCase(SelectCase(s, patientId, now), patientId, now) == SelectCase(s, patientId, now)
  {
  }

  /** The Edit Rationale button: drops the AI results and returns to intake, keeping the
      hypothesis and the record so that the clinician can revise and commit again. */
  function ClearAiAnalysisAndRestart(s: Session): (r: Session)
    ensures r.step == 1 && r.nudges == [] && r.aiAnalysis == None
    ensures r.humanHypo == s.humanHypo && r.activePatient == s.activePatient
    ensures r.isManualMode == s.isManualMode && r.currentSymptom == s.currentSymptom
    ensures r.loading == s.loading
  {
    s.(nudges := [], aiAnalysis := None, step := 1)
  }

  /** Typing into the symptom box. */
  function SetCurrentSymptom(s: Session, text: string): (r: Session)
    ensures r.currentSymptom == text
    ensures r.(currentSymptom := s.currentSymptom) == s
  {
    s.(currentSymptom := text)
  }

  /** The Add button (or Enter in the symptom box): a pending text that is blank once
      trimmed is ignored; otherwise its trimmed form is appended, duplicates included, and
      the box is cleared. */
  function AddSymptom(s: Session): (r: Session)
    ensures Blank(s.currentSymptom) ==> r == s
    ensures !Blank(s.currentSymptom) ==>
              && |r.activePatient.symptoms| == |s.activePatient.symptoms| + 1
              && r.activePatient.symptoms[..|s.activePatient.symptoms|] == s.activePatient.symptoms
              && r.activePatient.symptoms[|s.activePatient.symptoms|] == Trim(s.currentSymptom)
              && r.currentSymptom == ""
              && r.activePatient.(symptoms := s.activePatient.symptoms) == s.activePatient
              && r.(activePatient := s.activePatient, currentSymptom := s.currentSymptom) == s
  {
    var t := Trim(s.currentSymptom);
    if t != "" then
      s.(activePatient := s.activePatient.(symptoms := s.activePatient.symptoms + [t]), currentSymptom := "")
    else
      s
  }

  /** The elements of `xs` whose position, counted from `start`, is not `idx`: the
      array `filter((_, i) => i !== idx)` applied to the tail of a list beginning at `start`. */
  function FilterPosition<T>(xs: seq<T>, idx: int, start: int): seq<T>
    decreases |xs|
  {
    if xs == [] then []
    else (if start == idx then [] else [xs[0]]) + FilterPosition(xs[1..], idx, start + 1)
  }

  /** Filtering by position deletes exactly the element at `idx` and shifts the later
      ones down; an `idx` outside the list deletes nothing. */
  lemma {:induction false} FilterPositionDeletes<T>(xs: seq<T>, idx: int, start: int)
    ensures start <= idx < start + |xs| ==>
              FilterPosition(xs, idx, start) == xs[..idx - start] + xs[idx - start + 1..]
    ensures !(start <= idx < start + |xs|) ==> FilterPosition(xs, idx, start) == xs
    decreases |xs|
  {
    if xs != [] {
      var tail := FilterPosition(xs[1..], idx, start + 1);
      assert FilterPosition(xs, idx, start) == (if start == idx then [] else [xs[0]]) + tail;
      FilterPositionDeletes(xs[1..], idx, start + 1);
      var k := idx - start;
      if start == idx {
        assert tail == xs[1..];
        assert xs[..0] + xs[1..] == xs[1..];
      } else if start < idx < start + |xs| {
        assert tail == xs[1..][..k - 1] + xs[1..][k..];
        assert [xs[0]] + xs[1..][..k - 1] == xs[..k];
        assert xs[1..][k..] == xs[k + 1..];
      } else {
        assert tail == xs[1..];
        assert [xs[0]] + xs[1..] == xs;
      }
    }
  }

  /** A symptom chip's remove icon. */
  function RemoveSymptom(s: Session, idx: int): (r: Session)
    ensures 0 <= idx < |s.activePatient.symptoms| ==>
              r.activePatient.symptoms == s.activePatient.symptoms[..idx] + s.activePatient.symptoms[idx + 1..]
    ensures !(0 <= idx < |s.activePatient.symptoms|) ==> r == s
    ensures r.activePatient.(symptoms := s.activePatient.symptoms) == s.activePatient
    ensures r.(activePatient := s.activePatient) == s
  {
    FilterPositionDeletes(s.activePatient.symptoms, idx, 0);
    s.(activePatient := s.activePatient.(symptoms := FilterPosition(s.activePatient.symptoms, idx, 0)))
  }

  /** Adding a symptom and then removing the chip it created gives back the record as
      it was (only the symptom box stays cleared). */
  lemma AddThenRemoveRestoresRecord(s: Session)
    requires !Blank(s.currentSymptom)
    ensures RemoveSymptom(AddSymptom(s), |s.activePatient.symptoms|) == s.(currentSymptom := "")
  {
    var a := AddSymptom(s);
    var n := |s.activePatient.symptoms|;
    assert a.activePatient.symptoms[..n] + a.activePatient.symptoms[n + 1..] == s.activePatient.symptoms;
  }

  /** Edits of one field of the patient record, as the intake form issues them. Age and the
      numeric vitals come from `parseInt`/`parseFloat` of the typed text, given here as the
      parsed value or None when parsing fails. */
  datatype VitalEdit =
    | HeartRate(hr: Option<real>)
    | BloodPressure(bp: string)
    | Temperature(temp: Option<real>)
    | Oxygen(o2: Option<real>)

  datatype PatientEdit =
    | Name(name: string)
    | Age(age: Option<int>)
    | SexChoice(sex: Sex)
    | History(history: string)
    | Vital(vital: VitalEdit)

  datatype HypothesisEdit =
    | Diagnosis(diagnosis: string)
    | Confidence(confidence: int)
    | Reasoning(reasoning: string)

  /** `updateVital`: one vital changes; a numeric text that does not parse (or parses to
      zero) is stored as 0. */
  function UpdateVital(v: Vitals, e: VitalEdit): (r: Vitals)
    ensures e.HeartRate? ==> r.hr == e.hr.GetOr(0.0) && r.(hr := v.hr) == v
    ensures e.BloodPressure? ==> r.bp == e.bp && r.(bp := v.bp) == v
    ensures e.Temperature? ==> r.temp == e.temp.GetOr(0.0) && r.(temp := v.temp) == v
    ensures e.Oxygen? ==> r.o2 == e.o2.GetOr(0.0) && r.(o2 := v.o2) == v
  {
    match e
    case HeartRate(x) => v.(hr := x.GetOr(0.0))
    case BloodPressure(x) => v.(bp := x)
    case Temperature(x) => v.(temp := x.GetOr(0.0))
    case Oxygen(x) => v.(o2 := x.GetOr(0.0))
  }

  /** The intake form's record fields. No edit touches the id or the symptom list. */
  function EditPatient(p: Patient, e: PatientEdit): (r: Patient)
    ensures r.id == p.id && r.symptoms == p.symptoms
    ensures e.Name? ==> r.name == e.name && r.(name := p.name) == p
    ensures e.Age? ==> r.age == e.age.GetOr(0) && r.(age := p.age) == p
    ensures e.SexChoice? ==> r.sex == e.sex && r.(sex := p.sex) == p
    ensures e.History? ==> r.history == e.history && r.(history := p.history) == p
    ensures e.Vital? ==> r.vitals == UpdateVital(p.vitals, e.vital) && r.(vitals := p.vitals) == p
  {
    match e
    case Name(x) => p.(name := x)
    case Age(x) => p.(age := x.GetOr(0))
    case SexChoice(x) => p.(sex := x)
    case History(x) => p.(history := x)
    case Vital(x) => p.(vitals := UpdateVital(p.vitals, x))
  }

  /** The hypothesis panel's fields. The confidence slider's value is taken as given. */
  function EditHypothesis(h: Hypothesis, e: HypothesisEdit): (r: Hypothesis)
    ensures e.Diagnosis? ==> r.diagnosis == e.diagnosis && r.(diagnosis := h.diagnosis) == h
    ensures e.Confidence? ==> r.confidence == e.confidence && r.(confidence := h.confidence) == h
    ensures e.Reasoning? ==> r.reasoning == e.reasoning && r.(reasoning := h.reasoning) == h
  {
    match e
    case Diagnosis(x) => h.(diagnosis := x)
    case Confidence(x) => h.(confidence := x)
    case Reasoning(x) => h.(reasoning := x)
  }

  /** Whether two edits write the same field of the record. */
  predicate SameField(e1: PatientEdit, e2: PatientEdit) {
    match e1
    case Name(_) => e2.Name?
    case Age(_) => e2.Age?
    case SexChoice(_) => e2.SexChoice?
    case History(_) => e2.History?
    case Vital(v) =>
      && e2.Vital?
      && (v.HeartRate? <==> e2.vital.HeartRate?) && (v.BloodPressure? <==> e2.vital.BloodPressure?)
      && (v.Temperature? <==> e2.vital.Temperature?) && (v.Oxygen? <==> e2.vital.Oxygen?)
  }

  /** Two edits of the same field: the second one wins. */
  lemma LastPatientEditWins(p: Patient, e1: PatientEdit, e2: PatientEdit)
    requires SameField(e1, e2)
    ensures EditPatient(EditPatient(p, e1), e2) == EditPatient(p, e2)
  {
  }

  /** Edits of different fields do not interfere: their order does not matter. */
  lemma DistinctPatientEditsCommute(p: Patient, e1: PatientEdit, e2: PatientEdit)
    requires !SameField(e1, e2)
    ensures EditPatient(EditPatient(p, e1), e2) == EditPatient(EditPatient(p, e2), e1)
  {
  }

  /** Hypothesis edits behave the same way: of two edits of one field the second wins,
      and edits of different fields commute. Neither kind of edit can clear the other
      field the commit guard reads. */
  lemma HypothesisEditsCompose(h: Hypothesis, e1: HypothesisEdit, e2: HypothesisEdit)
    ensures e1.Diagnosis? == e2.Diagnosis? && e1.Confidence? == e2.Confidence? ==>
              EditHypothesis(EditHypothesis(h, e1), e2) == EditHypothesis(h, e2)
    ensures !(e1.Diagnosis? == e2.Diagnosis? && e1.Confidence? == e2.Confidence?) ==>
              EditHypothesis(EditHypothesis(h, e1), e2) == EditHypothesis(EditHypothesis(h, e2), e1)
    ensures e1.Confidence? ==> (CanCommit(EditHypothesis(h, e1)) <==> CanCommit(h))
  {
  }

  /** The commit guard: both a diagnosis and a rationale have been written. */
  predicate CanCommit(h: Hypothesis) {
    h.diagnosis != "" && h.reasoning != ""
  }

  /** Whether the commit button is enabled: the guard holds and no commit is in flight. */
  predicate CommitEnabled(s: Session) {
    CanCommit(s.humanHypo) && !s.loading
  }

  /** The first half of `handleCommitHypothesis`: None when the guard fails (nothing is
      sent); otherwise the session marked busy while the two calls are outstanding. */
  function BeginCommit(s: Session): (r: Option<Session>)
    ensures r.None? <==> !CanCommit(s.humanHypo)
    ensures r.Some? ==> r.value.loading && r.value.(loading := s.loading) == s
  {
    if !CanCommit(s.humanHypo) then None else Some(s.(loading := true))
  }

  /** The second half: once the join settles, a success stores both results and moves to
      mentorship; a rejection leaves everything as it was. Either way the busy flag drops. */
  function CompleteCommit(s: Session, outcome: Joint): (r: Session)
    ensures !r.loading
    ensures outcome.Joined? ==>
              r.step == 2 && r.nudges == outcome.nudges && r.aiAnalysis == Some(outcome.analysis)
    ensures outcome.Rejected? ==> r == s.(loading := false)
    ensures r.humanHypo == s.humanHypo && r.activePatient == s.activePatient
    ensures r.isManualMode == s.isManualMode && r.currentSymptom == s.currentSymptom
  {
    match outcome
    case Joined(ns, a) => s.(nudges := ns, aiAnalysis := Some(a), step := 2, loading := false)
    case Rejected => s.(loading := false)
  }

  /** `handleCommitHypothesis` with the join treated as one atomic outcome. */
  function CommitHypothesis(s: Session, outcome: Joint): (r: Session)
    ensures !CanCommit(s.humanHypo) ==> r == s
    ensures CanCommit(s.humanHypo) ==> !r.loading
    ensures CanCommit(s.humanHypo) && outcome.Joined? ==>
              r.step == 2 && r.nudges == outcome.nudges && r.aiAnalysis == Some(outcome.analysis)
    ensures outcome.Rejected? ==> r.step == s.step && r.nudges == s.nudges && r.aiAnalysis == s.aiAnalysis
    ensures r.humanHypo == s.humanHypo && r.activePatient == s.activePatient
    ensures r.isManualMode == s.isManualMode && r.currentSymptom == s.currentSymptom
  {
    match BeginCommit(s)
    case None => s
    case Some(busy) => CompleteCommit(busy, outcome)
  }

  /** A commit whose guard fails consumes no service outcome: any two outcomes give the
      same, unchanged session. */
  lemma GuardedCommitIgnoresOutcome(s: Session, o1: Joint, o2: Joint)
    requires !CanCommit(s.humanHypo)
    ensures CommitHypothesis(s, o1) == CommitHypothesis(s, o2) == s
  {
  }

  /** Edit Rationale undoes a successful commit: from a settled intake session, committing
      and then going back returns exactly the session before the commit. */
  lemma EditRationaleUndoesCommit(s: Session, outcome: Joint)
    requires s.step == 1 && s.nudges == [] && s.aiAnalysis == None && !s.loading
    requires CanCommit(s.humanHypo) && outcome.Joined?
    ensures ClearAiAnalysisAndRestart(CommitHypothesis(s, outcome)) == s
  {
  }

  /** The Finalize Case button. */
  function Finalize(s: Session): (r: Session)
    ensures r.step == 3 && r.(step := s.step) == s
  {
    s.(step := 3)
  }

  /** The Next Clinical Case button: back to intake on the first template with a default
      hypothesis and no AI results. The symptom box and the busy flag are not touched. */
  function NextCase(s: Session): (r: Session)
    ensures r == Initial.(currentSymptom := s.currentSymptom, loading := s.loading)
    ensures s.currentSymptom == "" && !s.loading ==> r == Initial
  {
    s.(step := 1, humanHypo := DefaultHypothesis, isManualMode := false,
       activePatient := MockPatients[0], nudges := [], aiAnalysis := None)
  }
}
