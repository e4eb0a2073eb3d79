# Shadow-Mode workflow: a Dafny model

The Shadow-Mode workflow walks a clinician through one patient case in three steps.
Step 1 is intake: the clinician edits the patient record and writes a hypothesis (diagnosis, confidence, rationale).
Committing the hypothesis asks the reasoning service for Socratic nudges and for its own diagnosis, both at once.
Step 2 is mentorship: the nudges and a calibration gap between the two confidences are shown.
From there the clinician can go back to edit the rationale, or finalize.
Step 3 is resolution: from there "Next Clinical Case" starts over.

The model is a session datatype with one pure transition function per handler of `components/ShadowModeWorkflow.tsx`.
Around it sit:

- the records of `types.ts`;
- the three template cases of `constants.ts`;
- the outcomes the two service calls of `services/geminiService.ts` can resolve to.

Modules:

- `Wrappers`: `Option` with `GetOr`. This is `x || 0` for a lenient numeric parse.
- `Types`: patient, vitals, hypothesis, nudge and analysis records.
- `Cases`: the three template cases and the first-match lookup by id.
- `Text`: JavaScript `trim` over the ECMAScript whitespace set, and the decimal rendering of the timestamp that names a blank file. Both come with a characterisation and a round trip.
- `Service`:
  - the backend reply as an input (parsed, empty text or failed);
  - what each call resolves to;
  - the join of the two calls.
- `Workflow`: the session and every handler.
  - Case selection and Reset Case.
  - Field edits, and adding and removing symptoms.
  - The commit, split into its two halves and also as one atomic step.
  - Edit Rationale, Finalize Case and Next Clinical Case.
- `Calibration`: the gap and the high-variance flag of the mentorship view.
- `Machine`: the handlers as a state machine, with each control usable only in the step that renders it. It carries an invariant that holds in every session reachable from the initial one.
- `InFlight`: the commit with its two halves apart, so that other actions can happen while the service calls are outstanding. See Findings.

Behaviours of the code worth knowing:

- **Age can be negative.** The age field is `parseInt(text) || 0`, so typing `-5` stores -5.
- **Reset Case on a blank file keeps the record.** Reset Case passes the active record's own id to the selector. A blank file's id (`manual-…`) names no template, so the record is kept as edited and manual mode is turned off.
- **Next Clinical Case touches fewer fields.** It does not clear the pending symptom text or the busy flag. It is a full reset only when those are already empty.
- **The transport-failure branch never fires with the real service.** Both service calls catch every error and return a fallback, so the join in `handleCommitHypothesis` never rejects. The model keeps the rejected branch, because the commit takes its outcome as an input. `Service.NudgesOf` and `Service.DiagnosisOf` are total functions for exactly that reason (the catches at geminiService.ts lines 54-57 and 92-95), and `Service.JoinReplies` records the consequence: joining the two always gives `Joined`.

## Model

| member | source | states |
|---|---|---|
| Cases.Find | components/ShadowModeWorkflow.tsx:41 | The lookup returns a case from the list that has the requested id. It returns None exactly when no case has that id. When several match, it returns the first. |
| Cases.TemplatesFoundById | constants.ts:4-32 | The template ids are pairwise distinct, so looking up any template's id finds that very template. |
| Cases.TemplateLookups | constants.ts:4-32 | CASE-001, CASE-002 and CASE-003 find Robert Miller's, Sarah Chen's and Elena Rodriguez's records respectively. |
| Cases.OtherIdsAreNotTemplates | constants.ts:4-32 | An id that is none of the three template ids finds nothing. |
| Cases.TemplateIdsStartUpperCase | constants.ts:6-24 | No template id starts with a lower-case letter. |
| Cases.LowerCaseIdsAreNotTemplates | constants.ts:4-32 | An id starting with a lower-case letter (such as "manual" or "manual-…") finds no template. |
| Text.LeadingBlank | components/ShadowModeWorkflow.tsx:63 | The returned count is the length of the longest whitespace prefix: every character before it is whitespace, and the character at it is not. |
| Text.TrailingBlank | components/ShadowModeWorkflow.tsx:63 | The returned count is the length of the longest whitespace suffix. |
| Text.Trim | components/ShadowModeWorkflow.tsx:63-66 | Trimming yields a slice of the input with only whitespace cut from either end, and neither end of the result is whitespace. The result is empty exactly when the input is all whitespace. |
| Text.SameStart | components/ShadowModeWorkflow.tsx:63 | Two whitespace prefixes that both stop at a non-whitespace character are equally long. |
| Text.SameEnd | components/ShadowModeWorkflow.tsx:63 | Two whitespace suffixes that both start after a non-whitespace character are equally long. |
| Text.BlankAround | components/ShadowModeWorkflow.tsx:63 | A whitespace prefix and a whitespace suffix that meet make the whole string whitespace. |
| Text.NonEmptyTrimsAgree | components/ShadowModeWorkflow.tsx:63 | Two non-empty trimmings of one string are equal. |
| Text.TrimmedFromIsUnique | components/ShadowModeWorkflow.tsx:63-66 | The trimming characterisation has exactly one solution, and `Trim` computes it. |
| Text.TrimIdempotent | components/ShadowModeWorkflow.tsx:63-66 | Trimming an already trimmed string changes nothing. |
| Text.DigitChar | components/ShadowModeWorkflow.tsx:31 | A digit below ten renders as an ASCII digit character. |
| Text.DecimalString | components/ShadowModeWorkflow.tsx:31 | A timestamp renders as a non-empty string of decimal digits with no leading zero. |
| Text.DecimalRoundTrip | components/ShadowModeWorkflow.tsx:31 | Reading the rendered digits back gives the timestamp. |
| Text.DecimalStringInjective | components/ShadowModeWorkflow.tsx:31 | Different timestamps render differently. |
| Service.NudgesOf | services/geminiService.ts:12-58 | The nudges call resolves to the decoded list. On an empty response text or on any failure it resolves to the empty list. It never rejects. |
| Service.EmptyNudgesAreAmbiguous | services/geminiService.ts:53-56 | The nudge list is empty exactly when the backend sent an empty list or nothing usable came back; an empty text, a failure and an empty list all give the same result. |
| Service.DiagnosisOf | services/geminiService.ts:60-96 | The diagnosis call resolves to the decoded analysis. On an empty response text it resolves to ("Inconclusive", 0). On any failure it resolves to ("Error in analysis", 0). It never rejects. |
| Service.JoinReplies | components/ShadowModeWorkflow.tsx:84-87 | Since both calls are total (each catches every error), awaiting both together delivers both results, whatever the backend says to either request. |
| Service.DegradedDiagnosisHasZeroConfidence | services/geminiService.ts:91-94 | Both diagnosis fallbacks carry zero confidence. The "Inconclusive" one arises exactly from an empty response text. |
| Workflow.ManualIdsAreFresh | components/ShadowModeWorkflow.tsx:31 | Blank files created at different timestamps get different ids. No such id names a template. |
| Workflow.ResetAnalysisStates | components/ShadowModeWorkflow.tsx:49-54 | The reset goes back to intake. The hypothesis becomes ("", 70, ""), and nudges and analysis are cleared. The patient, manual mode, the symptom box and the busy flag are kept. |
| Workflow.SelectCase | components/ShadowModeWorkflow.tsx:27-47 | "manual" loads a blank record with manual mode on. The blank record has id "manual-"+timestamp, empty name, history and symptoms, age 0, sex M and vitals 80 / "120/80" / 37.0 / 98. A template id loads exactly that template with manual mode off. Any other id keeps the patient with manual mode off. Every branch resets the analysis state. |
| Workflow.ResetCaseRestoresTemplate | components/ShadowModeWorkflow.tsx:155-156 | Reset Case on a template's record restores the template, discarding every edit, and leaves manual mode off. |
| Workflow.ResetCaseKeepsManualRecord | components/ShadowModeWorkflow.tsx:155-156 | Reset Case on a blank file keeps the record as edited, turns manual mode off and resets the hypothesis. |
| Workflow.SelectCaseIdempotent | components/ShadowModeWorkflow.tsx:27-54 | Selecting the same case twice at the same timestamp is the same as selecting it once. |
| Workflow.ClearAiAnalysisAndRestart | components/ShadowModeWorkflow.tsx:56-60 | Edit Rationale returns to intake with nudges and analysis cleared. It keeps the hypothesis, the patient, manual mode, the symptom box and the busy flag. |
| Workflow.SetCurrentSymptom | components/ShadowModeWorkflow.tsx:242 | Typing replaces the pending symptom text and nothing else. |
| Workflow.AddSymptom | components/ShadowModeWorkflow.tsx:62-70 | Text that trims to empty changes nothing. Otherwise the list grows by one, the earlier symptoms are kept in order, the trimmed text is last (duplicates kept), the box is cleared and nothing else changes. |
| Workflow.FilterPositionDeletes | components/ShadowModeWorkflow.tsx:75 | Filtering out one position deletes exactly that element and shifts the later ones down. A position outside the list deletes nothing. |
| Workflow.RemoveSymptom | components/ShadowModeWorkflow.tsx:72-77 | An in-range index deletes exactly that symptom and shifts the later ones down. An out-of-range index changes nothing. No other field changes. |
| Workflow.AddThenRemoveRestoresRecord | components/ShadowModeWorkflow.tsx:62-77 | Adding a symptom and removing the chip it created gives back the original record. |
| Workflow.UpdateVital | components/ShadowModeWorkflow.tsx:99-104 | A vital edit changes only that vital. A numeric text that does not parse is stored as 0. |
| Workflow.EditPatient | components/ShadowModeWorkflow.tsx:171-275 | Each form field edit changes only that field. Age falls back to 0 when the text does not parse. The id and the symptom list are never touched. |
| Workflow.LastPatientEditWins | components/ShadowModeWorkflow.tsx:171-275 | Of two edits of the same record field, the second one wins. |
| Workflow.DistinctPatientEditsCommute | components/ShadowModeWorkflow.tsx:171-275 | Edits of different record fields commute. |
| Workflow.EditHypothesis | components/ShadowModeWorkflow.tsx:304-332 | The diagnosis box, the slider and the rationale box each change only their own field. |
| Workflow.HypothesisEditsCompose | components/ShadowModeWorkflow.tsx:304-332 | Of two hypothesis edits of one field, the second wins, and edits of different fields commute. Moving the slider neither enables nor disables the commit. |
| Workflow.BeginCommit | components/ShadowModeWorkflow.tsx:79-82 | Nothing is sent exactly when the diagnosis or the rationale is empty. Otherwise the session only becomes busy. |
| Workflow.CompleteCommit | components/ShadowModeWorkflow.tsx:83-96 | When the join succeeds, the results are stored and the step becomes 2. When it rejects, nothing changes except that the busy flag drops. Either way the busy flag ends false and the hypothesis and the patient are untouched. |
| Workflow.CommitHypothesis | components/ShadowModeWorkflow.tsx:79-97 | With the guard failing, nothing changes. With the guard met and the join succeeding, step 2 shows the joined nudges and analysis. A rejection keeps step, nudges and analysis. The hypothesis and the patient are never modified. |
| Workflow.GuardedCommitIgnoresOutcome | components/ShadowModeWorkflow.tsx:80 | A commit with an empty diagnosis or rationale consumes no service outcome: every outcome leaves the session unchanged. |
| Workflow.EditRationaleUndoesCommit | components/ShadowModeWorkflow.tsx:56-60 | From a settled intake session, a successful commit followed by Edit Rationale gives back exactly the session before the commit. |
| Workflow.Finalize | components/ShadowModeWorkflow.tsx:435 | Finalize Case moves to step 3 and changes nothing else. |
| Workflow.NextCase | components/ShadowModeWorkflow.tsx:455-461 | Next Clinical Case gives the initial session except for the symptom box and the busy flag, which are kept. It gives exactly the initial session when those are empty. |
| Calibration.CalibrationGap | components/ShadowModeWorkflow.tsx:413-414 | The gap is the absolute difference between the clinician's confidence and the service's (0 when there is no analysis). It is zero exactly when the two are equal. |
| Calibration.CalibrationExamples | components/ShadowModeWorkflow.tsx:413-414 | 60 against 85 is a gap of 25 and flagged. 70 against 80 is a gap of 10 and not flagged. |
| Calibration.DegradedDiagnosisLooksLikeVariance | components/ShadowModeWorkflow.tsx:413-414 | A fallback diagnosis gives the same gap as no analysis at all: the clinician's own confidence. It is flagged exactly when that confidence exceeds 20. |
| Calibration.GapAfterCommit | components/ShadowModeWorkflow.tsx:413-414 | After a successful commit, the gap compares the committed confidence with the joined analysis's confidence. |
| Machine.InitialSatisfiesInv | components/ShadowModeWorkflow.tsx:8-22 | The initial session satisfies the workflow invariant. |
| Machine.StepStaysInRange | components/ShadowModeWorkflow.tsx:49-60 | Every action keeps the step within 1..3. |
| Machine.ApplyPreservesInv | components/ShadowModeWorkflow.tsx:27-104 | Every action preserves the invariant. The invariant: step in 1..3 and not busy; intake has no AI results; mentorship and resolution have an analysis and a hypothesis that met the guard; confidence in 1..100; manual mode only on a blank file; the record is a template's or a blank file's. |
| Machine.RunPreservesInv | components/ShadowModeWorkflow.tsx:27-104 | Every sequence of actions preserves the invariant. |
| Machine.ReachableSatisfiesInv | components/ShadowModeWorkflow.tsx:8-22 | Every session reachable from the initial one satisfies the invariant. |
| Machine.StepTransitions | components/ShadowModeWorkflow.tsx:128-461 | Intake moves to mentorship exactly on a successful guarded commit and never jumps to resolution. Mentorship returns to intake exactly on Edit Rationale and moves to resolution exactly on Finalize Case. Resolution is left only by Next Clinical Case. |
| Machine.NoReentryWhileLoading | components/ShadowModeWorkflow.tsx:338-340 | While a commit is in flight, a second commit changes nothing. |
| Machine.ReselectingShownValueIsIgnored | components/ShadowModeWorkflow.tsx:136-138 | Picking the option the case selector already shows changes nothing: in manual mode "manual" does not load a fresh blank file. |
| Machine.SelectorAfterManualReset | components/ShadowModeWorkflow.tsx:136-156 | After Reset Case on a blank file, manual mode is off and the record keeps its "manual-…" id, which matches no option, so the selector shows the first template. Picking it changes nothing; "manual" and the other templates stay selectable. |
| Machine.CommitWithServiceAdvances | components/ShadowModeWorkflow.tsx:84-90 | Wired to the real service, a guarded commit from intake always reaches mentorship, whatever the backend replies. |
| Machine.NextCaseRestarts | components/ShadowModeWorkflow.tsx:455-461 | From resolution, Next Clinical Case returns to the initial session except for text left in the symptom box. With an empty box it returns exactly to the initial session. |
| InFlight.UserStep | components/ShadowModeWorkflow.tsx:128-340 | While a commit is outstanding, every other control acts as usual and the request stays outstanding. An action that clears the AI results also forgets which request they came from. |
| InFlight.ClickStep | components/ShadowModeWorkflow.tsx:79-87 | An enabled click makes the session busy and records the patient and hypothesis that were sent. A disabled click changes nothing. |
| InFlight.SettleAsWritten | components/ShadowModeWorkflow.tsx:88-96 | As written, settling completes the commit on whatever session is current; a success puts the request's results on screen. |
| InFlight.SettleChecked | components/ShadowModeWorkflow.tsx:79-97 | Corrected: results are stored, and recorded as coming from the request, only if intake still shows the patient and hypothesis that were sent. Otherwise they are dropped and the screen keeps what it showed. The busy flag drops either way. |
| InFlight.RaceSendsCommit | components/ShadowModeWorkflow.tsx:79-87 | Writing a diagnosis and rationale and clicking commit sends them and makes the session busy. |
| InFlight.RaceSwitchesCase | components/ShadowModeWorkflow.tsx:27-47 | Selecting another case while the commit is in flight loads it and resets the hypothesis. The session stays busy. |
| InFlight.RaceReachesUncommittedMentorship | components/ShadowModeWorkflow.tsx:79-97 | As written, the race ends in mentorship on the second case, showing the first case's analysis next to a blank hypothesis that violates the invariant. |
| InFlight.RaceDroppedWhenChecked | components/ShadowModeWorkflow.tsx:79-97 | With the checked settle, the same events leave the second case in intake with no analysis and not busy. |
| InFlight.AgeEditKeepsCommitOutstanding | components/ShadowModeWorkflow.tsx:183 | Editing the age while the commit is in flight changes the record and leaves the session busy with the request outstanding. |
| InFlight.AgeEditReachesStaleMentorship | components/ShadowModeWorkflow.tsx:79-97 | As written, an age edit in flight ends in mentorship on the edited record with results computed for the record before the edit; the atomic invariant holds, and only the world invariant's provenance clause fails. |
| InFlight.AgeEditDroppedWhenChecked | components/ShadowModeWorkflow.tsx:79-97 | With the checked settle, the same events leave the edited record in intake with the stale results dropped. |
| InFlight.ApplyIgnoresLoading | components/ShadowModeWorkflow.tsx:27-77 | Handlers other than the commit neither read nor write the busy flag. |
| InFlight.StepPreservesWorldInv | components/ShadowModeWorkflow.tsx:79-97 | With the checked settle, every event preserves the world invariant: the atomic invariant; the busy flag standing for an outstanding request sent from intake with the guard met; and results on screen exactly from mentorship on, computed for exactly the patient and hypothesis on screen. |
| InFlight.RunPreservesWorldInv | components/ShadowModeWorkflow.tsx:79-97 | With the checked settle, every event sequence preserves that invariant. |
| InFlight.ReachableWorldsSatisfyInv | components/ShadowModeWorkflow.tsx:79-97 | With the checked settle, every reachable world satisfies that invariant, so mentorship always shows results computed for the patient and hypothesis it shows, and that hypothesis met the guard. |

## Left out

- The prompts, the request to the inference backend and the JSON decoding are not modelled. The backend's answer to each call is an input (`Service.Reply`), and a decoded value is taken to match the requested schema.
- `App.tsx` and all markup and styling. Only the handlers and the steps that render each control are modelled.
- `alert` and `console.error` have no effect on state and are left out.
- `parseInt` and `parseFloat` are not modelled. Their result is an input: the parsed value, or None when parsing fails. A parse to zero is indistinguishable from a failure, because both store 0.
- Vitals are real numbers. Floating-point rounding and NaN are not modelled.
- Confidences are integers. A fractional confidence from the service is not modelled.
- `Date.now()` is a non-negative integer parameter. The API key is an environment input and is left out.
- Cloning a template (`{ ...selected }`) is implicit: records are immutable values, so later edits cannot reach a template.
- The Enter key in the symptom box calls the same handler as the Add button and is not modelled separately.
- Workflow.EditHypothesis: takes the slider's value as given. That the slider only offers 1..100 is stated in `Machine.Available`, not in this function.
- Machine.Available: the case selector is modelled as offering only the template ids and "manual", and as reporting a choice only when it differs from the option shown (the first template when the record's id matches no option). Reset Case passes any id, and `Workflow.SelectCase` covers every id, including the reselection the selector suppresses.
- `Machine` treats the commit as one atomic step. What happens between its two halves is modelled in `InFlight`, for a single outstanding commit.

## Findings

| source | as written | input that shows it | evidently intended | confidence | as-written member | corrected member |
|---|---|---|---|---|---|---|
| components/ShadowModeWorkflow.tsx:79-97 | While the two service calls are outstanding, only the commit button is disabled. The case selector and the form stay usable. When the join settles, the results are stored and the step becomes 2, whatever the session shows by then. | Write diagnosis "Acute MI" and a rationale on CASE-001, click commit, select CASE-002 before the answer arrives, then let the calls settle (`InFlight.RaceEvents`). The session ends in mentorship for CASE-002 with CASE-001's analysis next to an empty hypothesis that never passed the commit guard. Editing CASE-001's age to 30 instead (`InFlight.AgeEditEvents`) ends in mentorship on the edited record with results for the unedited one. | Results apply only to the patient and hypothesis they were computed for. A case switch or hypothesis edit in between drops them. | not executed; the state is derived from the code | InFlight.RaceReachesUncommittedMentorship | InFlight.RunPreservesWorldInv |
