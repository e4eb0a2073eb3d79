/** The commit with its two halves apart. The click marks the session busy and sends the
    request; the join settles later. In between, the intake form stays on screen and usable:
    only the commit button is disabled. A case switch in that window reaches mentorship with
    AI results about the previous case next to a hypothesis that was never committed. The
    settle step that stores the results unconditionally is kept as written, with the
    sequence of events that shows this. The checked settle used by `Step` stores them only
    when the session still shows what was sent. */
module InFlight {
  import opened Wrappers
  import opened Types
  import opened Cases
  import opened Service
  import W = Workflow
  import M = Machine

  /** What the outstanding commit was sent with. */
  datatype Request = Request(patient: Patient, hypothesis: Hypothesis)

  /** A session together with the commit in flight, if any, and the request whose
      results the session shows, if it shows any. */
  datatype World = World(session: W.Session, pending: Option<Request>, shown: Option<Request>)

  /** A user action other than the commit click, the commit click, or the join settling.
      A `User(Commit(_))` event is not a click and changes nothing. */
  datatype Event = User(action: M.Action) | Click | Settle(outcome: Joint)

  /** A user action while a commit may be outstanding. An action that clears the AI
      results also forgets which request they came from. */
  function UserStep(w: World, a: M.Action): (r: World)
    ensures r.pending == w.pending
    ensures !a.Commit? ==> r.session == M.Apply(w.session, a)
    ensures !a.Commit? && r.session.aiAnalysis.None? ==> r.shown == None
    ensures r.session.aiAnalysis.Some? ==> r.shown == w.shown
  {
    if a.Commit? then w
    else
      var s := M.Apply(w.session, a);
      World(s, w.pending, if s.aiAnalysis.None? then None else w.shown)
  }

  /** The commit click: when the button is enabled, the session goes busy and the request
      records the patient and hypothesis the two calls are made with. */
  function ClickStep(w: World): (r: World)
    ensures W.CommitEnabled(w.session) && w.session.step == 1 ==>
              && r.session == w.session.(loading := true)
              && r.pending == Some(Request(w.session.activePatient, w.session.humanHypo))
              && r.shown == w.shown
    ensures !(W.CommitEnabled(w.session) && w.session.step == 1) ==> r == w
  {
    if M.Available(w.session, M.Commit(Rejected)) then
      World(w.session.(loading := true), Some(Request(w.session.activePatient, w.session.humanHypo)), w.shown)
    else w
  }

  /** The request whose results are on screen once `outcome` has been handled: the
      outstanding one if it succeeded and was stored, otherwise whatever was there before. */
  function ShownAfter(w: World, outcome: Joint): Option<Request> {
    if outcome.Joined? then w.pending else w.shown
  }

  /** The settle step as written: whatever the session shows by now, a success stores the
      results and moves to mentorship. */
  function SettleAsWritten(w: World, outcome: Joint): (r: World)
    ensures r.pending == None
    ensures w.pending.Some? ==> r.session == W.CompleteCommit(w.session, outcome)
    ensures w.pending.Some? && outcome.Joined? ==> r.shown == w.pending
    ensures w.pending.None? ==> r == w
  {
    if w.pending.None? then w else World(W.CompleteCommit(w.session, outcome), None, ShownAfter(w, outcome))
  }

  /** Whether the session still shows what the outstanding request was sent with. */
  predicate Current(s: W.Session, req: Request) {
    s.step == 1 && s.activePatient == req.patient && s.humanHypo == req.hypothesis
  }

  /** The corrected settle step: the results are stored only if the session still shows
      the patient and hypothesis they were computed for; otherwise they are dropped. The
      busy flag drops either way. */
  function SettleChecked(w: World, outcome: Joint): (r: World)
    ensures r.pending == None
    ensures w.pending.Some? && Current(w.session, w.pending.value) ==>
              r.session == W.CompleteCommit(w.session, outcome)
    ensures w.pending.Some? && Current(w.session, w.pending.value) && outcome.Joined? ==>
              r.shown == w.pending
    ensures w.pending.Some? && !Current(w.session, w.pending.value) ==>
              r.session == w.session.(loading := false) && r.shown == w.shown
    ensures w.pending.None? ==> r == w
  {
    if w.pending.None? then w
    else if Current(w.session, w.pending.value) then World(W.CompleteCommit(w.session, outcome), None, ShownAfter(w, outcome))
    else World(w.session.(loading := false), None, w.shown)
  }

  function StepAsWritten(w: World, e: Event): World {
    match e
    case User(a) => UserStep(w, a)
    case Click => ClickStep(w)
    case Settle(o) => SettleAsWritten(w, o)
  }

  function Step(w: World, e: Event): World {
    match e
    case User(a) => UserStep(w, a)
    case Click => ClickStep(w)
    case Settle(o) => SettleChecked(w, o)
  }

  function RunAsWritten(w: World, events: seq<Event>): World
    decreases |events|
  {
    if events == [] then w else RunAsWritten(StepAsWritten(w, events[0]), events[1..])
  }

  function Run(w: World, events: seq<Event>): World
    decreases |events|
  {
    if events == [] then w else Run(Step(w, events[0]), events[1..])
  }

  const Start := World(W.Initial, None, None)

  /** The hypothesis committed in the race below. */
  const RaceHypothesis := Hypothesis("Acute MI", 70, "Pressure radiating to the jaw")

  /** Commit a hypothesis about the first case, switch to the second case before the
      services answer, then let them answer. */
  const RaceEvents: seq<Event> := [
    User(M.EditHypo(W.Diagnosis("Acute MI"))),
    User(M.EditHypo(W.Reasoning("Pressure radiating to the jaw"))),
    Click,
    User(M.Select(Id002, 0)),
    Settle(Joined([], Analysis("Acute MI", 90)))]

  /** The world once the commit is in flight. */
  const Sent := World(W.Initial.(humanHypo := RaceHypothesis, loading := true), Some(Request(Case001, RaceHypothesis)), None)

  /** The world once the second case has been selected while the commit is in flight. */
  const Switched := World(W.Initial.(activePatient := Case002, loading := true), Some(Request(Case001, RaceHypothesis)), None)

  /** Running a sequence of events one after the other. */
  lemma {:induction false} RunAppend(w: World, a: seq<Event>, b: seq<Event>)
    ensures Run(w, a + b) == Run(Run(w, a), b)
    ensures RunAsWritten(w, a + b) == RunAsWritten(RunAsWritten(w, a), b)
    decreases |a|
  {
    if a != [] {
      assert (a + b)[0] == a[0] && (a + b)[1..] == a[1..] + b;
      RunAppend(Step(w, a[0]), a[1..], b);
      RunAppend(StepAsWritten(w, a[0]), a[1..], b);
    } else {
      assert a + b == b;
    }
  }

  /** Writing the hypothesis and clicking commit sends it, whichever settle step is used. */
  lemma RaceSendsCommit()
    ensures Run(Start, RaceEvents[..3]) == Sent
    ensures RunAsWritten(Start, RaceEvents[..3]) == Sent
  {
    var w1 := World(W.Initial.(humanHypo := Hypothesis("Acute MI", 70, "")), None, None);
    var w2 := World(W.Initial.(humanHypo := RaceHypothesis), None, None);
    var e := RaceEvents[..3];
    assert e == [RaceEvents[0], RaceEvents[1], Click];
    assert UserStep(Start, RaceEvents[0].action) == w1;
    assert UserStep(w1, RaceEvents[1].action) == w2;
    assert ClickStep(w2) == Sent;
    assert e[1..] == [RaceEvents[1], Click] && e[1..][1..] == [Click] && e[1..][1..][1..] == [];
    assert Run(Start, e) == Run(w1, e[1..]) == Run(w2, e[1..][1..]) == Run(Sent, []);
    assert RunAsWritten(Start, e) == RunAsWritten(w1, e[1..]) == RunAsWritten(w2, e[1..][1..]) == RunAsWritten(Sent, []);
  }

  /** Selecting the second case while the commit is in flight loads it and resets the
      hypothesis, but leaves the session busy and the request outstanding. */
  lemma RaceSwitchesCase()
    ensures UserStep(Sent, M.Select(Id002, 0)) == Switched
  {
    TemplateLookups();
  }

  /** As written, the race ends in mentorship for the second case, showing the analysis
      made for the first one next to the blank default hypothesis, which fails the commit
      guard: a state no atomic run reaches. */
  lemma RaceReachesUncommittedMentorship()
    ensures var s := RunAsWritten(Start, RaceEvents).session;
      && s.step == 2
      && s.activePatient == Case002
      && s.humanHypo == W.DefaultHypothesis && !W.CanCommit(s.humanHypo)
      && s.aiAnalysis == Some(Analysis("Acute MI", 90))
      && !M.Inv(s)
  {
    RaceSendsCommit();
    RaceSwitchesCase();
    RunAppend(Start, RaceEvents[..3], RaceEvents[3..]);
    assert RaceEvents[..3] + RaceEvents[3..] == RaceEvents;
    assert RunAsWritten(Sent, RaceEvents[3..]) == RunAsWritten(Switched, RaceEvents[4..]);
  }

  /** With the checked settle, the same events leave the second case in intake with the
      late results dropped. */
  lemma RaceDroppedWhenChecked()
    ensures var s := Run(Start, RaceEvents).session;
      s.step == 1 && s.activePatient == Case002 && s.aiAnalysis == None && !s.loading
  {
    RaceSendsCommit();
    RaceSwitchesCase();
    RunAppend(Start, RaceEvents[..3], RaceEvents[3..]);
    assert RaceEvents[..3] + RaceEvents[3..] == RaceEvents;
    assert Run(Sent, RaceEvents[3..]) == Run(Switched, RaceEvents[4..]);
    assert Case001 != Case002 by { assert Case001.id[7] != Case002.id[7]; }
    assert !Current(Switched.session, Switched.pending.value);
  }

  /** The atomic invariant, with the busy flag standing exactly for an outstanding request
      that was sent from intake with the guard met, and with the AI results on screen
      (from mentorship on) computed for exactly the patient and hypothesis on screen. */
  predicate WorldInv(w: World) {
    && M.Inv(w.session.(loading := false))
    && (w.session.loading <==> w.pending.Some?)
    && (w.pending.Some? ==> w.session.step == 1 && W.CanCommit(w.pending.value.hypothesis))
    && (w.shown.Some? <==> w.session.step >= 2)
    && (w.shown.Some? ==> w.shown.value == Request(w.session.activePatient, w.session.humanHypo))
  }

  /** Commit a hypothesis about the first case, correct the patient's age before the
      services answer, then let them answer. */
  const AgeEditEvents: seq<Event> := RaceEvents[..3] + [
    User(M.EditRecord(W.Age(Some(30)))),
    Settle(Joined([], Analysis("Acute MI", 90)))]

  /** The world once the age has been edited while the commit is in flight. */
  const AgeEdited := World(Sent.session.(activePatient := Case001.(age := 30)), Sent.pending, None)

  lemma AgeEditKeepsCommitOutstanding()
    ensures UserStep(Sent, M.EditRecord(W.Age(Some(30)))) == AgeEdited
  {
  }

  /** As written, a record edit in flight goes unnoticed: the session reaches mentorship
      on the edited record with results computed for the record before the edit. Every
      field the atomic invariant looks at is fine; only the provenance of the results is
      wrong. */
  lemma AgeEditReachesStaleMentorship()
    ensures var w := RunAsWritten(Start, AgeEditEvents);
      && w.session.step == 2
      && w.session.activePatient == Case001.(age := 30) && w.session.activePatient != Case001
      && w.shown == Some(Request(Case001, RaceHypothesis))
      && w.session.aiAnalysis == Some(Analysis("Acute MI", 90))
      && M.Inv(w.session)
      && !WorldInv(w)
  {
    RaceSendsCommit();
    AgeEditKeepsCommitOutstanding();
    RunAppend(Start, RaceEvents[..3], AgeEditEvents[3..]);
    assert AgeEditEvents[..3] == RaceEvents[..3] && AgeEditEvents == AgeEditEvents[..3] + AgeEditEvents[3..];
    var settle := Settle(Joined([], Analysis("Acute MI", 90)));
    assert AgeEditEvents[3..] == [AgeEditEvents[3], settle] && AgeEditEvents[4..] == [settle];
    assert RunAsWritten(Sent, AgeEditEvents[3..]) == RunAsWritten(AgeEdited, AgeEditEvents[4..])
        == SettleAsWritten(AgeEdited, settle.outcome);
    assert Case001.age == 58;
    M.InitialSatisfiesInv();
  }

  /** With the checked settle, the same events leave the edited record in intake with the
      stale results dropped. */
  lemma AgeEditDroppedWhenChecked()
    ensures var w := Run(Start, AgeEditEvents);
      w.session.step == 1 && w.session.activePatient == Case001.(age := 30)
      && w.session.aiAnalysis == None && !w.session.loading && w.shown == None
  {
    RaceSendsCommit();
    AgeEditKeepsCommitOutstanding();
    RunAppend(Start, RaceEvents[..3], AgeEditEvents[3..]);
    assert AgeEditEvents[..3] == RaceEvents[..3] && AgeEditEvents == AgeEditEvents[..3] + AgeEditEvents[3..];
    var settle := Settle(Joined([], Analysis("Acute MI", 90)));
    assert AgeEditEvents[3..] == [AgeEditEvents[3], settle] && AgeEditEvents[4..] == [settle];
    assert Run(Sent, AgeEditEvents[3..]) == Run(AgeEdited, AgeEditEvents[4..])
        == SettleChecked(AgeEdited, settle.outcome);
    assert Case001.age == 58;
    assert !Current(AgeEdited.session, AgeEdited.pending.value);
  }

  /** Actions other than the commit neither read nor write the busy flag. */
  lemma ApplyIgnoresLoading(s: W.Session, a: M.Action)
    requires !a.Commit?
    ensures M.Apply(s, a).loading == s.loading
    ensures M.Apply(s, a).(loading := false) == M.Apply(s.(loading := false), a)
  {
  }

  lemma StepPreservesWorldInv(w: World, e: Event)
    requires WorldInv(w)
    ensures WorldInv(Step(w, e))
  {
    var s0 := w.session.(loading := false);
    match e
    case User(a) =>
      if !a.Commit? {
        ApplyIgnoresLoading(w.session, a);
        M.ApplyPreservesInv(s0, a);
        M.StepTransitions(s0, a);
      }
    case Click =>
    case Settle(o) =>
  }

  /** With the checked settle, every reachable world keeps the invariant: in particular
      mentorship always shows a hypothesis that met the commit guard. */
  lemma {:induction false} RunPreservesWorldInv(w: World, events: seq<Event>)
    requires WorldInv(w)
    ensures WorldInv(Run(w, events))
    decreases |events|
  {
    if events != [] {
      StepPreservesWorldInv(w, events[0]);
      RunPreservesWorldInv(Step(w, events[0]), events[1..]);
    }
  }

  lemma ReachableWorldsSatisfyInv(events: seq<Event>)
    ensures WorldInv(Run(Start, events))
  {
    M.InitialSatisfiesInv();
    RunPreservesWorldInv(Start, events);
  }
}
