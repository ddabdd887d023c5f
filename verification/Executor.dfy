/** What a run of the Claude executor did to the outside world, as a trace.

    `Allowed` is what the executor may do next, given only what the trace says
    about the open process, the message in flight and the turns completed. The
    lemmas say what a trace of allowed events looks like from any distance.
  */
module TurnTrace {

  import opened Optional
  import opened ContinuedArtifacts

  /** The input snapshot a prompt carries: its revision and its digest. */
  datatype Input = Input(revision: nat, digest: string)

  datatype Kind = Initial | Phase | Control | Question

  datatype Ending = Success | Failed | Cancelled

  /** What may come from the user while the task is at work. A steer names the
      revision of the input that it makes. */
  datatype Incoming = Steer(revision: nat) | Interrupt | Interjection

  /** `Looked` is a look at what has come in between two turns: whether there is a
      question, and otherwise which control. `Checked` is a look at the goal and,
      when there is a text to seal, at the newest input. `Promoted` says whether
      an answered question changed the task, `Reset` that the goal is active
      again, and `Finished` that a task turn is over for the ledger too. `ReadInput`
      is a reading of the newest input for a prompt. */
  datatype Event =
    | Looked(question: bool, control: Option<Incoming>)
    | Checked(goal: Goal, newest: Option<Input>)
    | Promoted(update: bool)
    | Reset
    | ReadInput(input: Input)
    | Finished
    | Opened(readonly: bool)
    | Closed
    | Prepared(phase: nat)
    | Written(kind: Kind, phase: nat, input: Input)
    | Interrupted
    | Ended(ending: Ending, text: string)
    | Sealed(text: string, kept: string, input: Input)

  datatype Flight = Flight(kind: Kind, phase: nat, input: Input, interrupted: bool)

  /** What has to be done next: send the first prompt, look, answer a question and
      deliver the answer, reset the goal, send the steer of a revision, look at
      the goal, send the next phase, seal, or nothing more. */
  datatype Duty =
    | MustStart | MustLook | MustAnswer | MustDeliver | MustReset | MustSteer(revision: nat) | MustCheck
    | MayContinue | MaySeal | MustStop

  /** `process` is the mode of the open process; `nextPhase` is above the phase
      of every completed task turn; `answers` are the texts of uninterrupted
      successful task turns with the input each prompt carried, and `last` is that
      of the latest turn, as long as nothing has replaced it. `marked` says that
      an interrupt was sent since the last turn that was finished, `reset` that
      the goal was reset since the last look, and `newest` is the input read for
      a prompt that has not been sent yet. */
  datatype View = View(
    process: Option<bool>, flight: Option<Flight>, nextPhase: nat, answers: set<(string, Input)>,
    last: Option<(string, Input)>, marked: bool, reset: bool, newest: Option<Input>, duty: Duty)

  const START := View(None, None, 0, {}, None, false, false, None, MustStart)

  function AfterLook(question: bool, control: Option<Incoming>): Duty {
    if question then MustAnswer
    else
      match control
      case None => MustCheck
      case Some(Steer(revision)) => MustSteer(revision)
      case Some(Interrupt) => MustStop
      case Some(Interjection) => MustLook
  }

  /** The latest text is to be sealed: it says something, the goal is not active,
      and the newest input is the one it answered. */
  predicate Sealable(last: Option<(string, Input)>, goal: Goal, newest: Option<Input>) {
    last.Some? && last.value.0 != "" && goal != Active && newest == Some(last.value.1)
  }

  function Observe(v: View, e: Event): View {
    match e
    case Looked(question, control) => v.(duty := AfterLook(question, control), reset := false, newest := None)
    case Checked(goal, newest) => v.(duty := if Sealable(v.last, goal, newest) then MaySeal else MayContinue)
    case Promoted(update) =>
      v.(duty := if update then MustReset else MustLook, last := if update then None else v.last)
    case Reset => v.(reset := true, duty := if v.duty == MustReset then MustLook else v.duty)
    case ReadInput(input) => v.(newest := Some(input))
    case Finished => v.(marked := false)
    case Opened(readonly) => v.(process := Some(readonly))
    case Closed => v.(process := None)
    case Prepared(_) => v
    case Written(kind, phase, input) =>
      v.(flight := Some(Flight(kind, phase, input, false)), duty := if kind == Question then MustDeliver else MustLook,
         last := if kind == Question then v.last else None, newest := None)
    case Interrupted =>
      v.(marked := true, flight := if v.flight.None? then None else Some(v.flight.value.(interrupted := true)))
    case Ended(ending, text) =>
      if v.flight.None? || v.flight.value.kind == Question then v.(flight := None)
      else
        var f := v.flight.value;
        v.(flight := None,
           nextPhase := if f.phase < v.nextPhase then v.nextPhase else f.phase + 1,
           answers := v.answers + (if ending == Success && !f.interrupted then {(text, f.input)} else {}),
           last := if ending == Success && !f.interrupted && !v.marked then Some((text, f.input)) else None)
    case Sealed(_, _, _) => v.(duty := MustStop)
  }

  /** The text was the answer to some input of this revision. */
  ghost predicate AnsweredFor(v: View, text: string, revision: nat) {
    exists input: Input :: (text, input) in v.answers && input.revision == revision
  }

  predicate Permits(v: View, kind: Kind, input: Input) {
    match kind
    case Initial => v.duty == MustStart && v.newest == Some(input)
    case Phase => v.duty == MayContinue && v.reset && v.newest == Some(input)
    case Control => v.duty == MustSteer(input.revision) && v.reset
    case Question => v.duty == MustAnswer || v.duty == MustDeliver
  }

  /** What is sealed may be another answer than the one kept last, to an input of
      the same revision. */
  ghost predicate Allowed(v: View, e: Event) {
    match e
    case Looked(_, _) => v.flight.None? && (v.duty == MustLook || v.duty == MayContinue || v.duty == MaySeal)
    case Checked(_, _) => v.flight.None? && v.duty == MustCheck
    case Promoted(_) => v.flight.None? && v.duty == MustDeliver
    case Reset => v.flight.None?
    case ReadInput(_) => v.flight.None?
    case Finished => v.flight.None?
    case Opened(_) => v.process.None? && v.duty != MustStop
    case Closed => v.process.Some?
    case Prepared(phase) => v.flight.None? && v.nextPhase <= phase && v.duty == MayContinue
    case Written(kind, phase, input) =>
      && v.flight.None? && v.process == Some(kind == Question) && Permits(v, kind, input)
      && (kind != Question ==> v.nextPhase <= phase)
    case Interrupted => v.flight.Some?
    case Ended(_, _) => v.flight.Some?
    case Sealed(text, kept, input) =>
      && v.process.None? && v.flight.None? && v.duty == MaySeal
      && v.last == Some((kept, input)) && AnsweredFor(v, text, input.revision)
  }

  function Observed(trace: seq<Event>): View {
    if trace == [] then START
    else Observe(Observed(trace[..|trace| - 1]), trace[|trace| - 1])
  }

  ghost predicate AllowedAt(trace: seq<Event>, i: nat)
    requires i < |trace|
  {
    Allowed(Observed(trace[..i]), trace[i])
  }

  ghost predicate Legal(trace: seq<Event>) {
    forall i :: 0 <= i < |trace| ==> AllowedAt(trace, i)
  }

  // A run that is being recorded is followed by its views, one after each event.

  ghost predicate StepAt(trace: seq<Event>, views: seq<View>, i: nat)
    requires i < |trace| && i + 1 < |views|
  {
    Allowed(views[i], trace[i]) && views[i + 1] == Observe(views[i], trace[i])
  }

  ghost predicate FollowedBy(trace: seq<Event>, views: seq<View>, v: View) {
    && |views| == |trace| + 1 && views[0] == START && views[|trace|] == v
    && forall i :: 0 <= i < |trace| ==> StepAt(trace, views, i)
  }

  ghost predicate Follows(trace: seq<Event>, v: View) {
    exists views :: FollowedBy(trace, views, v)
  }

  lemma NothingYet()
    ensures Follows([], START)
  {
    assert FollowedBy([], [START], START);
  }

  lemma Extend(trace: seq<Event>, v: View, e: Event)
    requires Follows(trace, v) && Allowed(v, e)
    ensures Follows(trace + [e], Observe(v, e))
  {
    var views :| FollowedBy(trace, views, v);
    var longer := views + [Observe(v, e)];
    forall i | 0 <= i < |trace| + 1 ensures StepAt(trace + [e], longer, i) {
      assert i < |trace| ==> StepAt(trace, views, i);
    }
    assert FollowedBy(trace + [e], longer, Observe(v, e));
  }

  lemma {:induction false} ViewsAreObserved(trace: seq<Event>, views: seq<View>, v: View, n: nat)
    requires FollowedBy(trace, views, v) && n <= |trace|
    ensures Observed(trace[..n]) == views[n]
  {
    if n > 0 {
      ViewsAreObserved(trace, views, v, n - 1);
      Next(trace, n - 1);
      assert StepAt(trace, views, n - 1);
    }
  }

  /** What is followed is a legal trace, and the view is what it shows. */
  lemma FollowedIsLegal(trace: seq<Event>, v: View)
    requires Follows(trace, v)
    ensures Legal(trace) && Observed(trace) == v
  {
    var views :| FollowedBy(trace, views, v);
    forall i | 0 <= i < |trace| ensures AllowedAt(trace, i) {
      ViewsAreObserved(trace, views, v, i);
      assert StepAt(trace, views, i);
    }
    ViewsAreObserved(trace, views, v, |trace|);
    assert trace[..|trace|] == trace;
  }

  lemma Next(trace: seq<Event>, i: nat)
    requires i < |trace|
    ensures Observed(trace[..i + 1]) == Observe(Observed(trace[..i]), trace[i])
  {
    assert trace[..i + 1][..i] == trace[..i];
  }

  predicate Boundary(e: Event) {
    e.Written? || e.Ended?
  }

  /** The message in flight is the last one written, with no terminal since. */
  ghost predicate InFlightSince(trace: seq<Event>, n: nat, w: nat, f: Flight)
    requires n <= |trace|
  {
    && w < n && trace[w] == Written(f.kind, f.phase, f.input)
    && (forall k :: w < k < n ==> !Boundary(trace[k]))
    && (!f.interrupted ==> forall k :: w < k < n ==> trace[k] != Interrupted)
  }

  lemma {:induction false} FlightWasWritten(trace: seq<Event>, n: nat)
    requires n <= |trace| && Observed(trace[..n]).flight.Some?
    ensures exists w: nat :: InFlightSince(trace, n, w, Observed(trace[..n]).flight.value)
  {
    if n > 0 {
      Next(trace, n - 1);
      var f := Observed(trace[..n]).flight.value;
      if trace[n - 1].Written? {
        assert InFlightSince(trace, n, n - 1, f);
      } else {
        FlightWasWritten(trace, n - 1);
        var w: nat :| InFlightSince(trace, n - 1, w, Observed(trace[..n - 1]).flight.value);
        StillInFlight(trace, n - 1, w, Observed(trace[..n - 1]));
      }
    }
  }

  lemma StillInFlight(trace: seq<Event>, n: nat, w: nat, v: View)
    requires n < |trace| && v.flight.Some? && InFlightSince(trace, n, w, v.flight.value)
    requires !trace[n].Written? && Observe(v, trace[n]).flight.Some?
    ensures InFlightSince(trace, n + 1, w, Observe(v, trace[n]).flight.value)
  {
  }

  /** Event `t` ends, successfully and with `text`, the task turn whose prompt
      was event `w` and carried `input`, and nothing interrupted it. */
  ghost predicate Answered(trace: seq<Event>, w: nat, t: nat, text: string, input: Input) {
    && w < t < |trace|
    && trace[w].Written? && trace[w].kind != Question && trace[w].input == input
    && trace[t] == Ended(Success, text)
    && forall k :: w < k < t ==> !Boundary(trace[k]) && trace[k] != Interrupted
  }

  /** The answer that event `n` added was given there. */
  lemma NewAnswerWasGiven(trace: seq<Event>, n: nat, text: string, input: Input)
    requires n < |trace| && (text, input) in Observed(trace[..n + 1]).answers
    requires (text, input) !in Observed(trace[..n]).answers
    ensures exists w: nat :: Answered(trace, w, n, text, input)
  {
    Next(trace, n);
    FlightWasWritten(trace, n);
    var w: nat :| InFlightSince(trace, n, w, Observed(trace[..n]).flight.value);
    assert Answered(trace, w, n, text, input);
  }

  lemma {:induction false} AnswersWereGiven(trace: seq<Event>, n: nat, text: string, input: Input)
    requires n <= |trace| && (text, input) in Observed(trace[..n]).answers
    ensures exists w: nat, t: nat :: t < n && Answered(trace, w, t, text, input)
  {
    if n > 0 {
      if (text, input) in Observed(trace[..n - 1]).answers {
        AnswersWereGiven(trace, n - 1, text, input);
      } else {
        NewAnswerWasGiven(trace, n - 1, text, input);
      }
    }
  }

  /** Before `n`, the text ended an uninterrupted successful task turn on `input`. */
  ghost predicate WasAnswer(trace: seq<Event>, n: nat, text: string, input: Input) {
    exists w: nat, t: nat :: t < n && Answered(trace, w, t, text, input)
  }

  /** What makes the text of the latest turn out of date. */
  predicate Replaces(e: Event) {
    (e.Written? && e.kind != Question) || (e.Promoted? && e.update)
  }

  /** That turn is the latest, and its text has not been replaced before `n`. */
  ghost predicate Latest(trace: seq<Event>, n: nat, w: nat, t: nat, text: string, input: Input)
    requires n <= |trace|
  {
    t < n && Answered(trace, w, t, text, input) && forall k :: t < k < n ==> !Replaces(trace[k])
  }

  lemma {:induction false} LastIsAnswer(trace: seq<Event>)
    ensures Observed(trace).last.Some? ==> Observed(trace).last.value in Observed(trace).answers
    decreases |trace|
  {
    if trace != [] { LastIsAnswer(trace[..|trace| - 1]); }
  }

  ghost predicate HasLatest(trace: seq<Event>, n: nat, last: (string, Input))
    requires n <= |trace|
  {
    exists w: nat, t: nat :: Latest(trace, n, w, t, last.0, last.1)
  }

  lemma EndedIsLatest(trace: seq<Event>, n: nat)
    requires n < |trace| && trace[n].Ended? && Observed(trace[..n]).flight.Some?
    requires Observed(trace[..n]).flight.value.kind != Question && Observed(trace[..n + 1]).last.Some?
    ensures HasLatest(trace, n + 1, Observed(trace[..n + 1]).last.value)
  {
    Next(trace, n);
    FlightWasWritten(trace, n);
    var f := Observed(trace[..n]).flight.value;
    var w: nat :| InFlightSince(trace, n, w, f);
    assert Answered(trace, w, n, trace[n].text, f.input);
    assert Latest(trace, n + 1, w, n, trace[n].text, f.input);
  }

  lemma LatestStays(trace: seq<Event>, n: nat, w: nat, t: nat, text: string, input: Input)
    requires n < |trace| && Latest(trace, n, w, t, text, input) && !Replaces(trace[n])
    ensures Latest(trace, n + 1, w, t, text, input)
  {
  }

  lemma LastStays(v: View, e: Event)
    requires Observe(v, e).last.Some? && !(e.Ended? && v.flight.Some? && v.flight.value.kind != Question)
    ensures !Replaces(e) && Observe(v, e).last == v.last
  {
  }

  lemma {:induction false} LastIsLatest(trace: seq<Event>, n: nat)
    requires n <= |trace| && Observed(trace[..n]).last.Some?
    ensures HasLatest(trace, n, Observed(trace[..n]).last.value)
  {
    if n > 0 {
      Next(trace, n - 1);
      var v := Observed(trace[..n - 1]);
      if trace[n - 1].Ended? && v.flight.Some? && v.flight.value.kind != Question {
        EndedIsLatest(trace, n - 1);
      } else {
        LastStays(v, trace[n - 1]);
        LastIsLatest(trace, n - 1);
        var w: nat, t: nat :| Latest(trace, n - 1, w, t, v.last.value.0, v.last.value.1);
        LatestStays(trace, n - 1, w, t, v.last.value.0, v.last.value.1);
      }
    }
  }

  /** Whatever is sealed is the text of an uninterrupted successful turn whose
      prompt carried the sealed revision, and the latest turn of the task was
      such a turn on exactly the sealed input. */
  lemma SealedTextAnsweredSealedInput(trace: seq<Event>, i: nat)
    requires Legal(trace) && i < |trace| && trace[i].Sealed?
    ensures exists w: nat, t: nat :: Latest(trace, i, w, t, trace[i].kept, trace[i].input)
    ensures exists input: Input ::
              input.revision == trace[i].input.revision && WasAnswer(trace, i, trace[i].text, input)
  {
    assert AllowedAt(trace, i);
    LastIsLatest(trace, i);
    var input: Input :| (trace[i].text, input) in Observed(trace[..i]).answers
                        && input.revision == trace[i].input.revision;
    AnswersWereGiven(trace, i, trace[i].text, input);
    assert WasAnswer(trace, i, trace[i].text, input);
  }

  /** One revision of a task is one input. */
  ghost predicate RevisionsNameInputs(trace: seq<Event>) {
    forall j, k | 0 <= j < |trace| && 0 <= k < |trace| && trace[j].Written? && trace[k].Written? ::
      trace[j].input.revision == trace[k].input.revision ==> trace[j].input == trace[k].input
  }

  /** Then the sealed text answered exactly the sealed input. */
  lemma SealedTextAnsweredExactly(trace: seq<Event>, i: nat)
    requires Legal(trace) && i < |trace| && trace[i].Sealed? && RevisionsNameInputs(trace)
    ensures WasAnswer(trace, i, trace[i].text, trace[i].input)
  {
    SealedTextAnsweredSealedInput(trace, i);
    var w: nat, t: nat :| Latest(trace, i, w, t, trace[i].kept, trace[i].input);
    var input: Input :|
      input.revision == trace[i].input.revision && WasAnswer(trace, i, trace[i].text, input);
    var u: nat, v: nat :| v < i && Answered(trace, u, v, trace[i].text, input);
    assert trace[w].input == trace[u].input;
  }

  lemma {:induction false} FlightLasts(trace: seq<Event>, i: nat, n: nat)
    requires i < n <= |trace| && trace[i].Written?
    requires forall k :: i < k < n ==> !trace[k].Ended?
    ensures Observed(trace[..n]).flight.Some?
    decreases n
  {
    Next(trace, n - 1);
    if n > i + 1 { FlightLasts(trace, i, n - 1); }
  }

  /** At most one user message is in flight: between two of them the first has
      reached its terminal. */
  lemma OneMessageInFlight(trace: seq<Event>, i: nat, j: nat)
    requires Legal(trace) && i < j < |trace| && trace[i].Written? && (trace[j].Written? || trace[j].Prepared?)
    ensures exists k :: i < k < j && trace[k].Ended?
  {
    assert AllowedAt(trace, j);
    if forall k :: i < k < j ==> !trace[k].Ended? {
      FlightLasts(trace, i, j);
    }
  }

  lemma {:induction false} PhasesOnlyGrow(trace: seq<Event>, m: nat, n: nat)
    requires m <= n <= |trace|
    ensures Observed(trace[..m]).nextPhase <= Observed(trace[..n]).nextPhase
    decreases n
  {
    if m < n {
      PhasesOnlyGrow(trace, m, n - 1);
      Next(trace, n - 1);
    }
  }

  lemma {:induction false} CompletedPhaseIsUsed(trace: seq<Event>, i: nat, k: nat)
    requires i < k < |trace| && trace[i].Written? && trace[i].kind != Question && trace[k].Ended?
    requires forall j :: i < j < k ==> !Boundary(trace[j])
    ensures trace[i].phase < Observed(trace[..k + 1]).nextPhase
  {
    FlightLasts(trace, i, k);
    FlightWasWritten(trace, k);
    var f := Observed(trace[..k]).flight.value;
    var w: nat :| InFlightSince(trace, k, w, f);
    if w < i { assert Boundary(trace[i]); }
    if i < w { assert Boundary(trace[w]); }
    assert w == i;
    Next(trace, k);
  }

  lemma {:induction false} FirstEnd(trace: seq<Event>, i: nat, k: nat) returns (e: nat)
    requires Legal(trace) && i < k < |trace| && trace[i].Written? && trace[k].Ended?
    ensures i < e <= k && trace[e].Ended? && forall j :: i < j < e ==> !Boundary(trace[j])
    decreases k - i
  {
    e := k;
    if j :| i < j < k && Boundary(trace[j]) {
      if trace[j].Written? {
        OneMessageInFlight(trace, i, j);
        var m :| i < m < j && trace[m].Ended?;
        e := FirstEnd(trace, i, m);
      } else {
        e := FirstEnd(trace, i, j);
      }
    }
  }

  lemma PhaseUsedBefore(trace: seq<Event>, i: nat, j: nat)
    requires Legal(trace) && i < j < |trace| && trace[i].Written? && trace[i].kind != Question
    requires exists k :: i < k < j && trace[k].Ended?
    ensures trace[i].phase < Observed(trace[..j]).nextPhase
  {
    var k :| i < k < j && trace[k].Ended?;
    var e := FirstEnd(trace, i, k);
    CompletedPhaseIsUsed(trace, i, e);
    PhasesOnlyGrow(trace, e + 1, j);
  }

  /** No phase number is dispatched again once its turn is over: the phases of
      task prompts strictly increase, whatever questions come between. */
  lemma PhasesNeverReused(trace: seq<Event>, i: nat, j: nat)
    requires Legal(trace) && i < j < |trace| && trace[i].Written? && trace[i].kind != Question
    requires trace[j].Prepared? || (trace[j].Written? && trace[j].kind != Question)
    ensures trace[i].phase < trace[j].phase
  {
    OneMessageInFlight(trace, i, j);
    PhaseUsedBefore(trace, i, j);
    assert AllowedAt(trace, j);
  }

  /** Event `o` opened the process that is still the open one at `n`. */
  ghost predicate OpenSince(trace: seq<Event>, n: nat, o: nat, readonly: bool)
    requires n <= |trace|
  {
    o < n && trace[o] == Opened(readonly) && forall k :: o < k < n ==> !trace[k].Opened? && !trace[k].Closed?
  }

  lemma {:induction false} ProcessWasOpened(trace: seq<Event>, n: nat)
    requires n <= |trace| && Observed(trace[..n]).process.Some?
    ensures exists o: nat :: OpenSince(trace, n, o, Observed(trace[..n]).process.value)
  {
    if n > 0 {
      Next(trace, n - 1);
      var mode := Observed(trace[..n]).process.value;
      if trace[n - 1].Opened? {
        assert OpenSince(trace, n, n - 1, mode);
      } else {
        ProcessWasOpened(trace, n - 1);
        var o: nat :| OpenSince(trace, n - 1, o, mode);
        assert OpenSince(trace, n, o, mode);
      }
    }
  }

  /** Questions go only to a read-only process, everything else only to a
      writable one. */
  lemma PromptsMatchTheirProcess(trace: seq<Event>, i: nat)
    requires Legal(trace) && i < |trace| && trace[i].Written?
    ensures var question := trace[i].kind == Question; exists o: nat :: OpenSince(trace, i, o, question)
  {
    assert AllowedAt(trace, i);
    ProcessWasOpened(trace, i);
  }

  // ---------------------------------------------- what comes in is dealt with

  /** Events that decide what the task does next. */
  predicate Decides(e: Event) {
    e.Looked? || e.Checked? || e.Prepared? || e.Written? || e.Sealed?
  }

  predicate DeliversSteer(e: Event, revision: nat) {
    e.Written? && e.kind == Control && e.input.revision == revision
  }

  lemma {:induction false} SteerIsOwed(trace: seq<Event>, i: nat, n: nat, revision: nat)
    requires Legal(trace) && i < n <= |trace| && trace[i] == Looked(false, Some(Steer(revision)))
    requires forall k :: i < k < n ==> !DeliversSteer(trace[k], revision)
    ensures Observed(trace[..n]).duty == MustSteer(revision) && Observed(trace[..n]).flight.None?
    decreases n
  {
    Next(trace, n - 1);
    assert AllowedAt(trace, n - 1);
    if n > i + 1 { SteerIsOwed(trace, i, n - 1, revision); }
  }

  /** A steer that is taken between two turns is delivered, on the revision it
      made, before anything else is looked at, sent or sealed. */
  lemma SteerIsDelivered(trace: seq<Event>, i: nat, j: nat, revision: nat)
    requires Legal(trace) && i < j < |trace| && trace[i] == Looked(false, Some(Steer(revision))) && Decides(trace[j])
    ensures exists k :: i < k <= j && DeliversSteer(trace[k], revision)
  {
    if forall k :: i < k <= j ==> !DeliversSteer(trace[k], revision) {
      SteerIsOwed(trace, i, j, revision);
      assert AllowedAt(trace, j);
    }
  }

  /** And whatever is sealed after it was answered after it. */
  lemma SealedAfterSteer(trace: seq<Event>, i: nat, j: nat, revision: nat)
    requires Legal(trace) && i < j < |trace| && trace[i] == Looked(false, Some(Steer(revision))) && trace[j].Sealed?
    ensures exists k, w: nat, t: nat ::
              Latest(trace, j, w, t, trace[j].kept, trace[j].input)
              && i < k <= w && DeliversSteer(trace[k], revision)
  {
    SteerIsDelivered(trace, i, j, revision);
    SealedTextAnsweredSealedInput(trace, j);
    var k :| i < k <= j && DeliversSteer(trace[k], revision);
    var w: nat, t: nat :| Latest(trace, j, w, t, trace[j].kept, trace[j].input);
    assert k <= t by { if t < k { assert Replaces(trace[k]); } }
    assert Boundary(trace[k]);
  }

  lemma StopStays(v: View, e: Event)
    requires v.flight.None? && v.duty == MustStop && Allowed(v, e)
    ensures Observe(v, e).flight.None? && Observe(v, e).duty == MustStop
  {
  }

  lemma {:induction false} StopLasts(trace: seq<Event>, i: nat, n: nat)
    requires Legal(trace) && i < n <= |trace| && Observed(trace[..i]).flight.None?
    requires trace[i] == Looked(false, Some(Interrupt)) || trace[i].Sealed?
    ensures Observed(trace[..n]).duty == MustStop && Observed(trace[..n]).flight.None?
    decreases n
  {
    Next(trace, n - 1);
    assert AllowedAt(trace, n - 1);
    if n > i + 1 {
      StopLasts(trace, i, n - 1);
      StopStays(Observed(trace[..n - 1]), trace[n - 1]);
    }
  }

  /** After an interrupt that is taken between two turns, and after a seal, nothing
      is looked at, opened, sent or sealed any more. */
  lemma NothingAfterInterrupt(trace: seq<Event>, i: nat, j: nat)
    requires Legal(trace) && i < j < |trace|
    requires trace[i] == Looked(false, Some(Interrupt)) || trace[i].Sealed?
    ensures !Decides(trace[j]) && !trace[j].Opened?
  {
    assert AllowedAt(trace, i);
    StopLasts(trace, i, j);
    assert AllowedAt(trace, j);
  }

  lemma {:induction false} QuestionIsOwed(trace: seq<Event>, i: nat, n: nat)
    requires Legal(trace) && i < n <= |trace| && trace[i].Looked? && trace[i].question
    requires forall k :: i < k < n ==> !(trace[k].Written? && trace[k].kind == Question)
    ensures Observed(trace[..n]).duty == MustAnswer && Observed(trace[..n]).flight.None?
    decreases n
  {
    Next(trace, n - 1);
    assert AllowedAt(trace, n - 1);
    if n > i + 1 { QuestionIsOwed(trace, i, n - 1); }
  }

  /** A question that is taken is put before anything else is decided. */
  lemma QuestionIsPut(trace: seq<Event>, i: nat, j: nat)
    requires Legal(trace) && i < j < |trace| && trace[i].Looked? && trace[i].question && Decides(trace[j])
    ensures exists k :: i < k <= j && trace[k].Written? && trace[k].kind == Question
  {
    if forall k :: i < k <= j ==> !(trace[k].Written? && trace[k].kind == Question) {
      QuestionIsOwed(trace, i, j);
      assert AllowedAt(trace, j);
    }
  }

  lemma {:induction false} ResetSinceLook(trace: seq<Event>, n: nat)
    requires n <= |trace| && Observed(trace[..n]).reset
    ensures exists r: nat :: r < n && trace[r] == Reset && forall k :: r < k < n ==> !trace[k].Looked?
  {
    if n > 0 {
      Next(trace, n - 1);
      if trace[n - 1] != Reset {
        ResetSinceLook(trace, n - 1);
        var r: nat :| r < n - 1 && trace[r] == Reset && forall k :: r < k < n - 1 ==> !trace[k].Looked?;
        assert forall k :: r < k < n ==> !trace[k].Looked?;
      }
    }
  }

  /** A steer and a next phase are sent with the goal made active again since the
      executor last looked. */
  lemma SentWithGoalReset(trace: seq<Event>, i: nat)
    requires Legal(trace) && i < |trace| && trace[i].Written? && (trace[i].kind == Phase || trace[i].kind == Control)
    ensures exists r: nat :: r < i && trace[r] == Reset && forall k :: r < k < i ==> !trace[k].Looked?
  {
    assert AllowedAt(trace, i);
    ResetSinceLook(trace, i);
  }

  predicate RenewsInput(e: Event) {
    e.ReadInput? || e.Written? || e.Looked?
  }

  /** The input was last read at `r`, for the next prompt. */
  ghost predicate ReadSince(trace: seq<Event>, n: nat, r: nat, input: Input)
    requires n <= |trace|
  {
    r < n && trace[r] == ReadInput(input) && forall k :: r < k < n ==> !RenewsInput(trace[k])
  }

  lemma NewestStays(v: View, e: Event)
    requires Observe(v, e).newest.Some? && !e.ReadInput?
    ensures !RenewsInput(e) && Observe(v, e).newest == v.newest
  {
  }

  lemma StillRead(trace: seq<Event>, n: nat, r: nat, input: Input)
    requires n < |trace| && ReadSince(trace, n, r, input) && !RenewsInput(trace[n])
    ensures ReadSince(trace, n + 1, r, input)
  {
  }

  lemma {:induction false} NewestWasRead(trace: seq<Event>, n: nat)
    requires n <= |trace| && Observed(trace[..n]).newest.Some?
    ensures exists r: nat :: ReadSince(trace, n, r, Observed(trace[..n]).newest.value)
  {
    if n > 0 {
      Next(trace, n - 1);
      var v := Observed(trace[..n - 1]);
      if trace[n - 1].ReadInput? {
        assert ReadSince(trace, n, n - 1, trace[n - 1].input);
      } else {
        NewestStays(v, trace[n - 1]);
        NewestWasRead(trace, n - 1);
        var r: nat :| ReadSince(trace, n - 1, r, v.newest.value);
        StillRead(trace, n - 1, r, v.newest.value);
      }
    }
  }

  /** A first prompt and a next phase carry the newest input as it was last read,
      after the last look and for this prompt alone. */
  lemma PromptCarriesNewest(trace: seq<Event>, i: nat)
    requires Legal(trace) && i < |trace| && trace[i].Written? && (trace[i].kind == Initial || trace[i].kind == Phase)
    ensures exists r: nat :: ReadSince(trace, i, r, trace[i].input)
  {
    assert AllowedAt(trace, i);
    NewestWasRead(trace, i);
  }

  /** The look at the goal that the executor still acts on. */
  ghost predicate CheckedSince(trace: seq<Event>, n: nat, c: nat, duty: Duty)
    requires n <= |trace|
  {
    && c < n && trace[c].Checked? && (forall k :: c < k < n ==> !Decides(trace[k]) || trace[k].Prepared?)
    && duty == if Sealable(Observed(trace[..c]).last, trace[c].goal, trace[c].newest) then MaySeal else MayContinue
  }

  predicate Acts(duty: Duty) {
    duty == MaySeal || duty == MayContinue
  }

  lemma ActingOn(v: View, e: Event)
    requires Allowed(v, e) && Acts(Observe(v, e).duty) && !e.Checked?
    ensures Observe(v, e).duty == v.duty && (!Decides(e) || e.Prepared?)
  {
  }

  lemma StillChecked(trace: seq<Event>, n: nat, c: nat, duty: Duty)
    requires n < |trace| && CheckedSince(trace, n, c, duty) && (!Decides(trace[n]) || trace[n].Prepared?)
    ensures CheckedSince(trace, n + 1, c, duty)
  {
  }

  lemma JustChecked(trace: seq<Event>, c: nat)
    requires c < |trace| && trace[c].Checked?
    ensures CheckedSince(trace, c + 1, c, Observed(trace[..c + 1]).duty)
  {
    Next(trace, c);
  }

  lemma {:induction false} ActsOnCheck(trace: seq<Event>, n: nat)
    requires Legal(trace) && n <= |trace| && Acts(Observed(trace[..n]).duty)
    ensures exists c: nat :: CheckedSince(trace, n, c, Observed(trace[..n]).duty)
  {
    if n > 0 {
      Next(trace, n - 1);
      assert AllowedAt(trace, n - 1);
      var duty := Observed(trace[..n]).duty;
      if trace[n - 1].Checked? {
        JustChecked(trace, n - 1);
      } else {
        ActingOn(Observed(trace[..n - 1]), trace[n - 1]);
        ActsOnCheck(trace, n - 1);
        var c: nat :| CheckedSince(trace, n - 1, c, duty);
        StillChecked(trace, n - 1, c, duty);
      }
    }
  }

  /** A seal follows a look that found nothing left to do: the goal no longer
      active, and the newest input the one that the latest turn answered. */
  lemma SealedWhenDone(trace: seq<Event>, i: nat)
    requires Legal(trace) && i < |trace| && trace[i].Sealed?
    ensures exists c: nat :: CheckedSince(trace, i, c, MaySeal) && trace[c].goal != Active
                             && trace[c].newest == Some(trace[i].input)
  {
    assert AllowedAt(trace, i);
    ActsOnCheck(trace, i);
    var c: nat :| CheckedSince(trace, i, c, MaySeal);
    LastUnchanged(trace, c, i);
  }

  lemma SealStays(v: View, e: Event)
    requires Allowed(v, e) && v.flight.None? && Observe(v, e).duty == MaySeal && (!Decides(e) || e.Prepared?)
    ensures v.duty == MaySeal && Observe(v, e).last == v.last && Observe(v, e).flight.None?
  {
  }

  lemma {:induction false} LastUnchanged(trace: seq<Event>, c: nat, n: nat)
    requires Legal(trace) && c < n <= |trace| && trace[c].Checked?
    requires forall k :: c < k < n ==> !Decides(trace[k]) || trace[k].Prepared?
    requires Observed(trace[..n]).duty == MaySeal
    ensures Observed(trace[..n]).last == Observed(trace[..c]).last && Observed(trace[..n]).flight.None?
    decreases n
  {
    Next(trace, n - 1);
    assert AllowedAt(trace, n - 1);
    if n > c + 1 {
      NoFlightSinceCheck(trace, c, n - 1);
      SealStays(Observed(trace[..n - 1]), trace[n - 1]);
      LastUnchanged(trace, c, n - 1);
    }
  }

  lemma {:induction false} NoFlightSinceCheck(trace: seq<Event>, c: nat, n: nat)
    requires Legal(trace) && c < n <= |trace| && trace[c].Checked?
    requires forall k :: c < k < n ==> !Decides(trace[k]) || trace[k].Prepared?
    ensures Observed(trace[..n]).flight.None?
    decreases n
  {
    Next(trace, n - 1);
    assert AllowedAt(trace, n - 1);
    if n > c + 1 { NoFlightSinceCheck(trace, c, n - 1); }
  }

  /** And the next phase is sent only when a look found that the latest text is
      not to be sealed. */
  lemma PhaseWhenNotDone(trace: seq<Event>, i: nat)
    requires Legal(trace) && i < |trace| && trace[i].Written? && trace[i].kind == Phase
    ensures exists c: nat :: CheckedSince(trace, i, c, MayContinue)
  {
    assert AllowedAt(trace, i);
    ActsOnCheck(trace, i);
  }
}

/** The Claude executor: one task, its turns, and the questions between them.

    Everything the executor asks the host, the ledger or the Claude process is
    answered by the next move of a script, so a theorem about every script is a
    theorem about every interleaving. The end of the script is the death of the
    executor at that point.
  */
module Executor {

  import opened Optional
  import opened TurnTrace
  import opened ContinuedArtifacts

  datatype Failure = UserCancelled | JobInterrupted | InputChanged | RateLimited | CleanupPending | Broken

  datatype Result<+T> = Ok(value: T) | Err(error: Failure) {
    predicate IsFailure() { Err? }

    function PropagateFailure<U>(): Result<U>
      requires Err?
    {
      Err(error)
    }

    function Extract(): T
      requires Ok?
    {
      value
    }
  }

  datatype Disposition = Proceed | Cancel | Change

  datatype Terminal = Terminal(ending: Ending, text: string, announced: bool, retry: bool)

  /** One answer from outside; each question looks at the parts it asked for. */
  datatype Move = Move(
    aborted: bool, cancelled: bool, fails: bool, disposition: Disposition, terminal: Option<Terminal>,
    late: bool, control: Option<Incoming>, question: bool, goal: Option<Goal>, latest: Input,
    attachmentsChanged: bool, wellFormed: bool, pending: bool, taskUpdate: bool, sealed: bool,
    disk: Disk)

  /** Nothing but interrupts of the message in flight separates two views. */
  ghost predicate Untouched(v: View, before: View) {
    v == before.(flight := v.flight, marked := v.marked)
  }

  /** What a job returns: the sealed text, the text it had kept, and their input. */
  datatype Execution = Execution(text: string, kept: string, input: Input)

  /** Every message looked at for attachments was an answer of its revision. */
  ghost predicate AllAnswered(history: seq<Seen>, v: View) {
    forall i :: 0 <= i < |history| ==> AnsweredFor(v, history[i].message, history[i].revision)
  }

  lemma StillAnswered(history: seq<Seen>, v: View, more: View)
    requires AllAnswered(history, v) && v.answers <= more.answers
    ensures AllAnswered(history, more)
  {
    forall i | 0 <= i < |history| ensures AnsweredFor(more, history[i].message, history[i].revision) {
      assert AnsweredFor(v, history[i].message, history[i].revision);
    }
  }

  /** How often the ledger is asked before a prompt of this kind is written. */
  function Asks(kind: Kind): nat {
    if kind == Phase || kind == Question then 2 else 1
  }

  /** That many moves do not fail. */
  predicate Succeed(asks: nat, moves: seq<Move>) {
    asks <= |moves| && forall i :: 0 <= i < asks ==> !moves[i].fails
  }

  /** That many answers of the ledger let the prompt proceed. */
  predicate MayProceed(asks: nat, moves: seq<Move>) {
    asks <= |moves| && forall i :: 0 <= i < asks ==> moves[i].disposition == Proceed
  }

  /** A control that stops the turn in flight: any one for a task turn, only an
      interrupt for a question. */
  predicate Stops(question: bool, m: Move) {
    m.control.Some? && (question ==> m.control == Some(Interrupt))
  }

  ghost predicate AnyStops(question: bool, moves: seq<Move>) {
    exists i :: 0 <= i < |moves| && Stops(question, moves[i])
  }

  lemma OneMoreStops(question: bool, moves: seq<Move>, m: Move)
    ensures AnyStops(question, moves + [m]) <==> AnyStops(question, moves) || Stops(question, m)
  {
    var more := moves + [m];
    if i :| 0 <= i < |moves| && Stops(question, moves[i]) { assert Stops(question, more[i]); }
    if Stops(question, m) { assert Stops(question, more[|moves|]); }
    if i :| 0 <= i < |more| && Stops(question, more[i]) { assert i < |moves| ==> Stops(question, moves[i]); }
  }

  /** These moves were seen, of which the last is the terminal one, and the others
      decide whether the turn was to be stopped. */
  ghost predicate Saw(question: bool, script: seq<Move>, rest: seq<Move>, terminal: Terminal, stopped: bool) {
    exists seen: seq<Move>, m: Move ::
      script == seen + [m] + rest && m.terminal == Some(terminal) && (stopped <==> AnyStops(question, seen))
  }

  class ClaudeJob {
    const continued: ContinuedArtifactMessage
    var script: seq<Move>
    var trace: seq<Event>
    var transport: bool
    var session: bool
    var readonlyProcess: bool
    var phaseSequence: nat
    var activeTurn: bool
    var snapshot: Input
    var resultText: Option<string>
    var interruptedTurn: bool
    var pendingInterrupt: bool
    var goal: Option<Goal>
    ghost var view: View

    ghost predicate Logged()
      reads `trace, `view
    {
      Follows(trace, view)
    }

    ghost predicate Remembered()
      reads `view, continued
    {
      continued.Valid() && AllAnswered(continued.history, view)
    }

    ghost predicate Valid()
      reads this
    {
      && Logged()
      && view.process == (if transport then Some(readonlyProcess) else None)
      && (session ==> transport)
    }

    /** The marks of the executor are those of the trace. */
    ghost predicate Marked()
      reads this
    {
      view.marked <==> pendingInterrupt || interruptedTurn
    }

    /** No message is in flight. */
    ghost predicate Between()
      reads this
    {
      Valid() && Marked() && view.flight.None? && !activeTurn && view.nextPhase <= phaseSequence
    }

    /** And the next thing to do is to look at what has come in. */
    ghost predicate ToLook()
      reads this
    {
      Between() && Kept() && (view.duty == MustLook || view.duty == MayContinue || view.duty == MaySeal)
    }

    /** A task turn is running on the current snapshot. */
    ghost predicate InTask()
      reads this
    {
      && Valid() && Marked() && session && !readonlyProcess && activeTurn && view.nextPhase <= phaseSequence
      && view.flight.Some? && view.duty == MustLook
      && var f := view.flight.value;
         f.kind != Question && f.phase == phaseSequence && f.input == snapshot && Noticed(f)
    }

    /** A question turn is running. */
    ghost predicate InQuestion()
      reads this
    {
      && Valid() && Marked() && session && readonlyProcess && activeTurn
      && view.flight.Some? && view.flight.value.kind == Question && view.duty == MustDeliver
    }

    ghost predicate Noticed(f: Flight)
      reads this
    {
      f.interrupted ==> pendingInterrupt || interruptedTurn
    }

    /** The text kept for sealing is that of the latest turn. It answered the
        current snapshot, unless the goal was reset when a newer snapshot could
        not be delivered. */
    ghost predicate Kept()
      reads this
    {
      if view.last.None? then resultText.None?
      else resultText == Some(view.last.value.0) && (view.last.value.1 == snapshot || goal == Some(Active))
    }

    constructor (parse: string -> Option<seq<string>>, moves: seq<Move>, input: Input)
      ensures fresh(continued) && continued.Valid() && continued.history == []
      ensures Between() && Kept() && view == START && trace == [] && script == moves && resultText.None?
    {
      NothingYet();
      continued := new ContinuedArtifactMessage(parse);
      script, trace, view := moves, [], START;
      transport, session, readonlyProcess, phaseSequence, activeTurn := false, false, false, 0, false;
      snapshot, resultText, interruptedTurn, pendingInterrupt := input, None, false, false;
      goal := None;
    }

    method Ask() returns (r: Result<Move>)
      modifies `script
      ensures |script| <= old(|script|) && (r.Ok? ==> |script| < old(|script|))
      ensures r.Ok? <==> old(script) != []
      ensures r.Ok? ==> r.value == old(script)[0] && script == old(script)[1..]
      ensures r.Err? ==> r.error != InputChanged
    {
      if script == [] { return Err(JobInterrupted); }
      r := Ok(script[0]);
      script := script[1..];
    }

    method Abort() returns (r: Result<()>)
      modifies `script
      ensures |script| <= old(|script|) && (r.Ok? ==> |script| < old(|script|))
      ensures r.Ok? <==> old(script) != [] && !old(script)[0].cancelled && !old(script)[0].aborted
      ensures r.Ok? ==> script == old(script)[1..]
      ensures r.Err? ==> r.error != InputChanged
    {
      var m :- Ask();
      if m.cancelled { return Err(UserCancelled); }
      if m.aborted { return Err(JobInterrupted); }
      return Ok(());
    }

    method Record(e: Event)
      requires Logged() && Allowed(view, e)
      modifies `trace, `view
      ensures Logged() && view == Observe(old(view), e)
      ensures trace == old(trace) + [e]
    {
      Extend(trace, view, e);
      trace, view := trace + [e], Observe(view, e);
    }

    method CloseProcess() returns (r: Result<()>)
      requires Valid()
      modifies `script, `trace, `view, `transport, `session
      ensures Valid() && |script| <= old(|script|)
      ensures view == old(view).(process := view.process)
      ensures trace == old(trace) || trace == old(trace) + [Closed]
      ensures r.Ok? ==> !transport
      ensures !old(transport) ==> r.Ok? && script == old(script)
      ensures old(transport) ==>
                var asks := if readonlyProcess then 1 else 2;
                && (r.Ok? <==> Succeed(asks, old(script))) && (r.Ok? ==> script == old(script)[asks..])
      ensures r.Err? ==> r.error != InputChanged
    {
      if !transport { return Ok(()); }
      if !readonlyProcess {
        var settled :- Ask();
        if settled.fails { return Err(JobInterrupted); }
      }
      var closed :- Ask();
      if closed.fails { return Err(CleanupPending); }
      Record(Closed);
      transport, session := false, false;
      return Ok(());
    }

    method OpenProcess(readonly: bool) returns (r: Result<()>)
      requires Valid() && view.duty != MustStop
      modifies `script, `trace, `view, `transport, `session, `readonlyProcess
      ensures Valid() && |script| <= old(|script|)
      ensures view == old(view).(process := view.process)
      ensures r.Ok? ==> session && readonlyProcess == readonly && |script| < old(|script|)
      ensures r.Err? ==> r.error != InputChanged
    {
      var attachments :- Ask();
      if attachments.attachmentsChanged {
        var _ :- CloseProcess();
        var _ :- Abort();
      }
      if session && readonlyProcess == readonly { return Ok(()); }
      var _ :- CloseProcess();
      r := Launch(readonly);
    }

    method Attach()
      requires Valid() && !transport && view.duty != MustStop
      modifies `trace, `view, `transport, `session
      ensures Valid() && session && view == old(view).(process := Some(readonlyProcess))
    {
      Record(Opened(readonlyProcess));
      transport, session := true, true;
    }

    method Launch(readonly: bool) returns (r: Result<()>)
      requires Valid() && !transport && view.duty != MustStop
      modifies `script, `trace, `view, `transport, `session, `readonlyProcess
      ensures Valid() && |script| <= old(|script|)
      ensures view == old(view).(process := view.process)
      ensures r.Ok? ==> session && readonlyProcess == readonly
      ensures r.Err? ==> r.error != InputChanged
    {
      var _ :- Abort();
      readonlyProcess := readonly;
      var launched :- Ask();
      if launched.fails { return Err(Broken); }
      Attach();
      var initialized :- Ask();
      if initialized.fails { return Err(Broken); }
      return Ok(());
    }

    method Send(kind: Kind) returns (r: Result<()>)
      requires Between() && session && readonlyProcess == (kind == Question) && Permits(view, kind, snapshot)
      modifies `script, `trace, `view, `goal, `activeTurn
      ensures Valid() && |script| <= old(|script|)
      ensures r.Ok? ==> activeTurn && view == Observe(old(view), Written(kind, phaseSequence, snapshot))
      ensures r.Ok? ==>
                var asks := Asks(kind);
                && MayProceed(asks, old(script)) && |old(script)| > asks
                && script == old(script)[asks + 1..] && !old(script)[asks].fails
      ensures r == Err(InputChanged) ==> view == old(view) && !activeTurn && goal == old(goal)
      ensures kind == Question ==> goal == old(goal)
    {
      if kind == Phase {
        Record(Prepared(phaseSequence));
      }
      var _ :- AskToProceed(kind);
      Record(Written(kind, phaseSequence, snapshot));
      var acknowledged :- Ask();
      if kind != Question { goal := acknowledged.goal; }
      if acknowledged.fails { return Err(Broken); }
      activeTurn := true;
      return Ok(());
    }

    /** A phase and a question are prepared before they are begun. */
    method AskToProceed(kind: Kind) returns (r: Result<()>)
      modifies `script
      ensures |script| <= old(|script|)
      ensures r.Ok? ==> MayProceed(Asks(kind), old(script)) && script == old(script)[Asks(kind)..]
    {
      if kind == Phase || kind == Question {
        var _ :- AskLedger();
      }
      r := AskLedger();
    }

    /** Reads the newest input for a prompt. */
    method ReadSnapshot() returns (r: Result<()>)
      requires Logged() && view.flight.None?
      modifies `script, `trace, `view, `snapshot
      ensures Logged() && |script| <= old(|script|)
      ensures r.Ok? ==> old(script) != [] && snapshot == old(script)[0].latest && script == old(script)[1..]
      ensures r.Ok? ==> view == Observe(old(view), ReadInput(snapshot))
      ensures r.Err? ==> r.error != InputChanged && view == old(view)
    {
      var m :- Ask();
      snapshot := m.latest;
      Record(ReadInput(snapshot));
      return Ok(());
    }

    /** Asks whether the prompt may still be sent as it is. */
    method AskLedger() returns (r: Result<()>)
      modifies `script
      ensures |script| <= old(|script|)
      ensures r.Ok? ==> old(script) != [] && old(script)[0].disposition == Proceed && script == old(script)[1..]
    {
      var answer :- Ask();
      if answer.fails { return Err(Broken); }
      if answer.disposition == Cancel { return Err(UserCancelled); }
      if answer.disposition == Change { return Err(InputChanged); }
      return Ok(());
    }

    ghost predicate InTurn(question: bool)
      reads this
    {
      if question then InQuestion() else InTask()
    }

    method RequestInterrupt(question: bool, control: Incoming, fails: bool) returns (r: Result<()>)
      requires InTurn(question)
      modifies `trace, `view, `pendingInterrupt, `interruptedTurn
      ensures Valid() && Untouched(view, old(view))
      ensures r.Ok? ==> InTurn(question) && (pendingInterrupt || interruptedTurn)
      ensures r.Ok? <==> !fails
      ensures r.Err? ==> r.error != InputChanged
    {
      Record(Interrupted);
      if fails { return Err(Broken); }
      if control.Steer? {
        interruptedTurn := true;
      } else {
        pendingInterrupt := true;
      }
      return Ok(());
    }

    method End(question: bool, terminal: Terminal)
      requires InTurn(question)
      modifies `trace, `view
      ensures Valid() && Over(question, old(view), terminal)
    {
      Record(Ended(terminal.ending, terminal.text));
    }

    /** A task turn on the current snapshot is over: its text is the latest one
        exactly when it succeeded and nothing interrupted it. */
    ghost predicate Completed(before: View, terminal: Terminal)
      reads this
    {
      && view.process == before.process && view.duty == before.duty && view.nextPhase <= phaseSequence + 1
      && view.last == (if terminal.ending == Success && !pendingInterrupt && !interruptedTurn
                       then Some((terminal.text, snapshot)) else None)
      && (view.last.Some? ==> view.last.value in view.answers)
    }

    /** Waits for the terminal of the turn in flight. The turn is interrupted as
        soon as a control is seen that stops it, and only then. */
    method Receive(question: bool) returns (r: Result<Terminal>)
      requires InTurn(question)
      modifies `script, `trace, `view, `goal, `activeTurn, `pendingInterrupt, `interruptedTurn
      ensures Valid() && |script| <= old(|script|)
      ensures r.Ok? ==> activeTurn && |script| < old(|script|) && Over(question, old(view), r.value)
      ensures r.Ok? ==>
                exists stopped ::
                  Saw(question, old(script), script, r.value, stopped)
                  && (pendingInterrupt || interruptedTurn <==>
                        old(pendingInterrupt || interruptedTurn) || stopped)
      ensures question ==> goal == old(goal)
      ensures r.Err? ==> r.error != InputChanged
    {
      var interrupting := false;
      ghost var seen: seq<Move>, marked := [], pendingInterrupt || interruptedTurn;
      while true
        invariant old(script) == seen + script
        invariant InTurn(question) && Untouched(view, old(view))
        invariant question ==> goal == old(goal)
        invariant pendingInterrupt || interruptedTurn <==> marked || AnyStops(question, seen)
        decreases |script|
      {
        ghost var before := script;
        var terminal, interrupts := Watch(question, interrupting);
        if terminal.Err? { return Err(terminal.error); }
        assert old(script) == seen + [before[0]] + script;
        if terminal.value.Some? {
          assert Saw(question, old(script), script, terminal.value.value, AnyStops(question, seen));
          return Ok(terminal.value.value);
        }
        OneMoreStops(question, seen, before[0]);
        seen := seen + [before[0]];
        interrupting := interrupting || interrupts;
      }
    }

    /** One event of the turn in flight: its terminal, or nothing yet. */
    method Watch(question: bool, interrupting: bool) returns (r: Result<Option<Terminal>>, interrupts: bool)
      requires InTurn(question)
      modifies `script, `trace, `view, `goal, `activeTurn, `pendingInterrupt, `interruptedTurn
      ensures Valid() && |script| <= old(|script|) && (question ==> goal == old(goal))
      ensures r.Ok? ==> old(script) != [] && script == old(script)[1..] && r.value == old(script)[0].terminal
      ensures r.Ok? && r.value.None? ==>
                InTurn(question) && Untouched(view, old(view))
                && (pendingInterrupt || interruptedTurn <==>
                      old(pendingInterrupt || interruptedTurn) || Stops(question, old(script)[0]))
                && (interrupts <==> Stops(question, old(script)[0]) && !old(pendingInterrupt || interruptedTurn))
                && !(interrupting && old(script)[0].late)
      ensures r.Err? && old(script) != [] ==>
                var m := old(script)[0];
                m.aborted || m.terminal.Some? || (interrupting && m.late) || m.fails || (m.control.None? && m.cancelled)
      ensures r.Ok? && r.value.Some? ==>
                && (pendingInterrupt || interruptedTurn <==> old(pendingInterrupt || interruptedTurn))
                && activeTurn && Over(question, old(view), r.value.value)
      ensures r.Err? ==> r.error != InputChanged
    {
      interrupts := false;
      var m :- Ask();
      if m.aborted { return Err(JobInterrupted), false; }
      if !question { goal := m.goal; }
      if m.terminal.Some? {
        var _ :- TakeTerminal(question, m.terminal.value, m.cancelled);
        return Ok(m.terminal), false;
      }
      if interrupting && m.late { return Err(Broken), false; }
      interrupts :- ReactTo(question, m);
      return Ok(None), interrupts;
    }

    /** The turn in flight is over. */
    ghost predicate Over(question: bool, before: View, terminal: Terminal)
      reads this
    {
      && Marked() && view.flight.None? && before.answers <= view.answers
      && if question then view == before.(flight := None, marked := view.marked) else Completed(before, terminal)
    }

    method TakeTerminal(question: bool, terminal: Terminal, cancelled: bool) returns (r: Result<Terminal>)
      requires InTurn(question)
      modifies `trace, `view, `activeTurn
      ensures Valid()
      ensures r.Ok? ==> r.value == terminal && activeTurn && Over(question, old(view), terminal)
      ensures r.Ok? <==> terminal.announced && (!terminal.retry || cancelled)
      ensures r.Err? ==> r.error == (if terminal.announced then RateLimited else Broken)
      ensures r == Err(RateLimited) ==> !activeTurn
    {
      if !terminal.announced { return Err(Broken); }
      End(question, terminal);
      if terminal.retry && !cancelled {
        activeTurn := false;
        return Err(RateLimited);
      }
      return Ok(terminal);
    }

    /** Interrupts the turn in flight when a control is seen that stops it and it
        is not being interrupted already. */
    method ReactTo(question: bool, m: Move) returns (r: Result<bool>)
      requires InTurn(question)
      modifies `trace, `view, `pendingInterrupt, `interruptedTurn
      ensures Valid() && Untouched(view, old(view))
      ensures r.Ok? ==> InTurn(question)
      ensures r.Ok? ==> (pendingInterrupt || interruptedTurn <==>
                           old(pendingInterrupt || interruptedTurn) || Stops(question, m))
      ensures r.Ok? ==> (r.value <==> Stops(question, m) && !old(pendingInterrupt || interruptedTurn))
      ensures r.Err? ==> (m.control.None? && m.cancelled) || m.fails
      ensures r.Err? ==> r.error != InputChanged
    {
      if pendingInterrupt || interruptedTurn { return Ok(false); }
      if m.control.None? {
        if m.cancelled { return Err(UserCancelled); }
        return Ok(false);
      }
      if question && m.control.value != Interrupt { return Ok(false); }
      var _ :- RequestInterrupt(question, m.control.value, m.fails);
      return Ok(true);
    }

    /** The last of these moves let the turn go, and none of them was a cancellation
        of the job. */
    ghost predicate Barrier(before: seq<Move>, rest: seq<Move>) {
      exists seen: seq<Move>, m: Move :: before == seen + [m] + rest && !m.pending && !m.cancelled
    }

    method WaitAtBarrier() returns (r: Result<()>)
      modifies `script
      ensures |script| <= old(|script|) && (r.Ok? ==> Barrier(old(script), script))
      ensures old(script) != [] && !old(script)[0].pending && !old(script)[0].cancelled ==>
                r.Ok? && script == old(script)[1..]
      ensures r.Err? ==> r.error != InputChanged
    {
      ghost var seen: seq<Move> := [];
      while true
        invariant old(script) == seen + script && (seen == [] || old(script)[0].pending)
        decreases |script|
      {
        ghost var before := script;
        var barrier :- Ask();
        if barrier.cancelled { return Err(UserCancelled); }
        if !barrier.pending {
          assert old(script) == seen + [before[0]] + script;
          return Ok(());
        }
        var _ :- Abort();
        seen := seen + before[..2];
      }
    }

    method Finish() returns (r: Result<()>)
      requires Valid() && view.flight.None?
      modifies `script, `trace, `view, `activeTurn, `pendingInterrupt, `interruptedTurn
      ensures Valid() && |script| <= old(|script|)
      ensures r.Ok? ==> !activeTurn && Marked() && view == old(view).(marked := false)
      ensures r.Ok? ==> Barrier(old(script), script)
      ensures old(script) != [] && !old(script)[0].pending && !old(script)[0].cancelled ==>
                r.Ok? && script == old(script)[1..]
      ensures r.Err? ==> r.error != InputChanged
    {
      var _ :- WaitAtBarrier();
      Record(Finished);
      activeTurn, pendingInterrupt, interruptedTurn := false, false, false;
      return Ok(());
    }

    /** Puts one question; says whether the reply could be staged. */
    method AttemptAnswer() returns (r: Result<bool>)
      requires Between() && Kept() && session && readonlyProcess
      requires view.duty == MustAnswer || view.duty == MustDeliver
      modifies `script, `trace, `view, `goal, `activeTurn, `pendingInterrupt, `interruptedTurn
      ensures Valid() && |script| <= old(|script|)
      ensures r.Ok? ==> Between() && |script| < old(|script|) && goal == old(goal)
      ensures r.Ok? ==> view == old(view).(marked := view.marked, newest := None, duty := MustDeliver)
    {
      var _ :- PutQuestion();
      var terminal :- Receive(true);
      r := StageReply(terminal);
      if r.Ok? { activeTurn := false; }
    }

    method PutQuestion() returns (r: Result<()>)
      requires Between() && session && readonlyProcess && (view.duty == MustAnswer || view.duty == MustDeliver)
      modifies `script, `trace, `view, `goal, `activeTurn
      ensures Valid() && |script| <= old(|script|) && goal == old(goal)
      ensures r.Ok? ==> InQuestion() && |script| < old(|script|)
      ensures r.Ok? ==> view == old(view).(flight := view.flight, newest := None, duty := MustDeliver)
    {
      var _ :- Abort();
      r := Send(Question);
    }

    /** Hands the reply to the ledger; says whether it could be staged. */
    method StageReply(terminal: Terminal) returns (r: Result<bool>)
      modifies `script
      ensures |script| <= old(|script|) && (r.Ok? ==> terminal.ending == Success)
      ensures r.Ok? <==> |old(script)| >= 2 && !old(script)[0].cancelled && !old(script)[0].aborted
                         && terminal.ending == Success && old(script)[1].disposition != Cancel
      ensures r.Ok? ==> r.value == old(script)[1].wellFormed && script == old(script)[2..]
      ensures r.Err? ==> r.error != InputChanged
    {
      var _ :- Abort();
      if terminal.ending != Success { return Err(Broken); }
      var reply :- Ask();
      if reply.disposition == Cancel { return Err(UserCancelled); }
      return Ok(reply.wellFormed);
    }

    /** The last of these moves say that the answer is delivered and what the question
        became. */
    ghost predicate Delivered(before: seq<Move>, rest: seq<Move>, update: bool) {
      exists seen: seq<Move>, d: Move, p: Move ::
        before == seen + [d, p] + rest && !d.pending && p.taskUpdate == update
    }

    /** Asks until the answer is delivered, and then what became of the question. */
    method WaitForDelivery() returns (r: Result<Move>)
      modifies `script
      ensures |script| <= old(|script|)
      ensures r.Ok? ==> Delivered(old(script), script, r.value.taskUpdate)
    {
      ghost var seen: seq<Move> := [];
      var delivered :- Ask();
      while delivered.pending
        invariant |script| <= old(|script|) && old(script) == seen + [delivered] + script
        decreases |script|
      {
        ghost var rest := script;
        var _ :- Abort();
        seen := seen + [delivered] + rest[..1];
        delivered :- Ask();
      }
      r := Ask();
      if r.Ok? { assert old(script) == seen + [delivered, r.value] + script; }
    }

    /** Waits until the staged answer is delivered; says whether the question
        was promoted to a task update. */
    method AwaitDelivery() returns (r: Result<bool>)
      requires Between() && view.duty == MustDeliver
      modifies `script, `trace, `view
      ensures Valid() && |script| <= old(|script|)
      ensures r.Ok? ==> Between() && view == Observe(old(view), Promoted(r.value))
      ensures r.Ok? ==> Delivered(old(script), script, r.value)
    {
      var promoted :- WaitForDelivery();
      Record(Promoted(promoted.taskUpdate));
      return Ok(promoted.taskUpdate);
    }

    /** Answers one question in a read-only process, asking again while the
        reply is malformed. A question promoted to a task update makes the text
        kept so far out of date. */
    method AnswerQuestion() returns (r: Result<()>)
      requires Between() && Kept() && view.duty == MustAnswer
      modifies `script, `trace, `view, `transport, `session, `readonlyProcess, `goal, `activeTurn,
        `pendingInterrupt, `interruptedTurn, `resultText
      ensures Valid() && |script| <= old(|script|)
      ensures r.Ok? ==> ToLook() && |script| < old(|script|) && view.answers == old(view).answers
    {
      var _ :- OpenProcess(true);
      var staged := false;
      while !staged
        invariant Between() && Kept() && |script| < old(|script|) && view.answers == old(view).answers
        invariant if staged then view.duty == MustDeliver else session && readonlyProcess
        invariant view.duty == MustAnswer || view.duty == MustDeliver
        decreases |script|, !staged
      {
        staged :- AttemptAnswer();
      }
      r := DeliverReply();
    }

    /** Retires the read-only process and waits until the answer is delivered. */
    method DeliverReply() returns (r: Result<()>)
      requires Between() && Kept() && view.duty == MustDeliver
      modifies `script, `trace, `view, `transport, `session, `goal, `resultText
      ensures Valid() && |script| <= old(|script|)
      ensures r.Ok? ==> ToLook() && view.answers == old(view).answers
    {
      var _ :- CloseProcess();
      var update :- AwaitDelivery();
      if update { TakeUpdate(); }
      return Ok(());
    }

    /** The question changed the task, so what was answered before is out of date. */
    method TakeUpdate()
      requires Between() && view.duty == MustReset && view.last.None?
      modifies `trace, `view, `goal, `resultText
      ensures ToLook() && resultText.None? && goal == Some(Active) && view.answers == old(view).answers
    {
      resultText := None;
      ResetGoal();
    }

    /** Delivers the first prompt, on the newest input that can be dispatched. */
    method Start() returns (r: Result<()>)
      requires Between() && view == START
      modifies `script, `trace, `view, `transport, `session, `readonlyProcess, `goal, `activeTurn, `snapshot
      ensures Valid() && |script| <= old(|script|)
      ensures r.Ok? ==> InTask()
    {
      var _ :- Abort();
      var _ :- OpenProcess(false);
      while true
        invariant Between() && session && !readonlyProcess && |script| <= old(|script|) && view.duty == MustStart
        decreases |script|
      {
        r := SendInitial();
        if r.Ok? || r.error != InputChanged { return; }
        var _ :- Abort();
      }
    }

    method SendInitial() returns (r: Result<()>)
      requires Between() && session && !readonlyProcess && view.duty == MustStart
      modifies `script, `trace, `view, `goal, `activeTurn, `snapshot
      ensures Valid() && |script| <= old(|script|)
      ensures r.Ok? ==> InTask()
      ensures r == Err(InputChanged) ==>
                Between() && view == old(view).(newest := view.newest) && !activeTurn && |script| < old(|script|)
    {
      var got := ReadSnapshot();
      if got.Err? { return Err(got.error); }
      r := Send(Initial);
    }

    /** Waits for the running task turn and keeps its text only when nothing
        interrupted it. */
    method CompleteTurn() returns (r: Result<()>)
      requires InTask() && Remembered()
      modifies `script, `trace, `view, `transport, `session, `goal, `activeTurn, `pendingInterrupt,
        `interruptedTurn, `resultText, `phaseSequence, continued
      ensures Valid() && |script| <= old(|script|)
      ensures r.Ok? ==> ToLook() && Remembered() && |script| < old(|script|)
    {
      var terminal :- Receive(false);
      StillAnswered(continued.history, old(view), view);
      var interrupted := pendingInterrupt || interruptedTurn;
      var _ :- KeepText(terminal, interrupted);
      r := LeaveTurn(interrupted);
    }

    method KeepText(terminal: Terminal, interrupted: bool) returns (r: Result<()>)
      requires Logged() && Remembered()
      requires view.last == if terminal.ending == Success && !interrupted then Some((terminal.text, snapshot)) else None
      requires view.last.Some? ==> view.last.value in view.answers
      modifies `script, `resultText, continued
      ensures Remembered() && |script| <= old(|script|)
      ensures r.Ok? ==> resultText == if view.last.Some? then Some(view.last.value.0) else None
      ensures r.Ok? ==>
                if resultText.None? || resultText.value == "" then continued.history == old(continued.history)
                else exists disk ::
                  continued.history == old(continued.history)
                    + [Seen(resultText.value, snapshot.revision, Retained(continued.parse, resultText.value, disk))]
      ensures r.Ok? <==>
                var asks := if view.last.Some? && view.last.value.0 != "" then 2 else 1;
                && |old(script)| >= asks && !old(script)[0].cancelled && !old(script)[0].aborted
                && terminal.ending != Failed && (terminal.ending == Cancelled ==> interrupted)
    {
      var _ :- Abort();
      if terminal.ending == Failed || (terminal.ending == Cancelled && !interrupted) { return Err(Broken); }
      resultText := if terminal.ending == Success && !interrupted then Some(terminal.text) else None;
      if resultText.Some? && resultText.value != "" {
        var m :- Ask();
        Keep(resultText.value, m.disk);
      }
      return Ok(());
    }

    /** Looks at an answer to the current snapshot for attachments. */
    method Keep(text: string, disk: Disk)
      requires Remembered() && (text, snapshot) in view.answers
      modifies continued
      ensures Remembered()
      ensures continued.history
        == old(continued.history) + [Seen(text, snapshot.revision, Retained(continued.parse, text, disk))]
    {
      continued.Observe(text, snapshot.revision, disk);
      assert AnsweredFor(view, text, snapshot.revision);
    }

    /** An interrupted turn may have left a command running, so its process is
        retired before the next prompt. */
    method LeaveTurn(interrupted: bool) returns (r: Result<()>)
      requires Valid() && Kept() && view.flight.None? && view.nextPhase <= phaseSequence + 1 && view.duty == MustLook
      modifies `script, `trace, `view, `transport, `session, `activeTurn, `pendingInterrupt, `interruptedTurn,
        `phaseSequence
      ensures Valid() && |script| <= old(|script|)
      ensures r.Ok? ==> ToLook() && (interrupted ==> !transport) && view.answers == old(view).answers
      ensures r.Ok? ==> phaseSequence == old(phaseSequence) + 1
    {
      var _ :- Finish();
      if interrupted {
        var _ :- CloseProcess();
      }
      phaseSequence := phaseSequence + 1;
      return Ok(());
    }

    method ResetGoal()
      requires Logged() && view.flight.None?
      modifies `goal, `trace, `view
      ensures goal == Some(Active) && Logged() && view == Observe(old(view), Reset)
    {
      Record(Reset);
      goal := Some(Active);
    }

    /** Delivers a steer on the input revision it names. */
    method SteerTask(revision: nat) returns (r: Result<()>)
      requires Between() && Kept() && view.duty == MustSteer(revision)
      modifies `script, `trace, `view, `transport, `session, `readonlyProcess
      modifies `goal, `activeTurn, `snapshot, `resultText
      ensures Valid() && |script| <= old(|script|)
      ensures r.Ok? ==> InTask() && |script| < old(|script|) && view.answers == old(view).answers
      ensures r.Ok? ==> snapshot.revision == revision && resultText.None?
    {
      var _ :- ReadySteer(revision);
      var _ :- Send(Control);
      resultText := None;
      return Ok(());
    }

    /** The writable process is open, and the goal active again. */
    ghost predicate Ready(before: View)
      reads this
    {
      && Between() && session && !readonlyProcess && goal == Some(Active)
      && view == before.(process := Some(false), reset := true, newest := view.newest)
    }

    method ReadySteer(revision: nat) returns (r: Result<()>)
      requires Between() && view.duty == MustSteer(revision)
      modifies `script, `trace, `view, `transport, `session, `readonlyProcess, `goal, `snapshot
      ensures Valid() && |script| <= old(|script|)
      ensures r.Ok? ==> Ready(old(view)) && snapshot.revision == revision && |script| < old(|script|)
      ensures r.Err? ==> r.error != InputChanged
    {
      var _ :- OpenProcess(false);
      ResetGoal();
      var m :- Ask();
      snapshot := Input(revision, m.latest.digest);
      return Ok(());
    }

    method ReadyPhase() returns (r: Result<()>)
      requires Between() && view.duty == MayContinue
      modifies `script, `trace, `view, `transport, `session, `readonlyProcess, `goal, `snapshot
      ensures Valid() && |script| <= old(|script|)
      ensures r.Ok? ==> Ready(old(view)) && view.newest == Some(snapshot) && |script| < old(|script|)
      ensures r.Err? ==> r.error != InputChanged
    {
      var _ :- OpenProcess(false);
      var _ :- ReadSnapshot();
      ResetGoal();
      return Ok(());
    }

    /** Continues the task on the newest input; when that changed before it was
        dispatched, the reset goal keeps the old text from being sealed. */
    method ContinueTask() returns (r: Result<()>)
      requires Between() && Kept() && view.duty == MayContinue
      modifies `script, `trace, `view, `transport, `session, `readonlyProcess, `goal, `activeTurn, `snapshot
      ensures Valid() && |script| <= old(|script|)
      ensures r.Ok? ==> (if activeTurn then InTask() else ToLook()) && |script| < old(|script|)
      ensures r.Ok? ==> view.answers == old(view).answers
    {
      var _ :- ReadyPhase();
      r := Send(Phase);
      if r.Err? && r.error == InputChanged { r := Abort(); }
    }

    /** The text to answer with: the kept one, or that of an earlier message of the
        same revision whose attachments still stand. */
    method Answer(text: string, input: Input, disk: Disk) returns (answer: string)
      requires Remembered() && (text, input) in view.answers && goal.Some?
      ensures AnsweredFor(view, answer, input.revision)
      ensures answer != text ==> Waits(goal.value) && !Declares(text)
    {
      answer := continued.Resolve(text, input.revision, goal.value, disk);
      assert AnsweredFor(view, text, input.revision);
    }

    ghost predicate ToSeal(text: string, input: Input)
      reads this
    {
      Between() && view.duty == MaySeal && view.last == Some((text, input)) && view.last.value in view.answers
    }

    method Seal(answer: string, text: string, input: Input)
      requires ToSeal(text, input) && !transport && AnsweredFor(view, answer, input.revision)
      modifies `trace, `view
      ensures Valid() && view.answers == old(view).answers && Sealed(answer, text, input) in trace
    {
      Record(Sealed(answer, text, input));
    }

    /** Asks the ledger to seal, and seals exactly when it does. */
    method SealClosed(text: string, input: Input) returns (r: Result<Option<string>>)
      requires ToSeal(text, input) && !transport && Remembered() && goal.Some?
      modifies `script, `trace, `view
      ensures Valid() && |script| <= old(|script|)
      ensures r.Ok? ==> |old(script)| >= 2 && script == old(script)[2..]
                        && (r.value.Some? <==> old(script)[1].sealed)
      ensures r.Ok? <==> |old(script)| >= 2 && !old(script)[0].cancelled && !old(script)[0].aborted
                         && old(script)[1].disposition != Cancel
      ensures r.Ok? && r.value.None? ==> view == old(view)
      ensures r.Ok? ==> view.answers == old(view).answers
      ensures r.Ok? && r.value.Some? ==> Sealed(r.value.value, text, input) in trace
      ensures r.Ok? && r.value.Some? && r.value.value != text ==> Waits(goal.value) && !Declares(text)
    {
      var _ :- Abort();
      var m :- Ask();
      var answer := Answer(text, input, m.disk);
      if m.disposition == Cancel { return Err(UserCancelled); }
      if !m.sealed { return Ok(None); }
      Seal(answer, text, input);
      return Ok(Some(answer));
    }

    /** Seals an answer for the newest input, which the kept text answered. */
    method TrySeal(text: string, input: Input) returns (r: Result<Option<string>>)
      requires ToSeal(text, input) && Kept() && Remembered() && goal.Some?
      modifies `script, `trace, `view, `transport, `session
      ensures Valid() && |script| <= old(|script|)
      ensures r.Ok? ==> |script| < old(|script|) && view.answers == old(view).answers
      ensures r.Ok? && r.value.None? ==> ToLook()
      ensures r.Ok? && r.value.Some? ==> Sealed(r.value.value, text, input) in trace
      ensures r.Ok? && r.value.Some? && r.value.value != text ==> Waits(goal.value) && !Declares(text)
    {
      var _ :- CloseProcess();
      StillAnswered(continued.history, old(view), view);
      r := SealClosed(text, input);
    }

    /** Looks at the goal and, if there is a text to seal, at the newest input. */
    method CheckGoal(reached: Goal) returns (r: Result<bool>)
      requires Between() && Kept() && view.duty == MustCheck && goal == Some(reached)
      modifies `script, `trace, `view
      ensures Valid() && |script| <= old(|script|)
      ensures r.Ok? ==> Between() && Kept() && view == old(view).(duty := if r.value then MaySeal else MayContinue)
      ensures r.Ok? && r.value ==> view.last.Some? && view.last.value == (resultText.value, snapshot)
    {
      if resultText.Some? && resultText.value != "" && reached != Active {
        var last :- Ask();
        Record(Checked(reached, Some(last.latest)));
        return Ok(last.latest == snapshot);
      }
      Record(Checked(reached, None));
      return Ok(false);
    }

    method SealOrContinue() returns (r: Result<Option<Execution>>)
      requires Between() && Kept() && Remembered() && view.duty == MustCheck && goal.Some?
      requires view.last.Some? ==> view.last.value in view.answers
      modifies `script, `trace, `view, `transport, `session, `readonlyProcess, `goal, `activeTurn, `snapshot
      ensures Valid() && |script| <= old(|script|)
      ensures r.Ok? && r.value.None? ==> (if activeTurn then InTask() else ToLook()) && |script| < old(|script|)
      ensures r.Ok? ==> view.answers == old(view).answers
      ensures r.Ok? && r.value.Some? ==> Sealed(r.value.value.text, r.value.value.kept, r.value.value.input) in trace
    {
      var done :- CheckGoal(goal.value);
      if done {
        var text := resultText.value;
        var sealed :- TrySeal(text, snapshot);
        return Ok(if sealed.Some? then Some(Execution(sealed.value, text, snapshot)) else None);
      }
      var _ :- ContinueTask();
      return Ok(None);
    }

    /** One choice of what to do between two turns. */
    method Decide() returns (r: Result<Option<Execution>>)
      requires ToLook() && Remembered()
      requires view.last.Some? ==> view.last.value in view.answers
      modifies this
      ensures Valid() && |script| <= old(|script|)
      ensures r.Ok? && r.value.None? ==> (if activeTurn then InTask() else ToLook()) && |script| < old(|script|)
      ensures r.Ok? ==> view.answers == old(view).answers
      ensures r.Ok? && r.value.Some? ==> Sealed(r.value.value.text, r.value.value.kept, r.value.value.input) in trace
    {
      var _ :- Abort();
      var m :- Ask();
      Record(Looked(m.question, m.control));
      if m.question {
        var _ :- AnswerQuestion();
        return Ok(None);
      }
      match m.control
      case Some(Interrupt) => return Err(UserCancelled);
      case Some(Steer(revision)) =>
        var _ :- SteerTask(revision);
        return Ok(None);
      case Some(Interjection) => return Ok(None);
      case None =>
        if goal.None? { return Err(Broken); }
        r := SealOrContinue();
    }

    method Run() returns (r: Result<Execution>)
      requires Between() && view == START && continued.Valid() && continued.history == []
      modifies this, continued
      ensures Valid()
      ensures r.Ok? ==> Sealed(r.value.text, r.value.kept, r.value.input) in trace
    {
      var _ :- Start();
      while true
        invariant Remembered() && if activeTurn then InTask() else ToLook()
        decreases |script|
      {
        if activeTurn {
          var _ :- CompleteTurn();
        }
        ghost var before := view;
        FollowedIsLegal(trace, view);
        LastIsAnswer(trace);
        var outcome :- Decide();
        StillAnswered(continued.history, before, view);
        if outcome.Some? { return Ok(outcome.value); }
      }
    }
  }

  /** A whole job, whatever happens around it: a legal trace, of which the theorems
      of `TurnTrace` say what it did with all that came in; and what it returns
      was answered by the latest turn of its task, on exactly its input. */
  method ExecuteClaudeJob(parse: string -> Option<seq<string>>, script: seq<Move>, input: Input)
    returns (r: Result<Execution>, trace: seq<Event>)
    ensures Legal(trace)
    ensures r.Ok? ==> exists i :: 0 <= i < |trace| && trace[i] == Sealed(r.value.text, r.value.kept, r.value.input)
                                  && SealedWell(trace, i)
  {
    var job := new ClaudeJob(parse, script, input);
    r := job.Run();
    ghost var ran := job.trace;
    var _ := job.CloseProcess();
    trace := job.trace;
    FollowedIsLegal(trace, job.view);
    if r.Ok? {
      ghost var i :| 0 <= i < |ran| && ran[i] == Sealed(r.value.text, r.value.kept, r.value.input);
      assert trace[i] == ran[i];
      SealsWell(trace, i);
    }
  }

  /** What a seal of a legal trace says, gathered from the theorems about traces. */
  ghost predicate SealedWell(trace: seq<Event>, i: nat)
    requires i < |trace| && trace[i].Sealed?
  {
    && (exists w: nat, t: nat :: TurnTrace.Latest(trace, i, w, t, trace[i].kept, trace[i].input))
    && (exists other: Input ::
          other.revision == trace[i].input.revision && WasAnswer(trace, i, trace[i].text, other))
    && (RevisionsNameInputs(trace) ==> WasAnswer(trace, i, trace[i].text, trace[i].input))
  }

  lemma SealsWell(trace: seq<Event>, i: nat)
    requires Legal(trace) && i < |trace| && trace[i].Sealed?
    ensures SealedWell(trace, i)
  {
    SealedTextAnsweredSealedInput(trace, i);
    if RevisionsNameInputs(trace) { SealedTextAnsweredExactly(trace, i); }
  }
}
