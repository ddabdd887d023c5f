/** The records of an advisor round: what the slots of a terminal journal may
    say, and how a saved slot is written into one. */
module AdvisorJournal {

  import opened Optional
  import opened WhiteSpace

  /** A SHA-256 digest, taken as injective, or a string that is none. */
  datatype Hex = Sha(of: string) | Malformed

  predicate IsSha(h: Option<Hex>) {
    h.Some? && h.value.Sha?
  }

  datatype Phase = Investigation | Design | Review

  datatype Perspective = Solution | Risk

  function PerspectiveFor(phase: Phase): Perspective {
    if phase == Review then Risk else Solution
  }

  datatype Execution = UnavailableBeforeStart | StartUnconfirmed | StartedNoResponse | ResponseObtained | Unknown

  datatype Containment = BoundedResidual | OwnedProcessLive | OtherContainment

  datatype Cleanup =
    | ClosedAndVerified
    | ProvisionalClosed
    | ProvisionalNotCreated
    | UnverifiedAfterRetirement
    | OtherCleanup

  // -------------------------------------------------------------------- Grok

  datatype GrokAttempt = GrokAttempt(
    attempted: bool, adopted: bool, perspective: Perspective, containmentVerified: Option<bool>,
    containmentStatus: Option<Containment>, executionState: Option<Execution>, processId: Option<int>,
    responseDigest: Option<Hex>, reasonDigest: Option<Hex>)

  predicate Started(a: GrokAttempt) {
    a.containmentVerified == Some(true) && (a.adopted || a.executionState == Some(StartedNoResponse))
  }

  predicate Positive(id: Option<int>) {
    id.Some? && id.value > 0
  }

  predicate NotStarted(state: Option<Execution>) {
    state == Some(UnavailableBeforeStart) || state == Some(StartUnconfirmed)
  }

  /** One Grok slot on its own: an answer of a contained process, a contained
      failure, or a bounded residual that never started. */
  predicate GrokSlotOk(a: GrokAttempt) {
    && a.attempted
    && if a.containmentVerified != Some(true) then
         && a.containmentVerified == Some(false) && !a.adopted && a.containmentStatus == Some(BoundedResidual)
         && IsSha(a.reasonDigest) && a.processId.None? && a.responseDigest.None? && NotStarted(a.executionState)
       else if a.adopted then
         && Positive(a.processId) && IsSha(a.responseDigest) && a.reasonDigest.None?
         && (a.executionState.None? || a.executionState == Some(ResponseObtained))
       else if a.executionState == Some(StartedNoResponse) then
         Positive(a.processId) && IsSha(a.reasonDigest) && a.responseDigest.None?
       else
         && IsSha(a.reasonDigest) && a.processId.None? && a.responseDigest.None?
         && (a.executionState.None? || NotStarted(a.executionState))
  }

  ghost predicate NoRepeats<T>(s: seq<T>) {
    forall i, j :: 0 <= i < j < |s| ==> s[i] != s[j]
  }

  function Elements<T(==)>(s: seq<T>): (r: set<T>) {
    if s == [] then {} else Elements(s[..|s| - 1]) + {s[|s| - 1]}
  }

  lemma {:induction false} ElementsAre<T>(s: seq<T>, x: T)
    ensures x in Elements(s) <==> x in s
  {
    if s != [] {
      ElementsAre(s[..|s| - 1], x);
      assert s == s[..|s| - 1] + [s[|s| - 1]];
    }
  }

  lemma LastIsNew<T>(s: seq<T>)
    requires s != [] && NoRepeats(s[..|s| - 1])
    ensures NoRepeats(s) <==> s[|s| - 1] !in s[..|s| - 1]
  {
    var last := |s| - 1;
    assert forall i :: 0 <= i < last ==> s[..last][i] == s[i];
  }

  lemma RepeatsStay<T>(s: seq<T>)
    requires s != [] && NoRepeats(s)
    ensures NoRepeats(s[..|s| - 1])
  {
  }

  /** A list has as many different elements as elements exactly when none is
      repeated. */
  lemma {:induction false} CountsIffNoRepeats<T>(s: seq<T>)
    ensures |Elements(s)| <= |s| && (|Elements(s)| == |s| <==> NoRepeats(s))
  {
    if s != [] {
      var last := |s| - 1;
      CountsIffNoRepeats(s[..last]);
      ElementsAre(s[..last], s[last]);
      if NoRepeats(s[..last]) {
        LastIsNew(s);
      } else if NoRepeats(s) {
        RepeatsStay(s);
      }
    }
  }

  function PerspectivesOf(attempts: seq<GrokAttempt>): (r: seq<Perspective>)
    ensures |r| == |attempts| && forall i :: 0 <= i < |r| ==> r[i] == attempts[i].perspective
  {
    seq(|attempts|, i requires 0 <= i < |attempts| => attempts[i].perspective)
  }

  /** The processes of the slots that started one. */
  function StartedIds(attempts: seq<GrokAttempt>): seq<Option<int>> {
    if attempts == [] then []
    else
      var last := attempts[|attempts| - 1];
      StartedIds(attempts[..|attempts| - 1]) + if Started(last) then [last.processId] else []
  }

  lemma StartedNext(attempts: seq<GrokAttempt>, i: nat)
    requires i < |attempts|
    ensures StartedIds(attempts[..i + 1])
      == if Started(attempts[i]) then StartedIds(attempts[..i]) + [attempts[i].processId] else StartedIds(attempts[..i])
  {
    assert attempts[..i + 1][..i] == attempts[..i];
    var ids := StartedIds(attempts[..i]);
    assert ids + [] == ids;
  }

  lemma ElementsOfMore<T>(s: seq<T>, x: T)
    ensures Elements(s + [x]) == Elements(s) + {x}
  {
    assert (s + [x])[..|s|] == s;
  }

  /** Every expected perspective once, every slot sound, and no two started slots
      on one process. */
  ghost predicate GrokOk(attempts: seq<GrokAttempt>, expected: seq<Perspective>) {
    && |attempts| == |expected| && NoRepeats(PerspectivesOf(attempts))
    && (forall i :: 0 <= i < |expected| ==> expected[i] in PerspectivesOf(attempts))
    && (forall i :: 0 <= i < |attempts| ==> GrokSlotOk(attempts[i]))
    && NoRepeats(StartedIds(attempts))
  }

  method ValidTerminalGrokAttemptsFor(attempts: seq<GrokAttempt>, expected: seq<Perspective>) returns (ok: bool)
    ensures ok <==> GrokOk(attempts, expected)
  {
    if |attempts| != |expected| { return false; }
    var perspectives := Elements(PerspectivesOf(attempts));
    CountsIffNoRepeats(PerspectivesOf(attempts));
    if |perspectives| != |expected| { return false; }
    for i := 0 to |expected|
      invariant forall k :: 0 <= k < i ==> expected[k] in PerspectivesOf(attempts)
    {
      ElementsAre(PerspectivesOf(attempts), expected[i]);
      if expected[i] !in perspectives { return false; }
    }
    ok := DistinctProcesses(attempts);
  }

  /** The loop over the slots: each must be sound, and the started ones must be
      as many as their processes. */
  method DistinctProcesses(attempts: seq<GrokAttempt>) returns (ok: bool)
    ensures ok <==> (forall i :: 0 <= i < |attempts| ==> GrokSlotOk(attempts[i])) && NoRepeats(StartedIds(attempts))
  {
    var startedProcessIds, startedCount := {}, 0;
    for i := 0 to |attempts|
      invariant forall k :: 0 <= k < i ==> GrokSlotOk(attempts[k])
      invariant startedProcessIds == Elements(StartedIds(attempts[..i])) && startedCount == |StartedIds(attempts[..i])|
    {
      var a := attempts[i];
      if !GrokSlotOk(a) { return false; }
      StartedNext(attempts, i);
      if Started(a) {
        ElementsOfMore(StartedIds(attempts[..i]), a.processId);
        startedCount := startedCount + 1;
        startedProcessIds := startedProcessIds + {a.processId};
      }
    }
    assert attempts[..|attempts|] == attempts;
    CountsIffNoRepeats(StartedIds(attempts));
    return |startedProcessIds| == startedCount;
  }

  // ------------------------------------------------------------------ Claude

  datatype ClaudeAttempt = ClaudeAttempt(
    attempted: bool, required: bool, ephemeral: bool, adopted: bool, workspaceCreationAttempted: bool,
    freshEphemeral: bool, cleanupVerified: bool, promptMayHaveBeenDelivered: bool, containmentVerified: bool,
    containmentStatus: Option<Containment>, cleanupStatus: Option<Cleanup>, cleanupReceiptDigest: Option<Hex>,
    executionState: Option<Execution>, responseDigest: Option<Hex>, reasonDigest: Option<Hex>)

  function PossibleStates(prompt: bool, workspace: bool): set<Execution> {
    if prompt then {StartUnconfirmed, StartedNoResponse}
    else if workspace then {StartUnconfirmed}
    else {UnavailableBeforeStart}
  }

  predicate StateFits(a: ClaudeAttempt) {
    a.executionState.Some? ==>
      a.executionState.value in PossibleStates(a.promptMayHaveBeenDelivered, a.workspaceCreationAttempted)
  }

  predicate Closed(status: Option<Cleanup>) {
    status == Some(ClosedAndVerified) || status == Some(ProvisionalClosed)
  }

  /** A Claude slot is terminal with a verified answer, before any workspace
      existed, after its exact cleanup, or as a bounded residual. */
  predicate ClaudeOk(a: ClaudeAttempt) {
    && a.attempted && a.required && a.ephemeral
    && if a.adopted then
         && a.workspaceCreationAttempted && a.freshEphemeral && a.promptMayHaveBeenDelivered && a.cleanupVerified
         && a.cleanupStatus == Some(ClosedAndVerified) && IsSha(a.responseDigest) && IsSha(a.cleanupReceiptDigest)
         && (a.executionState.None? || a.executionState == Some(ResponseObtained)) && a.reasonDigest.None?
       else
         && IsSha(a.reasonDigest) && a.responseDigest.None? && a.executionState != Some(Unknown) && StateFits(a)
         && a.containmentStatus != Some(OwnedProcessLive)
         && if !a.containmentVerified then
              if a.cleanupStatus == Some(UnverifiedAfterRetirement) then
                !a.cleanupVerified && a.cleanupReceiptDigest.None?
              else
                && a.containmentStatus == Some(BoundedResidual)
                && if a.cleanupVerified then
                     && IsSha(a.cleanupReceiptDigest)
                     && (Closed(a.cleanupStatus) || a.cleanupStatus == Some(ProvisionalNotCreated))
                   else a.cleanupReceiptDigest.None?
            else if a.workspaceCreationAttempted then
              && a.cleanupVerified && IsSha(a.cleanupReceiptDigest)
              && (if a.freshEphemeral then Closed(a.cleanupStatus) else a.cleanupStatus == Some(ProvisionalNotCreated))
            else
              && !a.freshEphemeral && !a.promptMayHaveBeenDelivered && !a.cleanupVerified
              && a.cleanupStatus.None? && a.cleanupReceiptDigest.None?
  }

  // ------------------------------------------------------------- saved slots

  datatype Advisor = Grok | Claude

  datatype SlotFailure = SlotFailure(advisor: Advisor, knownCause: bool)

  /** What a slot's cache holds besides the attempt itself. */
  datatype Saved<A> = Saved(attempt: A, response: Option<string>, reason: Option<string>, failure: Option<SlotFailure>)

  predicate Said(s: Option<string>) {
    s.Some? && !Blank(s.value)
  }

  function Text(s: Option<string>): string {
    if s.Some? then s.value else "undefined"
  }

  /** A saved slot as it stands in a journal: an answer by its digest, a failure
      by the digest of its reason. */
  function GrokJournal(s: Saved<GrokAttempt>): GrokAttempt {
    var a := s.attempt;
    if a.adopted then a.(responseDigest := Some(Sha(Text(s.response))), reasonDigest := None)
    else a.(responseDigest := None,
            reasonDigest := if Said(s.reason) then Some(Sha(s.reason.value)) else a.reasonDigest)
  }

  function ClaudeJournal(s: Saved<ClaudeAttempt>): ClaudeAttempt {
    var a := s.attempt;
    if a.adopted then a.(responseDigest := Some(Sha(Text(s.response))), reasonDigest := None)
    else a.(responseDigest := None,
            reasonDigest := if Said(s.reason) then Some(Sha(s.reason.value)) else a.reasonDigest)
  }

  predicate Usable(adopted: bool, contained: bool, response: Option<string>, reason: Option<string>,
      reasonDigest: Option<Hex>, failure: Option<SlotFailure>, advisor: Advisor)
  {
    && contained && (adopted ==> Said(response))
    && (!adopted ==>
          && failure.Some? && failure.value.advisor == advisor && failure.value.knownCause
          && (Said(reason) || IsSha(reasonDigest)))
  }

  predicate UsableGrok(s: Saved<GrokAttempt>) {
    Usable(s.attempt.adopted, s.attempt.containmentVerified == Some(true), s.response, s.reason, s.attempt.reasonDigest,
           s.failure, Grok)
  }

  predicate UsableClaude(s: Saved<ClaudeAttempt>) {
    Usable(s.attempt.adopted, s.attempt.containmentVerified, s.response, s.reason, s.attempt.reasonDigest, s.failure,
           Claude)
  }
}
