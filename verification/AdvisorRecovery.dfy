/** Recovery of an advisor round whose executor was retired: the terminal journal
    is written from what the round left behind, its claim is released, and the
    retirement receipt records the journal that closed it. */
module AdvisorRecovery {

  import opened Optional
  import opened WhiteSpace
  import opened AdvisorJournal

  datatype Version = Eight | Nine

  datatype Status = Requested | ReviewersCompleted | RequiredReviewerFailed | StaleInput | OtherStatus

  /** `binding` stands for the job, attempt, input, phase and round of a journal
      with the digest of its evidence, and `carried` says that what the finalizer
      copies unchanged (identifiers, native slots, the first repository digest,
      the start time) is what a reader of terminal journals accepts. */
  datatype Journal = Journal(
    version: Version, phase: Phase, status: Status, binding: string, processNonce: string, contextDigest: string,
    carried: bool, startedAt: int,
    repositoryDigest: string, repositoryDigestAfter: Option<string>, inputUnchanged: Option<bool>,
    recoveredAfterInterruption: bool, recoveryId: Option<string>, finishedAt: Option<int>,
    grok: Option<seq<GrokAttempt>>, claude: Option<ClaudeAttempt>)

  datatype Slots = Slots(
    contextDigest: string, binding: string, grok: Option<seq<Saved<GrokAttempt>>>, claude: Option<Saved<ClaudeAttempt>>)

  /** The receipt of a verified cleanup of the round's Claude. */
  datatype Outcome = Outcome(
    workspaceCreationAttempted: bool, freshEphemeral: bool, cleanupVerified: bool, cleanupStatus: Option<Cleanup>,
    cleanupReceiptDigest: Option<Hex>, promptMayHaveBeenDelivered: bool)

  function ExpectedPerspectives(j: Journal): seq<Perspective> {
    if j.version == Nine then [PerspectiveFor(j.phase)] else [Solution, Risk]
  }

  // --------------------------------------------------------- the Claude slot

  const ENDED := "ephemeral Claude round ended with its retired Codex generation"

  /** `residual` says whether a request directory without a cleanup outcome was
      left, and whether a send receipt is in it. */
  function RecoveredClaude(outcome: Option<Outcome>, residual: Option<bool>): ClaudeAttempt {
    var reason := Some(Sha(ENDED));
    match outcome
    case None =>
      if residual.Some? then
        ClaudeAttempt(true, true, true, false, true, residual.value, false, residual.value, false, None,
                      Some(UnverifiedAfterRetirement), None, Some(StartUnconfirmed), None, reason)
      else
        ClaudeAttempt(true, true, true, false, false, false, false, false, true, None, None, None,
                      Some(UnavailableBeforeStart), None, reason)
    case Some(o) =>
      ClaudeAttempt(true, true, true, false, o.workspaceCreationAttempted, o.freshEphemeral, o.cleanupVerified,
                    o.promptMayHaveBeenDelivered, !o.workspaceCreationAttempted || o.cleanupVerified, None,
                    o.cleanupStatus, o.cleanupReceiptDigest,
                    Some(if o.workspaceCreationAttempted || o.freshEphemeral then StartUnconfirmed
                         else UnavailableBeforeStart),
                    None, reason)
  }

  /** An outcome that says no more than its workspace allows: nothing at all
      without one; with one, either no verified cleanup at all or a cleanup
      receipt with the status of the workspace it closed. */
  predicate Publishable(o: Outcome) {
    if !o.workspaceCreationAttempted then
      && !o.freshEphemeral && !o.promptMayHaveBeenDelivered && !o.cleanupVerified
      && o.cleanupStatus.None? && o.cleanupReceiptDigest.None?
    else if !o.cleanupVerified then
      o.cleanupStatus == Some(UnverifiedAfterRetirement) && o.cleanupReceiptDigest.None?
    else
      && IsSha(o.cleanupReceiptDigest)
      && (if o.freshEphemeral then Closed(o.cleanupStatus) else o.cleanupStatus == Some(ProvisionalNotCreated))
  }

  /** What the finalizer makes of a cleanup outcome passes the reader's check
      exactly when the outcome is publishable; without one it always does. */
  lemma RecoveredClaudeIsReadable(outcome: Option<Outcome>, residual: Option<bool>)
    ensures ClaudeOk(RecoveredClaude(outcome, residual)) <==> outcome.None? || Publishable(outcome.value)
  {
    if outcome.Some? {
      var o, a := outcome.value, RecoveredClaude(outcome, residual);
      assert StateFits(a) <==>
        (o.promptMayHaveBeenDelivered ==> o.workspaceCreationAttempted || o.freshEphemeral)
        && (!o.promptMayHaveBeenDelivered && o.freshEphemeral ==> o.workspaceCreationAttempted);
    }
  }

  predicate SameClaudeAttempt(slot: ClaudeAttempt, current: ClaudeAttempt) {
    || slot.adopted || !current.workspaceCreationAttempted
    || (current.cleanupVerified && current.containmentVerified
        && current.cleanupReceiptDigest == slot.cleanupReceiptDigest
        && current.promptMayHaveBeenDelivered == slot.promptMayHaveBeenDelivered)
  }

  predicate Bound(slots: Slots, j: Journal) {
    slots.contextDigest == j.contextDigest && slots.binding == j.binding
  }

  /** A cached Claude slot that the finalizer takes over. */
  predicate TakesCached(s: Saved<ClaudeAttempt>, current: ClaudeAttempt) {
    SameClaudeAttempt(s.attempt, current) && UsableClaude(s) && ClaudeOk(ClaudeJournal(s))
  }

  /** A failed Claude slot that the requested journal retained from before. */
  predicate TakesRetained(a: ClaudeAttempt, current: ClaudeAttempt) {
    !a.adopted && ClaudeOk(a) && SameClaudeAttempt(a, current)
  }

  predicate HasCached(slots: Option<Slots>, j: Journal, current: ClaudeAttempt) {
    && slots.Some? && Bound(slots.value, j) && slots.value.claude.Some?
    && TakesCached(slots.value.claude.value, current)
  }

  predicate HasRetained(j: Journal, current: ClaudeAttempt) {
    j.claude.Some? && TakesRetained(j.claude.value, current)
  }

  function FinalClaude(slots: Option<Slots>, j: Journal, current: ClaudeAttempt): ClaudeAttempt {
    if HasCached(slots, j, current) then ClaudeJournal(slots.value.claude.value)
    else if HasRetained(j, current) then j.claude.value
    else current
  }

  // ----------------------------------------------------------- the Grok slots

  predicate SoundAlone(s: Saved<GrokAttempt>, phase: Phase) {
    var a := GrokJournal(s);
    a.perspective == PerspectiveFor(phase) && GrokSlotOk(a)
  }

  lemma SoundAloneIsValid(s: Saved<GrokAttempt>, phase: Phase)
    ensures SoundAlone(s, phase) <==> GrokOk([GrokJournal(s)], [PerspectiveFor(phase)])
  {
    var attempts := [GrokJournal(s)];
    AtMostOneStarted(GrokJournal(s));
    assert PerspectivesOf(attempts)[0] == GrokJournal(s).perspective;
    assert [PerspectiveFor(phase)][0] == PerspectiveFor(phase);
    if SoundAlone(s, phase) { assert attempts[0] == GrokJournal(s); }
  }

  lemma AtMostOneStarted(a: GrokAttempt)
    ensures StartedIds([a]) == if Started(a) then [a.processId] else []
  {
    assert [a][..0] == [];
  }

  function SavedGrok(slots: Option<Slots>, j: Journal): Option<Saved<GrokAttempt>> {
    if slots.None? || !Bound(slots.value, j) || slots.value.grok.None? || |slots.value.grok.value| != 1 then None
    else
      var s := slots.value.grok.value[0];
      if UsableGrok(s) && SoundAlone(s, j.phase) then Some(s) else None
  }

  predicate Retainable(a: GrokAttempt, p: Perspective) {
    a.perspective == p && a.adopted && a.containmentVerified == Some(true) && IsSha(a.responseDigest)
  }

  function FirstRetained(attempts: seq<GrokAttempt>, p: Perspective): (r: Option<GrokAttempt>)
    ensures r.Some? ==> r.value in attempts && Retainable(r.value, p)
    ensures r.None? ==> forall a :: a in attempts ==> !Retainable(a, p)
  {
    if attempts == [] then None
    else if Retainable(attempts[0], p) then Some(attempts[0])
    else FirstRetained(attempts[1..], p)
  }

  const INTERJECTED := "reviewer process ended at a verified interjection generation boundary"

  /** A slot nothing was saved of. */
  function LostGrok(p: Perspective): GrokAttempt {
    GrokAttempt(true, false, p, Some(true), None, Some(StartUnconfirmed), None, None,
                Some(Sha(INTERJECTED)))
  }

  function FinalGrokAt(saved: Option<Saved<GrokAttempt>>, j: Journal, p: Perspective): GrokAttempt {
    if saved.Some? && saved.value.attempt.perspective == p then GrokJournal(saved.value)
    else
      var retained := if j.grok.Some? then FirstRetained(j.grok.value, p) else None;
      if retained.Some? then retained.value else LostGrok(p)
  }

  function FinalGrok(slots: Option<Slots>, j: Journal): seq<GrokAttempt> {
    var saved := SavedGrok(slots, j);
    if j.version == Nine then [FinalGrokAt(saved, j, PerspectiveFor(j.phase))]
    else [FinalGrokAt(saved, j, Solution), FinalGrokAt(saved, j, Risk)]
  }

  /** A requested journal carries slots of an earlier terminal journal or none. */
  ghost predicate ValidRequested(j: Journal) {
    j.status == Requested && (j.grok.Some? ==> GrokOk(j.grok.value, ExpectedPerspectives(j)))
  }

  lemma FinalGrokAtIsSound(saved: Option<Saved<GrokAttempt>>, j: Journal, p: Perspective)
    requires saved.Some? ==> SoundAlone(saved.value, j.phase)
    requires j.grok.Some? ==> forall a :: a in j.grok.value ==> GrokSlotOk(a)
    ensures var a := FinalGrokAt(saved, j, p); a.perspective == p && GrokSlotOk(a)
  {
  }

  lemma SavedGrokIsSound(slots: Option<Slots>, j: Journal)
    ensures var saved := SavedGrok(slots, j); saved.Some? ==> SoundAlone(saved.value, j.phase)
  {
  }

  lemma OneSlot(a: GrokAttempt, p: Perspective)
    requires a.perspective == p && GrokSlotOk(a)
    ensures GrokOk([a], [p])
  {
    AtMostOneStarted(a);
    assert PerspectivesOf([a])[0] == p;
  }

  predicate SameProcess(a: GrokAttempt, b: GrokAttempt) {
    Started(a) && Started(b) && a.processId == b.processId
  }

  lemma TwoSlots(a: GrokAttempt, b: GrokAttempt)
    requires a.perspective == Solution && b.perspective == Risk && GrokSlotOk(a) && GrokSlotOk(b)
    ensures GrokOk([a, b], [Solution, Risk]) <==> !SameProcess(a, b)
  {
    var attempts := [a, b];
    AtMostOneStarted(a);
    assert attempts[..1] == [a];
    assert PerspectivesOf(attempts) == [Solution, Risk];
    var ids := StartedIds(attempts);
    assert ids == StartedIds([a]) + if Started(b) then [b.processId] else [];
    assert Started(a) && Started(b) ==> ids == [a.processId, b.processId];
    assert !(Started(a) && Started(b)) ==> |ids| <= 1;
    assert attempts[0] == a && attempts[1] == b;
    assert Solution in PerspectivesOf(attempts) && Risk in PerspectivesOf(attempts) by {
      assert PerspectivesOf(attempts)[0] == Solution && PerspectivesOf(attempts)[1] == Risk;
    }
    if !SameProcess(a, b) { assert NoRepeats(ids); } else { assert ids[0] == ids[1]; }
  }

  /** A cached slot, the only one of its cache, that the finalizer takes over. */
  ghost predicate CachedGrok(slots: Option<Slots>, j: Journal, s: Saved<GrokAttempt>) {
    && slots.Some? && Bound(slots.value, j) && slots.value.grok == Some([s])
    && UsableGrok(s) && GrokOk([GrokJournal(s)], [PerspectiveFor(j.phase)])
  }

  /** The cached slot names the process of an answer that the requested journal
      retained for the other perspective. */
  ghost predicate ProcessShared(slots: Option<Slots>, j: Journal) {
    exists s: Saved<GrokAttempt>, a: GrokAttempt :: Shares(slots, j, s, a)
  }

  ghost predicate Shares(slots: Option<Slots>, j: Journal, s: Saved<GrokAttempt>, a: GrokAttempt) {
    && CachedGrok(slots, j, s) && Started(s.attempt)
    && j.grok.Some? && a in j.grok.value && a.perspective != s.attempt.perspective
    && Retainable(a, a.perspective) && a.processId == s.attempt.processId
  }

  lemma SavedGrokIsCached(slots: Option<Slots>, j: Journal, s: Saved<GrokAttempt>)
    ensures SavedGrok(slots, j) == Some(s) <==> CachedGrok(slots, j, s)
  {
    SoundAloneIsValid(s, j.phase);
    if slots.Some? && slots.value.grok.Some? && |slots.value.grok.value| == 1 {
      assert slots.value.grok.value == [slots.value.grok.value[0]];
    }
  }

  /** Two slots of a valid journal are of different processes. */
  lemma RetainedDiffer(attempts: seq<GrokAttempt>, expected: seq<Perspective>, a: GrokAttempt, b: GrokAttempt)
    requires GrokOk(attempts, expected) && a in attempts && b in attempts && a.perspective != b.perspective
    ensures !SameProcess(a, b)
  {
    if SameProcess(a, b) {
      var i :| 0 <= i < |attempts| && attempts[i] == a;
      var k :| 0 <= k < |attempts| && attempts[k] == b;
      StartedDiffer(attempts, if i < k then i else k, if i < k then k else i);
    }
  }

  lemma {:induction false} StartedDiffer(attempts: seq<GrokAttempt>, i: nat, k: nat)
    requires i < k < |attempts| && Started(attempts[i]) && Started(attempts[k]) && NoRepeats(StartedIds(attempts))
    ensures attempts[i].processId != attempts[k].processId
    decreases |attempts|
  {
    var last := |attempts| - 1;
    var ids, rest := StartedIds(attempts), StartedIds(attempts[..last]);
    assert rest <= ids;
    if k < last {
      assert NoRepeats(rest);
      StartedDiffer(attempts[..last], i, k);
    } else {
      StartedIsListed(attempts[..last], i);
      assert ids == rest + [attempts[k].processId] && ids[|rest|] == attempts[k].processId;
      var n :| 0 <= n < |rest| && rest[n] == attempts[i].processId;
      assert ids[n] == attempts[i].processId;
    }
  }

  lemma {:induction false} StartedIsListed(attempts: seq<GrokAttempt>, i: nat)
    requires i < |attempts| && Started(attempts[i])
    ensures attempts[i].processId in StartedIds(attempts)
    decreases |attempts|
  {
    var last := |attempts| - 1;
    if i < last { StartedIsListed(attempts[..last], i); }
  }

  /** A started slot that is written comes from the cache or was retained. */
  lemma StartedComesFrom(saved: Option<Saved<GrokAttempt>>, j: Journal, p: Perspective)
    ensures var a := FinalGrokAt(saved, j, p);
      Started(a) ==>
        if saved.Some? && saved.value.attempt.perspective == p then a == GrokJournal(saved.value)
        else j.grok.Some? && a in j.grok.value && Retainable(a, p)
  {
    LostIsNotStarted(p);
    if !(saved.Some? && saved.value.attempt.perspective == p) {
      var retained := if j.grok.Some? then FirstRetained(j.grok.value, p) else None;
      assert FinalGrokAt(saved, j, p) == if retained.Some? then retained.value else LostGrok(p);
    }
  }

  lemma LostIsNotStarted(p: Perspective)
    ensures !Started(LostGrok(p))
  {
  }

  lemma OneIsCached(slots: Option<Slots>, j: Journal, p: Perspective, q: Perspective)
    requires j.grok.Some? ==> GrokOk(j.grok.value, ExpectedPerspectives(j))
    requires p != q && SavedGrok(slots, j).Some? && SavedGrok(slots, j).value.attempt.perspective == p
    requires SameProcess(FinalGrokAt(SavedGrok(slots, j), j, p), FinalGrokAt(SavedGrok(slots, j), j, q))
    ensures ProcessShared(slots, j)
  {
    var saved := SavedGrok(slots, j);
    StartedComesFrom(saved, j, p);
    StartedComesFrom(saved, j, q);
    SavedGrokIsCached(slots, j, saved.value);
    assert Shares(slots, j, saved.value, FinalGrokAt(saved, j, q));
  }

  /** Of a valid requested journal, the two slots of a version 8 journal name one
      process only when the cached slot and a retained answer do. */
  lemma SharedOnlyByCache(slots: Option<Slots>, j: Journal)
    requires ValidRequested(j)
    requires SameProcess(FinalGrokAt(SavedGrok(slots, j), j, Solution), FinalGrokAt(SavedGrok(slots, j), j, Risk))
    ensures ProcessShared(slots, j)
  {
    var saved := SavedGrok(slots, j);
    if saved.Some? {
      var p := saved.value.attempt.perspective;
      OneIsCached(slots, j, p, if p == Solution then Risk else Solution);
    } else {
      StartedComesFrom(saved, j, Solution);
      StartedComesFrom(saved, j, Risk);
      RetainedDiffer(j.grok.value, ExpectedPerspectives(j), FinalGrokAt(saved, j, Solution),
                     FinalGrokAt(saved, j, Risk));
    }
  }

  lemma CacheShares(slots: Option<Slots>, j: Journal)
    requires ValidRequested(j) && ProcessShared(slots, j)
    ensures SameProcess(FinalGrokAt(SavedGrok(slots, j), j, Solution), FinalGrokAt(SavedGrok(slots, j), j, Risk))
  {
    var s: Saved<GrokAttempt>, a: GrokAttempt :| Shares(slots, j, s, a);
    SavedGrokIsCached(slots, j, s);
    OnePerPerspective(j.grok.value, ExpectedPerspectives(j), a);
    assert FinalGrokAt(Some(s), j, a.perspective) == a;
    assert FinalGrokAt(Some(s), j, s.attempt.perspective) == GrokJournal(s);
  }

  lemma OnePerPerspective(attempts: seq<GrokAttempt>, expected: seq<Perspective>, a: GrokAttempt)
    requires GrokOk(attempts, expected) && a in attempts && Retainable(a, a.perspective)
    ensures FirstRetained(attempts, a.perspective) == Some(a)
  {
    var r := FirstRetained(attempts, a.perspective);
    var i :| 0 <= i < |attempts| && attempts[i] == a;
    var k :| 0 <= k < |attempts| && attempts[k] == r.value;
    assert PerspectivesOf(attempts)[i] == PerspectivesOf(attempts)[k];
  }

  /** The Grok slots written from a valid requested journal are ones the reader
      accepts, except in a version 8 journal whose cached slot names the process
      of an answer retained for the other perspective. */
  lemma WrittenGrokIsReadable(slots: Option<Slots>, j: Journal)
    requires ValidRequested(j)
    ensures GrokOk(FinalGrok(slots, j), ExpectedPerspectives(j)) <==> j.version == Nine || !ProcessShared(slots, j)
  {
    SavedGrokIsSound(slots, j);
    if j.grok.Some? {
      assert forall i :: 0 <= i < |j.grok.value| ==> GrokSlotOk(j.grok.value[i]);
    }
    FinalGrokAtIsSound(SavedGrok(slots, j), j, PerspectiveFor(j.phase));
    FinalGrokAtIsSound(SavedGrok(slots, j), j, Solution);
    FinalGrokAtIsSound(SavedGrok(slots, j), j, Risk);
    var g := FinalGrok(slots, j);
    if j.version == Nine {
      OneSlot(g[0], PerspectiveFor(j.phase));
    } else {
      TwoSlots(g[0], g[1]);
      if SameProcess(g[0], g[1]) {
        SharedOnlyByCache(slots, j);
      } else if ProcessShared(slots, j) {
        CacheShares(slots, j);
      }
    }
  }

  /** An answer of process `id`, of one Grok perspective. */
  function GrokAnswer(p: Perspective, id: int): GrokAttempt {
    GrokAttempt(true, true, p, Some(true), None, Some(ResponseObtained), Some(id), Some(Sha("answer")), None)
  }

  /** Such a journal exists: answers of processes 5 and 6 retained, and a cached
      answer of the first perspective from process 6. */
  lemma SharedProcessIsUnreadable(j: Journal, slots: Slots)
    requires j.version == Eight && j.phase == Investigation && j.status == Requested
    requires j.grok == Some([GrokAnswer(Solution, 5), GrokAnswer(Risk, 6)])
    requires Bound(slots, j) && slots.grok == Some([Saved(GrokAnswer(Solution, 6), Some("x"), None, None)])
    ensures ValidRequested(j) && !GrokOk(FinalGrok(Some(slots), j), ExpectedPerspectives(j))
  {
    TwoSlots(GrokAnswer(Solution, 5), GrokAnswer(Risk, 6));
    var s := Saved(GrokAnswer(Solution, 6), Some("x"), None, None);
    assert !Blank("x") by { assert "x"[0] == 'x'; }
    SoundAloneIsValid(s, j.phase);
    assert j.grok.value[1] == GrokAnswer(Risk, 6);
    assert Shares(Some(slots), j, s, GrokAnswer(Risk, 6));
    WrittenGrokIsReadable(Some(slots), j);
  }

  /** The Claude slot written is one the reader accepts exactly when it is a cached
      or a retained slot, or there is no cleanup outcome, or the outcome is
      publishable. */
  lemma WrittenClaudeIsReadable(slots: Option<Slots>, j: Journal, outcome: Option<Outcome>, residual: Option<bool>)
    ensures var current := RecoveredClaude(outcome, residual);
      ClaudeOk(FinalClaude(slots, j, current)) <==>
      HasCached(slots, j, current) || HasRetained(j, current) || outcome.None? || Publishable(outcome.value)
  {
    RecoveredClaudeIsReadable(outcome, residual);
  }

  /** An outcome the finalizer accepts and the reader does not: the workspace was
      seen and yet its cleanup says that it was never created. */
  lemma UnpublishableIsUnreadable(j: Journal)
    requires j.claude.None?
    ensures var o := Outcome(true, true, true, Some(ProvisionalNotCreated), Some(Sha("receipt")), false);
      !Publishable(o) && !ClaudeOk(FinalClaude(None, j, RecoveredClaude(Some(o), None)))
  {
    var o := Outcome(true, true, true, Some(ProvisionalNotCreated), Some(Sha("receipt")), false);
    WrittenClaudeIsReadable(None, j, Some(o), None);
  }

  // ------------------------------------------------------- answers that survive

  /** What makes a Claude answer one the reader accepts: a fresh workspace that
      was prompted, and closed and verified under a receipt. */
  predicate ClosedAnswer(a: ClaudeAttempt) {
    && a.attempted && a.required && a.ephemeral && a.workspaceCreationAttempted && a.freshEphemeral
    && a.promptMayHaveBeenDelivered && a.cleanupVerified && a.cleanupStatus == Some(ClosedAndVerified)
    && IsSha(a.cleanupReceiptDigest) && (a.executionState.None? || a.executionState == Some(ResponseObtained))
  }

  /** A Claude answer cached for this round stands in the journal, under the digest
      of its own text, exactly when it is contained, says something, and its
      workspace was closed and verified. */
  lemma ClaudeAnswerSurvives(slots: Slots, j: Journal, outcome: Option<Outcome>, residual: Option<bool>,
      s: Saved<ClaudeAttempt>)
    requires Bound(slots, j) && slots.claude == Some(s) && s.attempt.adopted
    ensures var final := FinalClaude(Some(slots), j, RecoveredClaude(outcome, residual));
      && (final.adopted <==> s.attempt.containmentVerified && Said(s.response) && ClosedAnswer(s.attempt))
      && (final.adopted ==> final.responseDigest == Some(Sha(s.response.value)))
  {
    assert ClaudeOk(ClaudeJournal(s)) <==> ClosedAnswer(s.attempt);
  }

  /** So a contained answer is lost when its workspace was closed provisionally,
      which the broker does not rule out when it adopts one. */
  lemma ProvisionalAnswerIsLost(slots: Slots, j: Journal, outcome: Option<Outcome>, residual: Option<bool>)
    requires Bound(slots, j)
    requires var a := ClaudeAttempt(true, true, true, true, true, true, true, true, true, None, Some(ProvisionalClosed),
                                    Some(Sha("receipt")), Some(ResponseObtained), None, None);
      slots.claude == Some(Saved(a, Some("x"), None, None))
    ensures UsableClaude(slots.claude.value) && !FinalClaude(Some(slots), j, RecoveredClaude(outcome, residual)).adopted
  {
    assert !Blank("x") by { assert "x"[0] == 'x'; }
    ClaudeAnswerSurvives(slots, j, outcome, residual, slots.claude.value);
  }

  /** What makes a contained Grok answer one the finalizer takes over. */
  predicate KeptAnswer(a: GrokAttempt, phase: Phase) {
    && a.attempted && a.perspective == PerspectiveFor(phase) && Positive(a.processId)
    && (a.executionState.None? || a.executionState == Some(ResponseObtained))
  }

  predicate AnswerOf(a: GrokAttempt, s: Saved<GrokAttempt>) {
    a.adopted && a.perspective == s.attempt.perspective && a.responseDigest == Some(Sha(Text(s.response)))
  }

  /** The requested journal retained the same answer by itself. */
  predicate RetainedAlike(j: Journal, s: Saved<GrokAttempt>) {
    var p := s.attempt.perspective;
    && p in ExpectedPerspectives(j) && j.grok.Some? && FirstRetained(j.grok.value, p).Some?
    && AnswerOf(FirstRetained(j.grok.value, p).value, s)
  }

  /** A contained Grok answer cached for this round, alone or among others, stands
      in the journal under the digest of its own text exactly when it is the only
      slot of its cache, says something, names its process and has the
      perspective of the phase, or the journal had retained the same answer. */
  lemma GrokAnswerSurvives(slots: Slots, j: Journal, s: Saved<GrokAttempt>)
    requires Bound(slots, j) && slots.grok.Some? && s in slots.grok.value
    requires s.attempt.adopted && s.attempt.containmentVerified == Some(true)
    ensures (exists i :: 0 <= i < |FinalGrok(Some(slots), j)| && AnswerOf(FinalGrok(Some(slots), j)[i], s)) <==>
      (|slots.grok.value| == 1 && Said(s.response) && KeptAnswer(s.attempt, j.phase)) || RetainedAlike(j, s)
  {
    var final, p := FinalGrok(Some(slots), j), s.attempt.perspective;
    var saved := SavedGrok(Some(slots), j);
    var kept := |slots.grok.value| == 1 && Said(s.response) && KeptAnswer(s.attempt, j.phase);
    if |slots.grok.value| == 1 { assert slots.grok.value == [s]; }
    assert saved == if kept then Some(s) else None;
    GrokPlaces(Some(slots), j, s);
    if kept { assert PerspectiveFor(j.phase) in ExpectedPerspectives(j) by { ExpectedHasPhase(j); } }
  }

  lemma ExpectedHasPhase(j: Journal)
    ensures PerspectiveFor(j.phase) in ExpectedPerspectives(j)
  {
    var e := ExpectedPerspectives(j);
    assert if j.version == Nine then e[0] == PerspectiveFor(j.phase) else e[0] == Solution && e[1] == Risk;
  }

  lemma FinalGrokSlots(slots: Option<Slots>, j: Journal)
    ensures var final, e := FinalGrok(slots, j), ExpectedPerspectives(j);
      |final| == |e| && forall i :: 0 <= i < |e| ==> final[i] == FinalGrokAt(SavedGrok(slots, j), j, e[i])
  {
  }

  lemma RetainedIsKept(j: Journal, slots: Option<Slots>)
    ensures forall p, t: Journal :: p in ExpectedPerspectives(j) && t.grok == Some(FinalGrok(slots, j)) ==>
              KeepsRetainedAt(j, t, slots, p)
  {
    forall p, t: Journal | p in ExpectedPerspectives(j) && t.grok == Some(FinalGrok(slots, j))
      ensures KeepsRetainedAt(j, t, slots, p)
    {
      FinalGrokSlots(slots, j);
      var i :| 0 <= i < |ExpectedPerspectives(j)| && ExpectedPerspectives(j)[i] == p;
      assert FinalGrok(slots, j)[i] in t.grok.value;
      WrittenAt(slots, j, p);
    }
  }

  /** What is written at a perspective that no cached slot took. */
  lemma WrittenAt(slots: Option<Slots>, j: Journal, p: Perspective)
    ensures var a := FinalGrokAt(SavedGrok(slots, j), j, p);
      !CachedAt(j, slots, p) ==>
        if HasRetainedAt(j, p) then j.grok.Some? && a in j.grok.value && Retainable(a, p) else SaysLost(a, p)
  {
    var saved := SavedGrok(slots, j);
    if saved.Some? {
      SavedGrokIsCached(slots, j, saved.value);
      assert saved.value.attempt.perspective == p ==> CachedAt(j, slots, p);
    }
    if j.grok.Some? {
      var retained := FirstRetained(j.grok.value, p);
      assert retained.Some? ==> HasRetainedAt(j, p);
    }
  }

  lemma KeepsPlace(saved: Option<Saved<GrokAttempt>>, j: Journal, p: Perspective)
    ensures FinalGrokAt(saved, j, p).perspective == p
  {
  }

  /** An answer can stand only at its own perspective. */
  lemma GrokPlaces(slots: Option<Slots>, j: Journal, s: Saved<GrokAttempt>)
    ensures (exists i :: 0 <= i < |FinalGrok(slots, j)| && AnswerOf(FinalGrok(slots, j)[i], s)) <==>
      s.attempt.perspective in ExpectedPerspectives(j)
      && AnswerOf(FinalGrokAt(SavedGrok(slots, j), j, s.attempt.perspective), s)
  {
    var final, e, p := FinalGrok(slots, j), ExpectedPerspectives(j), s.attempt.perspective;
    FinalGrokSlots(slots, j);
    if i :| 0 <= i < |final| && AnswerOf(final[i], s) { KeepsPlace(SavedGrok(slots, j), j, e[i]); }
    if p in e {
      var i :| 0 <= i < |e| && e[i] == p;
      assert final[i] == FinalGrokAt(SavedGrok(slots, j), j, p);
    }
  }

  /** A version 8 cache of two answers loses both. */
  lemma TwoCachedAnswersAreLost(slots: Slots, j: Journal)
    requires Bound(slots, j) && j.version == Eight && j.grok.None?
    requires slots.grok == Some([Saved(GrokAnswer(Solution, 5), Some("x"), None, None),
                                 Saved(GrokAnswer(Risk, 6), Some("y"), None, None)])
    ensures forall i :: 0 <= i < 2 ==> UsableGrok(slots.grok.value[i]) && !FinalGrok(Some(slots), j)[i].adopted
  {
    assert !Blank("x") by { assert "x"[0] == 'x'; }
    assert !Blank("y") by { assert "y"[0] == 'y'; }
  }

  // ------------------------------------------------------------ the finalizer

  /** Who claimed the round, and the file that says so. */
  datatype Lock = Lock(dev: nat, ino: nat, processNonce: string, contextDigest: string, binding: string)

  /** A digest of a journal, taken as injective, is the journal itself. */
  type JournalDigest = Journal

  datatype Receipt = Receipt(
    finalized: bool, recoveryId: string, processNonce: string, contextDigest: string, journalDigest: JournalDigest,
    lock: Lock, terminalJournalDigest: Option<JournalDigest>)

  /** The three durable files, then how often the journal was rewritten and from
      which scene last, and the claims removed. */
  datatype Files = Files(
    journal: Option<Journal>, lock: Option<Lock>, receipt: Option<Receipt>, rewrites: nat, closedFrom: Option<Scene>,
    released: seq<Lock>)

  /** What the finalizer finds around the files at one attempt. */
  datatype Scene = Scene(
    inputUnchanged: bool, repositoryAfter: string, outcome: Option<Outcome>, residual: Option<bool>,
    allowResidual: bool, slots: Option<Slots>, now: int)

  datatype Verdict = Skipped | Finalized | Refused | Interrupted

  predicate Resumable(j: Journal, r: Receipt) {
    && (j.status == ReviewersCompleted || j.status == StaleInput || j.status == RequiredReviewerFailed)
    && j.recoveredAfterInterruption && j.recoveryId == Some(r.recoveryId)
  }

  predicate Untouched(j: Journal, r: Receipt) {
    && j == r.journalDigest && j.status == Requested && j.processNonce == r.processNonce
    && j.contextDigest == r.contextDigest
  }

  predicate Blocked(s: Scene) {
    s.outcome.None? && s.residual.Some? && !s.allowResidual
  }

  function Later(a: int, b: int): int {
    if a < b then b else a
  }

  function Terminal(j: Journal, recoveryId: string, s: Scene): (t: Journal) {
    var current := RecoveredClaude(s.outcome, s.residual);
    var sound := s.inputUnchanged && s.repositoryAfter == j.repositoryDigest;
    j.(status := if sound then RequiredReviewerFailed else StaleInput,
       repositoryDigestAfter := Some(s.repositoryAfter), inputUnchanged := Some(s.inputUnchanged),
       recoveredAfterInterruption := true, recoveryId := Some(recoveryId),
       finishedAt := Some(Later(s.now, j.startedAt)),
       grok := Some(FinalGrok(s.slots, j)), claude := Some(FinalClaude(s.slots, j, current)))
  }

  /** One pass over one receipt, when at most `writes` durable writes get through
      before it is interrupted. */
  function Attempt(f: Files, s: Scene, writes: nat): (Files, Verdict) {
    if f.receipt.None? || f.receipt.value.finalized then (f, Skipped)
    else if f.journal.None? then (f, Refused)
    else
      var j, r := f.journal.value, f.receipt.value;
      if Resumable(j, r) then ReleaseAndSign(f, writes)
      else if !Untouched(j, r) || Blocked(s) then (f, Refused)
      else if writes == 0 then (f, Interrupted)
      else ReleaseAndSign(Closing(f, s), writes - 1)
  }

  function Closing(f: Files, s: Scene): Files
    requires f.receipt.Some? && f.journal.Some?
  {
    f.(journal := Some(Terminal(f.journal.value, f.receipt.value.recoveryId, s)), rewrites := f.rewrites + 1,
       closedFrom := Some(s))
  }

  function ReleaseAndSign(f: Files, writes: nat): (Files, Verdict)
    requires f.receipt.Some? && f.journal.Some?
  {
    if f.lock.None? then Sign(f, writes)
    else if f.lock.value != f.receipt.value.lock then (f, Refused)
    else if writes == 0 then (f, Interrupted)
    else Sign(f.(lock := None, released := f.released + [f.lock.value]), writes - 1)
  }

  function Sign(f: Files, writes: nat): (Files, Verdict)
    requires f.receipt.Some? && f.journal.Some?
  {
    if writes == 0 then (f, Interrupted)
    else (f.(receipt := Some(f.receipt.value.(finalized := true, terminalJournalDigest := f.journal))), Finalized)
  }

  /** The retired executor's claim is bound to its requested journal, once. */
  function Retire(f: Files, processNonce: string, contextDigest: string, recoveryId: string): Files {
    if f.journal.None? || f.journal.value.status != Requested || f.journal.value.processNonce != processNonce
      || f.journal.value.contextDigest != contextDigest || f.lock.None?
      || f.lock.value.processNonce != processNonce || f.lock.value.contextDigest != contextDigest
      || f.lock.value.binding != f.journal.value.binding || f.receipt.Some?
    then f
    else
      f.(receipt := Some(Receipt(false, recoveryId, processNonce, contextDigest, f.journal.value, f.lock.value, None)))
  }

  datatype Event =
    | RetireExecutor(processNonce: string, contextDigest: string, recoveryId: string)
    | Finalize(scene: Scene, writes: nat)
    | ClaimRound(lock: Lock)
    | DropClaim

  function Step(f: Files, e: Event): Files {
    match e
    case RetireExecutor(processNonce, contextDigest, recoveryId) => Retire(f, processNonce, contextDigest, recoveryId)
    case Finalize(scene, writes) => Attempt(f, scene, writes).0
    case ClaimRound(lock) => if f.lock.Some? then f else f.(lock := Some(lock))
    case DropClaim => f.(lock := None)
  }

  function Run(f: Files, events: seq<Event>): Files
    decreases |events|
  {
    if events == [] then f else Step(Run(f, events[..|events| - 1]), events[|events| - 1])
  }

  function Left(journal: Journal, lock: Lock): Files {
    Files(Some(journal), Some(lock), None, 0, None, [])
  }

  ghost predicate Inv(f: Files, journal: Journal) {
    && f.journal.Some? && f.rewrites <= 1
    && (f.receipt.None? ==> f.rewrites == 0 && f.released == [])
    && (f.rewrites == 0 ==> f.journal.value == journal)
    && (f.receipt.Some? ==> Recorded(f, f.receipt.value, journal))
  }

  ghost predicate Recorded(f: Files, r: Receipt, journal: Journal)
    requires f.journal.Some?
  {
    && r.journalDigest == journal && Untouched(journal, r)
    && (forall i :: 0 <= i < |f.released| ==> f.released[i] == r.lock)
    && (f.rewrites == 1 ==>
          f.closedFrom.Some? && f.journal.value == Terminal(journal, r.recoveryId, f.closedFrom.value))
    && (r.finalized ==> f.rewrites == 1 && r.terminalJournalDigest == f.journal)
  }

  lemma SignKeepsInv(f: Files, journal: Journal, writes: nat)
    requires Inv(f, journal) && f.receipt.Some? && f.rewrites == 1
    ensures Inv(ReleaseAndSign(f, writes).0, journal)
  {
  }

  lemma AttemptKeepsInv(f: Files, journal: Journal, s: Scene, writes: nat)
    requires journal.status == Requested && Inv(f, journal)
    ensures Inv(Attempt(f, s, writes).0, journal)
  {
    if f.receipt.Some? && !f.receipt.value.finalized {
      var j, r := f.journal.value, f.receipt.value;
      if Resumable(j, r) {
        SignKeepsInv(f, journal, writes);
      } else if Untouched(j, r) && !Blocked(s) && writes > 0 {
        ClosingKeepsInv(f, journal, s);
        SignKeepsInv(Closing(f, s), journal, writes - 1);
      }
    }
  }

  lemma ClosingKeepsInv(f: Files, journal: Journal, s: Scene)
    requires journal.status == Requested && Inv(f, journal) && f.receipt.Some? && !f.receipt.value.finalized
    requires Untouched(f.journal.value, f.receipt.value)
    ensures Inv(Closing(f, s), journal) && Closing(f, s).rewrites == 1
  {
  }

  lemma StepKeepsInv(f: Files, journal: Journal, e: Event)
    requires journal.status == Requested && Inv(f, journal)
    ensures Inv(Step(f, e), journal)
  {
    if e.Finalize? { AttemptKeepsInv(f, journal, e.scene, e.writes); }
  }

  lemma {:induction false} RunKeepsInv(journal: Journal, lock: Lock, events: seq<Event>)
    requires journal.status == Requested
    ensures Inv(Run(Left(journal, lock), events), journal)
    decreases |events|
  {
    if events != [] {
      RunKeepsInv(journal, lock, events[..|events| - 1]);
      StepKeepsInv(Run(Left(journal, lock), events[..|events| - 1]), journal, events[|events| - 1]);
    }
  }

  /** Whatever interrupts the finalizer and however often it is run again: the
      journal is rewritten at most once, only the recorded claim is removed, and
      a finalized receipt holds the digest of the journal on disk. */
  lemma FinalizedOnce(journal: Journal, lock: Lock, events: seq<Event>)
    requires journal.status == Requested
    ensures var f := Run(Left(journal, lock), events);
      && f.rewrites <= 1
      && (forall i :: 0 <= i < |f.released| ==> f.receipt.Some? && f.released[i] == f.receipt.value.lock)
      && (f.receipt.Some? && f.receipt.value.finalized ==>
            f.journal.Some? && f.receipt.value.terminalJournalDigest == f.journal
            && Resumable(f.journal.value, f.receipt.value))
  {
    RunKeepsInv(journal, lock, events);
  }

  /** The journal was rewritten, and the cache the finalizer then read is `slots`. */
  ghost predicate ClosedWith(f: Files, slots: Slots) {
    f.rewrites > 0 && f.closedFrom.Some? && f.closedFrom.value.slots == Some(slots)
  }

  /** After every run that rewrote the journal, a Claude answer that was cached for
      the round is on disk under its own digest exactly when it could be kept. */
  lemma ClaudeAnswerStands(journal: Journal, lock: Lock, events: seq<Event>, slots: Slots, s: Saved<ClaudeAttempt>)
    requires journal.status == Requested && ClosedWith(Run(Left(journal, lock), events), slots)
    requires Bound(slots, journal) && slots.claude == Some(s) && s.attempt.adopted
    ensures var onDisk := Run(Left(journal, lock), events).journal;
      && onDisk.Some? && onDisk.value.claude.Some?
      && var final := onDisk.value.claude.value;
      && (final.adopted <==> s.attempt.containmentVerified && Said(s.response) && ClosedAnswer(s.attempt))
      && (final.adopted ==> final.responseDigest == Some(Sha(s.response.value)))
  {
    RunKeepsInv(journal, lock, events);
    var scene := Run(Left(journal, lock), events).closedFrom.value;
    ClaudeAnswerSurvives(slots, journal, scene.outcome, scene.residual, s);
  }

  /** And so is a contained Grok answer, from a cache of any length. */
  lemma GrokAnswerStands(journal: Journal, lock: Lock, events: seq<Event>, slots: Slots, s: Saved<GrokAttempt>)
    requires journal.status == Requested && ClosedWith(Run(Left(journal, lock), events), slots)
    requires Bound(slots, journal) && slots.grok.Some? && s in slots.grok.value
    requires s.attempt.adopted && s.attempt.containmentVerified == Some(true)
    ensures var onDisk := Run(Left(journal, lock), events).journal;
      && onDisk.Some? && onDisk.value.grok.Some?
      && var final := onDisk.value.grok.value;
      && ((exists i :: 0 <= i < |final| && AnswerOf(final[i], s)) <==>
          (|slots.grok.value| == 1 && Said(s.response) && KeptAnswer(s.attempt, journal.phase))
          || RetainedAlike(journal, s))
  {
    RunKeepsInv(journal, lock, events);
    GrokAnswerSurvives(slots, journal, s);
  }

  /** The scene knows of a delivery that may have happened: its cleanup outcome
      says so of a workspace that was tried, or there is no outcome and a send
      receipt was left. */
  predicate MayHaveDelivered(s: Scene) {
    if s.outcome.Some? then s.outcome.value.workspaceCreationAttempted && s.outcome.value.promptMayHaveBeenDelivered
    else s.residual == Some(true)
  }

  predicate WorkspaceTried(s: Scene) {
    if s.outcome.Some? then s.outcome.value.workspaceCreationAttempted else s.residual.Some?
  }

  predicate Contained(s: Scene) {
    !WorkspaceTried(s) || (s.outcome.Some? && s.outcome.value.cleanupVerified)
  }

  /** What a slot that was neither cached nor retained tells of the scene it was
      made from: no answer, and as much of workspace, delivery, containment and
      cleanup as the scene knows. */
  predicate Tells(c: ClaudeAttempt, s: Scene) {
    && !c.adopted && c.responseDigest.None? && IsSha(c.reasonDigest)
    && (c.workspaceCreationAttempted <==> WorkspaceTried(s)) && (c.containmentVerified <==> Contained(s))
    && (MayHaveDelivered(s) ==> c.promptMayHaveBeenDelivered)
    && (c.promptMayHaveBeenDelivered ==>
          MayHaveDelivered(s) || (s.outcome.Some? && s.outcome.value.promptMayHaveBeenDelivered))
    && (c.cleanupVerified <==> s.outcome.Some? && s.outcome.value.cleanupVerified)
    && (c.freshEphemeral <==>
          if s.outcome.Some? then s.outcome.value.freshEphemeral else s.residual == Some(true))
    && c.cleanupReceiptDigest == (if s.outcome.Some? then s.outcome.value.cleanupReceiptDigest else None)
    && (s.outcome.Some? ==> c.cleanupStatus == s.outcome.value.cleanupStatus)
  }

  /** The slot is one the finalizer took over, or one that it made. */
  ghost predicate TakenOver(journal: Journal, s: Scene) {
    var current := RecoveredClaude(s.outcome, s.residual);
    HasCached(s.slots, journal, current) || HasRetained(journal, current)
  }

  lemma SlotTells(journal: Journal, s: Scene)
    ensures var c := FinalClaude(s.slots, journal, RecoveredClaude(s.outcome, s.residual));
      && (MayHaveDelivered(s) ==> c.adopted || c.promptMayHaveBeenDelivered)
      && (if TakenOver(journal, s) then c.adopted || OfSameAttempt(c, s) else Tells(c, s))
  {
  }

  /** A failure of an earlier run may stand for the workspace that the scene knows
      of only when both name one cleanup, and agree on the delivery. */
  predicate OfSameAttempt(c: ClaudeAttempt, s: Scene) {
    WorkspaceTried(s) ==>
      && s.outcome.Some? && s.outcome.value.cleanupVerified
      && c.cleanupReceiptDigest == s.outcome.value.cleanupReceiptDigest
      && c.promptMayHaveBeenDelivered == s.outcome.value.promptMayHaveBeenDelivered
  }

  /** After every run that rewrote the journal, a delivery that may have happened
      is on record in the Claude slot on disk, or the slot has the answer; and a
      slot made from the scene tells what the scene knows and nothing more. */
  lemma DeliveryIsRecorded(journal: Journal, lock: Lock, events: seq<Event>)
    requires journal.status == Requested && Run(Left(journal, lock), events).rewrites > 0
    ensures var f := Run(Left(journal, lock), events);
      && f.journal.Some? && f.journal.value.claude.Some? && f.closedFrom.Some?
      && var c, s := f.journal.value.claude.value, f.closedFrom.value;
      && (MayHaveDelivered(s) ==> c.adopted || c.promptMayHaveBeenDelivered)
      && (if TakenOver(journal, s) then c.adopted || OfSameAttempt(c, s) else Tells(c, s))
  {
    RunKeepsInv(journal, lock, events);
    SlotTells(journal, Run(Left(journal, lock), events).closedFrom.value);
  }

  /** A terminal journal closes the round it was requested for: nothing that names
      the round or was observed at its start is changed. */
  predicate ClosesRound(requested: Journal, terminal: Journal, s: Scene) {
    && terminal.version == requested.version && terminal.phase == requested.phase
    && terminal.binding == requested.binding && terminal.processNonce == requested.processNonce
    && terminal.contextDigest == requested.contextDigest && terminal.startedAt == requested.startedAt
    && terminal.repositoryDigest == requested.repositoryDigest
    && terminal.repositoryDigestAfter == Some(s.repositoryAfter) && terminal.inputUnchanged == Some(s.inputUnchanged)
    && (terminal.status == RequiredReviewerFailed <==>
          s.inputUnchanged && s.repositoryAfter == requested.repositoryDigest)
    && (terminal.status == RequiredReviewerFailed || terminal.status == StaleInput)
    && terminal.finishedAt.Some? && s.now <= terminal.finishedAt.value
  }

  /** So does the journal on disk, and at each expected perspective that no cached
      slot took it keeps the answer that was retained, or says that it is lost. */
  lemma RewrittenClosesRound(journal: Journal, lock: Lock, events: seq<Event>)
    requires journal.status == Requested && Run(Left(journal, lock), events).rewrites > 0
    ensures var f := Run(Left(journal, lock), events);
      && f.journal.Some? && f.closedFrom.Some? && ClosesRound(journal, f.journal.value, f.closedFrom.value)
      && KeepsRetained(journal, f.journal.value, f.closedFrom.value.slots)
  {
    RunKeepsInv(journal, lock, events);
    var s := Run(Left(journal, lock), events).closedFrom.value;
    RetainedIsKept(journal, s.slots);
  }

  ghost predicate KeepsRetained(requested: Journal, terminal: Journal, slots: Option<Slots>) {
    forall p :: p in ExpectedPerspectives(requested) ==> KeepsRetainedAt(requested, terminal, slots, p)
  }

  ghost predicate HasRetainedAt(requested: Journal, p: Perspective) {
    exists a: GrokAttempt :: requested.grok.Some? && a in requested.grok.value && Retainable(a, p)
  }

  /** A failure that says no more than that nothing is known of the slot. */
  predicate SaysLost(a: GrokAttempt, p: Perspective) {
    && a.perspective == p && !a.adopted && a.containmentVerified == Some(true)
    && a.executionState == Some(StartUnconfirmed) && a.processId.None? && a.responseDigest.None?
  }

  ghost predicate CachedAt(requested: Journal, slots: Option<Slots>, p: Perspective) {
    exists s: Saved<GrokAttempt> :: CachedGrok(slots, requested, s) && s.attempt.perspective == p
  }

  /** Where no cached slot took its place, a retained answer stands; and where
      there is none, the slot says that it was lost. */
  ghost predicate KeepsRetainedAt(requested: Journal, terminal: Journal, slots: Option<Slots>, p: Perspective) {
    !CachedAt(requested, slots, p) ==>
      && terminal.grok.Some?
      && exists a :: a in terminal.grok.value
           && if HasRetainedAt(requested, p) then a in requested.grok.value && Retainable(a, p) else SaysLost(a, p)
  }

  /** How a broker reads: whether its workflow is the unified one, which does not
      observe the repository, and whether it takes a round whose input changed. */
  datatype Reader = Reader(unified: bool, recoveryOnly: bool)

  /** A terminal journal that the broker reads as one. */
  ghost predicate Readable(j: Journal, broker: Reader) {
    && (j.status == RequiredReviewerFailed || j.status == ReviewersCompleted
        || (broker.recoveryOnly && j.status == StaleInput))
    && j.carried && (broker.unified || j.repositoryDigestAfter == Some(j.repositoryDigest))
    && j.finishedAt.Some? && j.startedAt <= j.finishedAt.value && SlotsReadable(j)
  }

  ghost predicate SlotsReadable(j: Journal) {
    && j.grok.Some? && GrokOk(j.grok.value, ExpectedPerspectives(j))
    && j.claude.Some? && ClaudeOk(j.claude.value)
  }

  /** What the broker requires before it resumes a recovered round. */
  ghost predicate BrokerResumes(f: Files, broker: Reader) {
    && f.journal.Some? && Readable(f.journal.value, broker)
    && f.journal.value.recoveredAfterInterruption && f.journal.value.recoveryId.Some?
    && f.lock.None? && f.receipt.Some? && f.receipt.value.finalized
    && f.receipt.value.recoveryId == f.journal.value.recoveryId.value
    && f.receipt.value.terminalJournalDigest == f.journal
  }

  /** A requested journal and a scene that make a journal the broker reads: what
      is carried over is sound, input and repository are as the reader wants
      them, no process is shared, and the Claude slot is a cached one, a retained
      one, or made of something publishable. */
  ghost predicate Recoverable(j: Journal, s: Scene, broker: Reader) {
    var same := s.repositoryAfter == j.repositoryDigest;
    && j.carried && (broker.recoveryOnly || (s.inputUnchanged && same)) && (broker.unified || same)
    && SlotsRecoverable(j, s)
  }

  ghost predicate SlotsRecoverable(j: Journal, s: Scene) {
    var current := RecoveredClaude(s.outcome, s.residual);
    && (j.version == Nine || !ProcessShared(s.slots, j))
    && (HasCached(s.slots, j, current) || HasRetained(j, current) || s.outcome.None? || Publishable(s.outcome.value))
  }

  lemma TerminalSlots(j: Journal, recoveryId: string, s: Scene)
    requires ValidRequested(j)
    ensures SlotsReadable(Terminal(j, recoveryId, s)) <==> SlotsRecoverable(j, s)
  {
    WrittenGrokIsReadable(s.slots, j);
    WrittenClaudeIsReadable(s.slots, j, s.outcome, s.residual);
    assert ExpectedPerspectives(Terminal(j, recoveryId, s)) == ExpectedPerspectives(j);
  }

  /** What a run writes is read by the broker exactly from such a journal and such
      a scene. */
  lemma TerminalIsReadable(j: Journal, recoveryId: string, s: Scene, broker: Reader)
    requires ValidRequested(j)
    ensures Readable(Terminal(j, recoveryId, s), broker) <==> Recoverable(j, s, broker)
  {
    TerminalSlots(j, recoveryId, s);
  }

  /** The scene that closed the journal, or would now. */
  function ClosingScene(f: Files, s: Scene): Scene {
    if f.rewrites > 0 && f.closedFrom.Some? then f.closedFrom.value else s
  }

  /** From every reachable state an attempt that is not interrupted finalizes
      exactly when there is a receipt to act on, the Claude workspace is
      accounted for, and no other claim is in the way; and then the broker
      resumes the round exactly when the journal was recoverable from the scene
      that closed it. */
  lemma RerunCompletes(journal: Journal, lock: Lock, events: seq<Event>, s: Scene, writes: nat, broker: Reader)
    requires ValidRequested(journal) && writes >= 3
    ensures var f := Run(Left(journal, lock), events);
      var after := Attempt(f, s, writes);
      && (after.1 == Finalized <==> Completes(f, s))
      && (after.1 == Finalized ==>
            (BrokerResumes(after.0, broker) <==> Recoverable(journal, ClosingScene(f, s), broker)))
  {
    RunKeepsInv(journal, lock, events);
    RerunFrom(Run(Left(journal, lock), events), journal, s, writes, broker);
  }

  predicate Completes(f: Files, s: Scene) {
    && f.receipt.Some? && !f.receipt.value.finalized && (f.rewrites == 0 ==> !Blocked(s))
    && (f.lock.None? || f.lock.value == f.receipt.value.lock)
  }

  lemma RerunEnds(f: Files, journal: Journal, s: Scene, writes: nat)
    requires journal.status == Requested && Inv(f, journal) && writes >= 3
    ensures var after := Attempt(f, s, writes);
      && (after.1 == Finalized <==> Completes(f, s))
      && (after.1 == Finalized ==>
            && after.0.lock.None? && after.0.receipt.Some? && after.0.receipt.value.finalized
            && after.0.receipt.value.terminalJournalDigest == after.0.journal
            && after.0.journal == Some(Terminal(journal, after.0.receipt.value.recoveryId, ClosingScene(f, s))))
  {
  }

  lemma RerunFrom(f: Files, journal: Journal, s: Scene, writes: nat, broker: Reader)
    requires ValidRequested(journal) && Inv(f, journal) && writes >= 3
    ensures var after := Attempt(f, s, writes);
      && (after.1 == Finalized <==> Completes(f, s))
      && (after.1 == Finalized ==>
            (BrokerResumes(after.0, broker) <==> Recoverable(journal, ClosingScene(f, s), broker)))
  {
    RerunEnds(f, journal, s, writes);
    var after := Attempt(f, s, writes);
    if after.1 == Finalized {
      TerminalIsReadable(journal, after.0.receipt.value.recoveryId, ClosingScene(f, s), broker);
    }
  }

  /** A round can be finalized and yet be one that no broker resumes: after an
      outcome that is not publishable, with nothing cached or retained. */
  lemma FinalizedYetNotResumed(journal: Journal, lock: Lock, recoveryId: string, s: Scene, broker: Reader)
    requires ValidRequested(journal) && journal.claude.None? && s.slots.None?
    requires lock.processNonce == journal.processNonce && lock.contextDigest == journal.contextDigest
      && lock.binding == journal.binding
    requires s.outcome == Some(Outcome(true, true, true, Some(ProvisionalNotCreated), Some(Sha("receipt")), false))
    ensures var f := Retire(Left(journal, lock), journal.processNonce, journal.contextDigest, recoveryId);
      Attempt(f, s, 3).1 == Finalized && !BrokerResumes(Attempt(f, s, 3).0, broker)
  {
    var f := Retire(Left(journal, lock), journal.processNonce, journal.contextDigest, recoveryId);
    RerunFrom(f, journal, s, 3, broker);
  }

  // ------------------------------------------------------- the files in place

  class RoundFiles {
    var journal: Option<Journal>
    var lock: Option<Lock>
    var receipt: Option<Receipt>
    ghost var rewrites: nat
    ghost var closedFrom: Option<Scene>
    ghost var released: seq<Lock>

    ghost function Now(): Files
      reads this
    {
      Files(journal, lock, receipt, rewrites, closedFrom, released)
    }

    constructor (journal: Journal, lock: Lock)
      ensures Now() == Left(journal, lock)
    {
      this.journal, this.lock, receipt := Some(journal), Some(lock), None;
      rewrites, closedFrom, released := 0, None, [];
    }

    method RecordAdvisorExecutorRetirement(processNonce: string, contextDigest: string, recoveryId: string)
      modifies `receipt
      ensures Now() == Retire(old(Now()), processNonce, contextDigest, recoveryId)
    {
      if journal.None? || journal.value.status != Requested || journal.value.processNonce != processNonce { return; }
      if journal.value.contextDigest != contextDigest || lock.None? { return; }
      var claim := lock.value;
      if claim.processNonce != processNonce || claim.contextDigest != contextDigest
        || claim.binding != journal.value.binding
      {
        return;
      }
      if receipt.Some? { return; }
      receipt := Some(Receipt(false, recoveryId, processNonce, contextDigest, journal.value, claim, None));
    }

    /** Removes the claim only when it is the recorded one. */
    method ReleaseLockExact(writes: nat) returns (r: Option<Verdict>, remaining: nat)
      requires receipt.Some?
      modifies `lock, `released
      ensures old(lock).None? ==> r.None? && remaining == writes && Now() == old(Now())
      ensures old(lock).Some? && old(lock).value != receipt.value.lock ==> r == Some(Refused) && Now() == old(Now())
      ensures old(lock) == Some(receipt.value.lock) && writes == 0 ==> r == Some(Interrupted) && Now() == old(Now())
      ensures old(lock) == Some(receipt.value.lock) && writes > 0 ==>
                r.None? && remaining == writes - 1
                && Now() == old(Now()).(lock := None, released := old(released) + [receipt.value.lock])
    {
      if lock.None? { return None, writes; }
      if lock.value.dev != receipt.value.lock.dev || lock.value.ino != receipt.value.lock.ino
        || lock.value != receipt.value.lock
      {
        return Some(Refused), writes;
      }
      if writes == 0 { return Some(Interrupted), 0; }
      released := released + [lock.value];
      lock := None;
      return None, writes - 1;
    }

    method ReleaseClaimAndSign(writes: nat) returns (v: Verdict)
      requires receipt.Some? && journal.Some?
      modifies `lock, `released, `receipt
      ensures (Now(), v) == ReleaseAndSign(old(Now()), writes)
    {
      var stopped, remaining := ReleaseLockExact(writes);
      if stopped.Some? { return stopped.value; }
      if remaining == 0 { return Interrupted; }
      receipt := Some(receipt.value.(finalized := true, terminalJournalDigest := journal));
      return Finalized;
    }

    method WriteTerminal(s: Scene)
      requires receipt.Some? && journal.Some?
      modifies `journal, `rewrites, `closedFrom
      ensures Now() == Closing(old(Now()), s)
    {
      journal := Some(Terminal(journal.value, receipt.value.recoveryId, s));
      rewrites, closedFrom := rewrites + 1, Some(s);
    }

    method FinalizeRetiredRound(s: Scene, writes: nat) returns (v: Verdict)
      modifies this
      ensures (Now(), v) == Attempt(old(Now()), s, writes)
    {
      if receipt.None? || receipt.value.finalized { return Skipped; }
      if journal.None? { return Refused; }
      if Resumable(journal.value, receipt.value) {
        v := ReleaseClaimAndSign(writes);
        return;
      }
      if !Untouched(journal.value, receipt.value) || Blocked(s) { return Refused; }
      if writes == 0 { return Interrupted; }
      WriteTerminal(s);
      v := ReleaseClaimAndSign(writes - 1);
    }

    method Perform(e: Event)
      modifies this
      ensures Now() == Step(old(Now()), e)
    {
      match e
      case RetireExecutor(processNonce, contextDigest, recoveryId) =>
        RecordAdvisorExecutorRetirement(processNonce, contextDigest, recoveryId);
      case Finalize(scene, writes) => var _ := FinalizeRetiredRound(scene, writes);
      case ClaimRound(claim) => if lock.None? { lock := Some(claim); }
      case DropClaim => lock := None;
    }

    method Live(events: seq<Event>)
      modifies this
      ensures Now() == Run(old(Now()), events)
    {
      for i := 0 to |events|
        invariant Now() == Run(old(Now()), events[..i])
      {
        assert events[..i + 1][..i] == events[..i];
        Perform(events[i]);
      }
      assert events[..|events|] == events;
    }
  }
}
