/** One attempt of a delegated Claude: what it observed decides whether another
    model may be tried. */
module DelegationAttempt {

  import opened Optional

  datatype Scope = Fable | Other

  /** The events an attempt can observe. `error`, `synthetic` and `apiError` are
      the fields that tell a native rejection from the model's own words, and
      `scope` is the quota its text names. */
  datatype ClaudeEvent =
    | Assistant(root: bool, error: Option<bool>, synthetic: bool, apiError: Option<bool>, scope: Option<Scope>)
    | StreamEvent | ToolUse | ToolResult | ToolProgress | ControlRequest
    | Result | System

  /** A root assistant message that only reports an API error. `error` says
      whether that error is a rate limit. */
  predicate Native(e: ClaudeEvent) {
    e.Assistant? && e.root && e.error.Some? && e.synthetic && e.apiError != Some(false)
  }

  predicate RateLimit(e: ClaudeEvent) {
    Native(e) && e.error == Some(true)
  }

  predicate Work(e: ClaudeEvent) {
    !Native(e) && !e.Result? && !e.System?
  }

  function ScopeOf(e: ClaudeEvent): Scope
    requires RateLimit(e)
  {
    if e.scope.Some? then e.scope.value else Other
  }

  /** The scope named by the last rate limit of a trace. */
  ghost predicate LastScope(seen: seq<ClaudeEvent>, q: Option<Scope>) {
    if q.None? then forall i :: 0 <= i < |seen| ==> !RateLimit(seen[i])
    else exists i :: LastRateLimitAt(seen, i) && ScopeOf(seen[i]) == q.value
  }

  ghost predicate LastRateLimitAt(seen: seq<ClaudeEvent>, i: int) {
    0 <= i < |seen| && RateLimit(seen[i]) && forall j :: i < j < |seen| ==> !RateLimit(seen[j])
  }

  ghost predicate AnyWork(seen: seq<ClaudeEvent>) {
    exists i :: 0 <= i < |seen| && Work(seen[i])
  }

  ghost predicate AnyNative(seen: seq<ClaudeEvent>) {
    exists i :: 0 <= i < |seen| && Native(seen[i])
  }

  datatype Stage = Authentication | Preparation | Startup | Initialize | Dispatch | Execution | Cleanup | Persistence

  datatype Code =
    | FableQuota | RateLimited | AuthenticationFailed | PreparationFailed | StartupFailed | Protocol
    | DeliveryUnknown | NativeError | CleanupFailed | Cancelled | PersistenceFailed | Unknown

  datatype Failure = Failure(
    stage: Stage, code: Code, quotaScope: Option<Scope>, retrySafe: bool, cleanupVerified: bool,
    priorCode: Option<Code>)

  function DelegationFailure(stage: Stage, code: Code): Failure {
    Failure(stage, code, None, false, false, None)
  }

  class Observation {
    var worked: bool
    var quota: Option<Scope>
    var nativeError: bool
    ghost var seen: seq<ClaudeEvent>

    ghost predicate Valid()
      reads this
    {
      (worked <==> AnyWork(seen)) && (nativeError <==> AnyNative(seen)) && LastScope(seen, quota)
    }

    constructor ()
      ensures Valid() && seen == []
    {
      worked, quota, nativeError, seen := false, None, false, [];
    }

    method Observe(e: ClaudeEvent)
      requires Valid()
      modifies this
      ensures Valid() && seen == old(seen) + [e]
    {
      ghost var was := seen;
      seen := seen + [e];
      assert forall i :: 0 <= i < |was| ==> seen[i] == was[i];
      assert seen[|was|] == e;
      if e.Assistant? && e.root {
        if e.error.Some? && e.synthetic && e.apiError != Some(false) {
          nativeError := true;
          if e.error.value {
            quota := Some(if e.scope.Some? then e.scope.value else Other);
            assert LastRateLimitAt(seen, |was|);
          } else {
            LaterEventsKeepScope(was, e, quota);
          }
          return;
        }
        worked := true;
      } else if e.Assistant? || e.StreamEvent? || e.ToolUse? || e.ToolResult? || e.ToolProgress? || e.ControlRequest? {
        worked := true;
      }
      LaterEventsKeepScope(was, e, quota);
    }

    /** A retry is safe exactly when a native Fable quota rejection is the last
        rate limit of the trace and no event of the trace was work. */
    method Failed() returns (f: Failure)
      requires Valid()
      ensures f.stage == Execution && !f.cleanupVerified && f.priorCode == None
      ensures LastScope(seen, f.quotaScope)
      ensures f.retrySafe <==> LastScope(seen, Some(Fable)) && !AnyWork(seen)
      ensures f.code == if f.quotaScope == Some(Fable) then FableQuota
                        else if f.quotaScope == Some(Other) then RateLimited else NativeError
    {
      f := DelegationFailure(Execution,
        if quota == Some(Fable) then FableQuota else if quota.Some? then RateLimited else NativeError);
      f := f.(quotaScope := quota);
      f := f.(retrySafe := nativeError && quota == Some(Fable) && !worked);
      ScopeIsUnique(seen, quota, Some(Fable));
    }
  }

  lemma LaterEventsKeepScope(was: seq<ClaudeEvent>, e: ClaudeEvent, q: Option<Scope>)
    requires LastScope(was, q) && !RateLimit(e)
    ensures LastScope(was + [e], q)
  {
    if q.Some? {
      var i :| LastRateLimitAt(was, i) && ScopeOf(was[i]) == q.value;
      assert LastRateLimitAt(was + [e], i);
    }
  }

  lemma ScopeIsUnique(seen: seq<ClaudeEvent>, q: Option<Scope>, r: Option<Scope>)
    requires LastScope(seen, q)
    ensures LastScope(seen, r) <==> r == q
    ensures q.Some? ==> AnyNative(seen)
  {
    if LastScope(seen, r) && q.Some? && r.Some? {
      var i :| LastRateLimitAt(seen, i) && ScopeOf(seen[i]) == q.value;
      var j :| LastRateLimitAt(seen, j) && ScopeOf(seen[j]) == r.value;
      assert i == j;
    }
  }

  // ------------------------------------------------------ the staged attempt

  datatype Trouble = Aborted | Unacknowledged | ProtocolBroken | LoginRejected | Unexpected

  datatype Ending = Success | Failing | Interrupted

  /** What the session brings at one poll: an event, which may end the turn. */
  datatype Arrival = Arrival(
    aborted: bool, event: ClaudeEvent, ending: Option<Ending>, modelMatches: bool, text: string)

  datatype Attempt = Text(text: string) | Failed(failure: Failure)

  function Classify(stage: Stage, trouble: Trouble): Failure {
    DelegationFailure(stage,
      if trouble == Aborted then Cancelled
      else if trouble == Unacknowledged then DeliveryUnknown
      else if trouble == ProtocolBroken then Protocol
      else if trouble == LoginRejected || stage == Authentication then AuthenticationFailed
      else if stage == Preparation then PreparationFailed
      else if stage == Startup then StartupFailed
      else Unknown)
  }

  /** A failure that no event was judged for is of its own stage, is never safe to
      retry, and has a code of its own for each kind of trouble; what was not
      expected is named by its stage. */
  lemma ClassifiedByTrouble(stage: Stage, trouble: Trouble)
    ensures var f := Classify(stage, trouble);
      && f.stage == stage && !f.retrySafe && !f.cleanupVerified && f.quotaScope.None? && f.priorCode.None?
      && (f.code == Cancelled <==> trouble == Aborted) && (f.code == DeliveryUnknown <==> trouble == Unacknowledged)
      && (f.code == Protocol <==> trouble == ProtocolBroken)
      && (f.code == AuthenticationFailed <==>
            trouble == LoginRejected || (trouble == Unexpected && stage == Authentication))
      && (f.code == PreparationFailed <==> trouble == Unexpected && stage == Preparation)
      && (f.code == StartupFailed <==> trouble == Unexpected && stage == Startup)
  {
  }

  function Events(arrivals: seq<Arrival>): (events: seq<ClaudeEvent>)
    ensures |events| == |arrivals|
    ensures forall i :: 0 <= i < |arrivals| ==> events[i] == arrivals[i].event
  {
    seq(|arrivals|, i requires 0 <= i < |arrivals| => arrivals[i].event)
  }

  ghost predicate Succeeded(arrivals: seq<Arrival>, text: string) {
    exists i :: 0 <= i < |arrivals| && arrivals[i].ending == Some(Success) && arrivals[i].modelMatches
      && arrivals[i].text == text
  }

  ghost predicate OnlyRejected(arrivals: seq<Arrival>) {
    LastScope(Events(arrivals), Some(Fable)) && !AnyWork(Events(arrivals))
  }

  predicate Decisive(a: Arrival) {
    a.aborted || a.ending.Some?
  }

  /** The first arrival that decides the turn. */
  ghost predicate DecidedAt(arrivals: seq<Arrival>, k: nat) {
    k < |arrivals| && Decisive(arrivals[k]) && forall i :: 0 <= i < k ==> !Decisive(arrivals[i])
  }

  /** What a failure of the turn itself says of the events that were observed. */
  ghost predicate Judges(f: Failure, arrivals: seq<Arrival>) {
    && f.stage == Execution && !f.cleanupVerified && f.priorCode == None && LastScope(Events(arrivals), f.quotaScope)
    && (f.retrySafe <==> OnlyRejected(arrivals))
    && f.code == (if f.quotaScope == Some(Fable) then FableQuota
                  else if f.quotaScope == Some(Other) then RateLimited else NativeError)
  }

  predicate Plain(r: Attempt, code: Code) {
    r == Failed(DelegationFailure(Execution, code))
  }

  /** How the turn ends, by the arrival that decides it: an abort and an interrupted
      turn are cancelled, another model breaks the protocol, a success is its
      text, and a failed turn is judged by what was observed until then. */
  ghost predicate EndsBy(arrivals: seq<Arrival>, k: nat, ahead: nat, r: Attempt, observed: nat)
    requires k < |arrivals| && observed <= |arrivals|
  {
    var a := arrivals[k];
    if a.aborted then observed == k && Plain(r, Cancelled)
    else if a.ending.None? || !a.modelMatches then observed == k + 1 && Plain(r, Protocol)
    else if a.ending == Some(Success) then observed == k + 1 && r == Text(a.text)
    else if a.ending == Some(Interrupted) then observed == k + 1 && Plain(r, Cancelled)
    else
      && observed == (if k + 1 + ahead < |arrivals| then k + 1 + ahead else |arrivals|)
      && r.Failed? && Judges(r.failure, arrivals[..observed])
  }

  /** The turn as a whole: it ends by its first decisive arrival, or with the loss
      of the session when there is none. */
  ghost predicate Turn(arrivals: seq<Arrival>, ahead: nat, loss: Trouble, r: Attempt, observed: nat) {
    && observed <= |arrivals|
    && (forall k: nat :: DecidedAt(arrivals, k) ==> EndsBy(arrivals, k, ahead, r, observed))
    && ((forall k: nat :: !DecidedAt(arrivals, k)) ==>
          observed == |arrivals| && r == Failed(Classify(Execution, loss)))
  }

  lemma TurnEnds(arrivals: seq<Arrival>, k: nat, ahead: nat, loss: Trouble, r: Attempt, observed: nat)
    requires DecidedAt(arrivals, k) && observed <= |arrivals| && EndsBy(arrivals, k, ahead, r, observed)
    ensures Turn(arrivals, ahead, loss, r, observed)
  {
    assert forall j: nat :: DecidedAt(arrivals, j) ==> j == k;
  }

  /** What a turn says in any case. */
  lemma TurnSays(arrivals: seq<Arrival>, ahead: nat, loss: Trouble, r: Attempt, observed: nat)
    requires Turn(arrivals, ahead, loss, r, observed)
    ensures r.Failed? ==> !r.failure.cleanupVerified
    ensures r.Failed? && r.failure.retrySafe ==> OnlyRejected(arrivals[..observed])
    ensures r.Text? ==> Succeeded(arrivals, r.text)
  {
    if k: nat :| DecidedAt(arrivals, k) { assert EndsBy(arrivals, k, ahead, r, observed); }
  }

  /** The turn itself: arrivals are taken one by one until a terminal, an abort
      or the session's own failure. Events are observed on receipt, so up to
      `ahead` more than were taken may count when an error terminal is judged. */
  method Execute(arrivals: seq<Arrival>, ahead: nat, loss: Trouble) returns (r: Attempt, observed: nat)
    ensures Turn(arrivals, ahead, loss, r, observed)
  {
    var observation := new Observation();
    observed := 0;
    while observed < |arrivals|
      invariant observed <= |arrivals| && observation.Valid()
      invariant fresh(observation)
      invariant observation.seen == Events(arrivals[..observed])
      invariant forall i :: 0 <= i < observed ==> !Decisive(arrivals[i])
    {
      ghost var k := observed;
      var a := arrivals[observed];
      if a.aborted {
        r := Failed(Classify(Execution, Aborted));
        TurnEnds(arrivals, k, ahead, loss, r, observed);
        return;
      }
      observation.Observe(a.event);
      observed := observed + 1;
      assert Events(arrivals[..observed]) == Events(arrivals[..observed - 1]) + [a.event];
      if a.ending.None? { continue; }
      if !a.modelMatches || a.ending != Some(Failing) {
        r := EndPlainly(a);
        assert a.ending.value.Success? || a.ending.value.Failing? || a.ending.value.Interrupted?;
        TurnEnds(arrivals, k, ahead, loss, r, observed);
        return;
      }
      var received := if observed + ahead < |arrivals| then observed + ahead else |arrivals|;
      ObserveAhead(observation, arrivals, observed, received);
      observed := received;
      var f := observation.Failed();
      assert Judges(f, arrivals[..observed]);
      r := Failed(f);
      TurnEnds(arrivals, k, ahead, loss, r, observed);
      return;
    }
    return Failed(Classify(Execution, loss)), observed;
  }

  /** Observes what was received while the turn was being judged. */
  method ObserveAhead(observation: Observation, arrivals: seq<Arrival>, from: nat, to: nat)
    requires from <= to <= |arrivals| && observation.Valid() && observation.seen == Events(arrivals[..from])
    modifies observation
    ensures observation.Valid() && observation.seen == Events(arrivals[..to])
  {
    for i := from to to
      invariant observation.Valid() && observation.seen == Events(arrivals[..i])
    {
      observation.Observe(arrivals[i].event);
      assert Events(arrivals[..i + 1]) == Events(arrivals[..i]) + [arrivals[i].event];
    }
  }

  /** A terminal that is not a failed turn of the right model. */
  function EndPlainly(a: Arrival): Attempt {
    if !a.modelMatches then Failed(Classify(Execution, ProtocolBroken))
    else if a.ending == Some(Success) then Text(a.text)
    else Failed(DelegationFailure(Execution, Cancelled))
  }

  /** The attempt after its cleanup: what fails to clean up is a cleanup failure
      that names what came before it. */
  predicate CleanedUp(t: Attempt, cleans: bool, r: Attempt) {
    if cleans then
      if t.Text? then r == t else r == Failed(t.failure.(cleanupVerified := true))
    else
      && r.Failed? && r.failure.stage == Cleanup && r.failure.code == CleanupFailed
      && !r.failure.retrySafe && !r.failure.cleanupVerified
      && r.failure.priorCode == (if t.Failed? then Some(t.failure.code) else None)
      && r.failure.quotaScope == (if t.Failed? then t.failure.quotaScope else None)
  }

  /** A whole attempt: the stages up to dispatch, the turn, then cleanup. What
      fails to clean up is a cleanup failure whatever came before it. */
  method RunClaudeDelegation(before: Option<(Stage, Trouble)>, arrivals: seq<Arrival>, ahead: nat, loss: Trouble,
      cleans: bool)
    returns (r: Attempt, observed: nat)
    ensures observed <= |arrivals|
    ensures if before.Some? then CleanedUp(Failed(Classify(before.value.0, before.value.1)), cleans, r)
            else exists t :: Turn(arrivals, ahead, loss, t, observed) && CleanedUp(t, cleans, r)
    ensures !cleans ==>
              r.Failed? && r.failure.code == CleanupFailed && !r.failure.retrySafe && !r.failure.cleanupVerified
    ensures cleans && r.Failed? ==> r.failure.cleanupVerified
    ensures r.Failed? && r.failure.retrySafe ==> before.None? && cleans && OnlyRejected(arrivals[..observed])
    ensures r.Text? ==> before.None? && cleans && Succeeded(arrivals, r.text)
  {
    observed := 0;
    if before.Some? {
      r := Failed(Classify(before.value.0, before.value.1));
    } else {
      r, observed := Execute(arrivals, ahead, loss);
      TurnSays(arrivals, ahead, loss, r, observed);
    }
    ghost var t := r;
    if cleans {
      if r.Failed? { r := Failed(r.failure.(cleanupVerified := true)); }
    } else {
      var prior := if r.Failed? then Some(r.failure.code) else None;
      var scope := if r.Failed? then r.failure.quotaScope else None;
      r := Failed(DelegationFailure(Cleanup, CleanupFailed).(priorCode := prior, quotaScope := scope));
    }
    assert CleanedUp(t, cleans, r);
  }

  predicate CanFallBack(model: string, f: Failure) {
    model == "claude-fable-5-1" && f.quotaScope == Some(Fable) && f.cleanupVerified && f.retrySafe
  }
}

/** Delegation claims shared by any number of broker processes.

    One delegation id is followed: its claim file, its lock, and for every
    broker how far its own start of that id has come. Every event is one atomic
    action of one broker, and a crash may fall between any two of them.
  */
module Delegation {

  import opened Optional
  import opened DelegationAttempt

  datatype Request = Request(model: string, prompt: string)

  datatype Status = Running | Finished

  datatype Record = Record(request: Request, model: string, status: Status)

  /** How far a broker has come: nothing to do; the file was absent; the lock is
      held and the file still absent; claimed; first attempt running; first
      attempt rejected and fallback allowed; fallback recorded; fallback
      running; finished but not recorded. */
  datatype Progress =
    | Idle
    | Absent(request: Request)
    | Owner(request: Request)
    | Claimed(request: Request)
    | First(request: Request)
    | Rejected(request: Request)
    | Chosen(request: Request)
    | Second(request: Request)
    | Over(request: Request, model: string)

  predicate Holds(p: Progress) {
    !p.Idle? && !p.Absent?
  }

  datatype Effect =
    | Launched(request: Request, model: string)
    | FirstFailed(request: Request, failure: Failure)
    | FellBack(request: Request)

  /** `settled` are the final records a broker keeps in memory. */
  datatype World = World(
    file: Option<Record>, lock: Option<nat>, progress: map<nat, Progress>, settled: map<nat, Record>, log: seq<Effect>)

  const OPUS := "claude-opus-5-5"

  const NEW := World(None, None, map[], map[], [])

  function At(w: World, b: nat): Progress {
    if b in w.progress then w.progress[b] else Idle
  }

  function To(w: World, b: nat, p: Progress): World {
    w.(progress := w.progress[b := p])
  }

  /** A write that fails may still have replaced the file. */
  datatype Write = Written | FailedAfter | FailedBefore

  function Put(w: World, r: Record, write: Write): World {
    if write == FailedBefore then w else w.(file := Some(r))
  }

  function Release(w: World, b: nat): World {
    w.(lock := if w.lock == Some(b) then None else w.lock, progress := w.progress[b := Idle])
  }

  datatype Event =
    | LookUp(b: nat, request: Request)
    | Lock(b: nat)
    | SaveClaim(b: nat, write: Write, again: Write)
    | Launch(b: nat)
    | FirstEnds(b: nat, attempt: Attempt, aborted: bool)
    | SaveFallback(b: nat, write: Write, noticed: bool)
    | LaunchFallback(b: nat, aborted: bool)
    | SecondEnds(b: nat)
    | Settle(b: nat, write: Write)
    | Poll(b: nat, ownerDead: bool, write: Write)
    | Crash(b: nat)

  function Step(w: World, e: Event): World {
    var p := At(w, e.b);
    match e
    case LookUp(b, request) =>
      if p.Idle? && w.file.None? then To(w, b, Absent(request)) else w
    case Lock(b) =>
      if !p.Absent? then w
      else if w.lock.Some? then To(w, b, Idle)
      else if w.file.Some? then To(w, b, Idle)
      else To(w.(lock := Some(b)), b, Owner(p.request))
    case SaveClaim(b, write, again) =>
      if !p.Owner? then w
      else
        var record := Record(p.request, p.request.model, Running);
        if write == Written then To(Put(w, record, write), b, Claimed(p.request))
        else
          var interrupted := record.(status := Finished);
          Release(Put(Put(w, record, write), interrupted, again).(settled := w.settled[b := interrupted]), b)
    case Launch(b) =>
      if !p.Claimed? then w
      else To(w.(log := w.log + [Launched(p.request, p.request.model)]), b, First(p.request))
    case FirstEnds(b, attempt, aborted) =>
      if !p.First? then w
      else if attempt.Text? then To(w, b, Over(p.request, p.request.model))
      else
        var failed := w.(log := w.log + [FirstFailed(p.request, attempt.failure)]);
        To(failed, b, if !aborted && CanFallBack(p.request.model, attempt.failure) then Rejected(p.request)
                      else Over(p.request, p.request.model))
    case SaveFallback(b, write, noticed) =>
      if !p.Rejected? then w
      else
        To(Put(w, Record(p.request, OPUS, Running), write), b,
           if write == Written && noticed then Chosen(p.request) else Over(p.request, OPUS))
    case LaunchFallback(b, aborted) =>
      if !p.Chosen? then w
      else if aborted then To(w, b, Over(p.request, OPUS))
      else To(w.(log := w.log + [FellBack(p.request)]), b, Second(p.request))
    case SecondEnds(b) =>
      if p.Second? then To(w, b, Over(p.request, OPUS)) else w
    case Settle(b, write) =>
      if !p.Over? then w
      else
        var record := Record(p.request, p.model, Finished);
        Release(Put(w, record, write).(settled := w.settled[b := record]), b)
    case Poll(b, ownerDead, write) =>
      if b in w.settled then Put(w, w.settled[b], write)
      else if w.file.Some? && w.file.value.status == Running && ownerDead && !Holds(p) then
        Put(w, w.file.value.(status := Finished), write)
      else w
    case Crash(b) =>
      Release(w, b).(settled := w.settled - {b})
  }

  function Run(w: World, events: seq<Event>): World
    decreases |events|
  {
    if events == [] then w else Step(Run(w, events[..|events| - 1]), events[|events| - 1])
  }

  /** The three things that can ever be logged, in this order. */
  ghost predicate Shaped(log: seq<Effect>) {
    && |log| <= 3
    && (|log| >= 1 ==> log[0].Launched? && log[0].model == log[0].request.model)
    && (|log| >= 2 ==> log[1].FirstFailed? && log[1].request == log[0].request)
    && (|log| >= 3 ==> log[2] == FellBack(log[0].request) && CanFallBack(log[0].model, log[1].failure))
  }

  /** What the log can be while a broker has come that far. */
  ghost predicate Fits(p: Progress, log: seq<Effect>) {
    match p
    case Owner(_) => log == []
    case Claimed(_) => log == []
    case First(request) => |log| == 1 && log[0].request == request
    case Rejected(request) => Eligible(request, log)
    case Chosen(request) => Eligible(request, log)
    case Second(_) => true
    case Over(_, _) => true
    case Idle => true
    case Absent(_) => true
  }

  ghost predicate Eligible(request: Request, log: seq<Effect>) {
    |log| == 2 && log[0].request == request && log[1].FirstFailed? && CanFallBack(request.model, log[1].failure)
  }

  ghost predicate Exclusive(w: World) {
    forall b :: b in w.progress && Holds(w.progress[b]) ==> w.lock == Some(b)
  }

  ghost predicate Inv(w: World) {
    && Shaped(w.log) && Exclusive(w)
    && (forall b :: b in w.progress ==> Fits(w.progress[b], w.log))
    && (forall b :: b in w.progress && w.progress[b].Claimed? ==> w.file.Some?)
    && (w.log != [] ==> w.file.Some?)
  }

  lemma StepKeepsExclusive(w: World, e: Event)
    requires Exclusive(w)
    ensures Exclusive(Step(w, e))
  {
  }

  lemma StepKeepsInv(w: World, e: Event)
    requires Inv(w)
    ensures Inv(Step(w, e))
  {
    StepKeepsExclusive(w, e);
    var w', p := Step(w, e), At(w, e.b);
    if w'.log != w.log {
      assert Holds(p) && w.lock == Some(e.b);
      forall b | b in w'.progress && b != e.b ensures !Holds(w'.progress[b]) {
        assert w'.progress[b] == w.progress[b];
      }
    }
  }

  lemma {:induction false} RunKeepsInv(events: seq<Event>)
    ensures Inv(Run(NEW, events))
    decreases |events|
  {
    if events != [] {
      RunKeepsInv(events[..|events| - 1]);
      StepKeepsInv(Run(NEW, events[..|events| - 1]), events[|events| - 1]);
    }
  }

  /** Over any number of brokers and crashes, the requested model and the
      fallback are each launched at most once, for one and the same request. */
  lemma LaunchedAtMostOnce(events: seq<Event>, i: nat, j: nat)
    requires i < j < |Run(NEW, events).log|
    ensures var log := Run(NEW, events).log;
      && !(log[i].Launched? && log[j].Launched?) && !(log[i].FellBack? && log[j].FellBack?)
      && log[i].request == log[j].request
  {
    RunKeepsInv(events);
    ShapedLaunches(Run(NEW, events).log, i, j);
  }

  lemma ShapedLaunches(log: seq<Effect>, i: nat, j: nat)
    requires Shaped(log) && i < j < |log|
    ensures !(log[i].Launched? && log[j].Launched?) && !(log[i].FellBack? && log[j].FellBack?)
    ensures log[i].request == log[j].request
  {
  }

  predicate CleanRejection(e: Effect) {
    e.FirstFailed? && e.failure.quotaScope == Some(Fable) && e.failure.cleanupVerified && e.failure.retrySafe
  }

  ghost predicate RejectedBefore(log: seq<Effect>, j: nat)
    requires j < |log|
  {
    exists i, k ::
      0 <= i < k < j && log[i] == Launched(log[j].request, "claude-fable-5-1") && CleanRejection(log[k])
  }

  /** The fallback is launched only after the first attempt, with the fallible
      model, was rejected by its own quota, did no work and was cleaned up. */
  lemma FallbackOnlyAfterCleanRejection(events: seq<Event>, j: nat)
    requires j < |Run(NEW, events).log| && Run(NEW, events).log[j].FellBack?
    ensures RejectedBefore(Run(NEW, events).log, j)
  {
    RunKeepsInv(events);
    ShapedFallback(Run(NEW, events).log, j);
  }

  lemma ShapedFallback(log: seq<Effect>, j: nat)
    requires Shaped(log) && j < |log| && log[j].FellBack?
    ensures RejectedBefore(log, j)
  {
    assert log[0] == Launched(log[j].request, "claude-fable-5-1") && CleanRejection(log[1]);
  }

  /** The id is claimed and no broker still has a launch of its own to make. */
  ghost predicate Quiet(w: World) {
    w.file.Some? && forall b :: b in w.progress ==> Launchless(w.progress[b])
  }

  predicate Launchless(p: Progress) {
    p.Idle? || p.Absent? || p.Second? || p.Over?
  }

  /** A crash that leaves a claim behind, a reused key, a lost answer: once the
      claim is on disk and its owner is gone nothing is launched again. */
  lemma {:induction false} ClaimIsNeverReplayed(w: World, events: seq<Event>)
    requires Quiet(w)
    ensures Quiet(Run(w, events)) && Run(w, events).log == w.log
    decreases |events|
  {
    if events != [] {
      ClaimIsNeverReplayed(w, events[..|events| - 1]);
      QuietStep(Run(w, events[..|events| - 1]), events[|events| - 1]);
    }
  }

  lemma QuietStep(w: World, e: Event)
    requires Quiet(w)
    ensures Quiet(Step(w, e)) && Step(w, e).log == w.log
  {
    assert Launchless(At(w, e.b));
  }

  // -------------------------------------------------------- what a start does

  /** The id is free: no claim, no lock, and the broker is not busy with it. */
  predicate Free(w: World, b: nat) {
    w.file.None? && w.lock.None? && At(w, b).Idle? && b !in w.settled
  }

  /** A start of a free id launches the requested model, under a claim that was
      saved before. */
  lemma StartLaunches(w: World, b: nat, request: Request, again: Write)
    requires Free(w, b)
    ensures var claimed := Step(Step(Step(w, LookUp(b, request)), Lock(b)), SaveClaim(b, Written, again));
      var launched := Step(claimed, Launch(b));
      && claimed.file == Some(Record(request, request.model, Running)) && claimed.log == w.log
      && claimed.lock == Some(b)
      && launched == claimed.(log := w.log + [Launched(request, request.model)],
                              progress := launched.progress) && At(launched, b) == First(request)
  {
  }

  /** A claim that cannot be saved launches nothing, and gives the id back. */
  lemma UnsavedClaimLaunchesNothing(w: World, b: nat, request: Request, write: Write, again: Write)
    requires At(w, b) == Owner(request) && w.lock == Some(b) && write != Written
    ensures var w' := Step(w, SaveClaim(b, write, again));
      && w'.log == w.log && w'.lock.None? && At(w', b).Idle?
      && b in w'.settled && w'.settled[b] == Record(request, request.model, Finished)
  {
  }

  /** A rejected first attempt is followed by the fallback exactly when it may be
      and the broker is neither stopped nor unable to save and announce it. */
  lemma FallbackExactly(w: World, b: nat, request: Request, f: Failure, aborted: bool, write: Write, noticed: bool,
      late: bool)
    requires At(w, b) == First(request)
    ensures var chosen := Step(Step(w, FirstEnds(b, Failed(f), aborted)), SaveFallback(b, write, noticed));
      var w' := Step(chosen, LaunchFallback(b, late));
      var rejected := request.model == "claude-fable-5-1" && CleanRejection(FirstFailed(request, f));
      var falls := !aborted && rejected && write == Written && noticed && !late;
      && w'.log == w.log + [FirstFailed(request, f)] + (if falls then [FellBack(request)] else [])
      && (falls ==> w'.file == Some(Record(request, OPUS, Running)) && At(w', b) == Second(request))
      && (!falls ==> At(w', b).Over?) && w'.lock == w.lock
  {
  }

  /** An attempt that is over is recorded with the model that ran it, and the id
      is given back; what could not be written is written at the next poll. */
  lemma ResultIsRecorded(w: World, b: nat, request: Request, model: string, write: Write, ownerDead: bool)
    requires At(w, b) == Over(request, model) && w.lock == Some(b)
    ensures var over := Step(w, Settle(b, write));
      var record := Record(request, model, Finished);
      && (write == Written ==> over.file == Some(record)) && over.lock.None? && At(over, b).Idle?
      && b in over.settled && over.settled[b] == record && over.log == w.log
      && Step(over, Poll(b, ownerDead, Written)).file == Some(record)
  {
  }

  /** A success ends the attempt with the requested model, and the fallback's end
      with the fallback model. */
  lemma EndsAreOver(w: World, b: nat, request: Request, text: string, aborted: bool)
    ensures At(w, b) == First(request) ==>
              var w' := Step(w, FirstEnds(b, Text(text), aborted));
              At(w', b) == Over(request, request.model) && w'.log == w.log
    ensures At(w, b) == Second(request) ==> At(Step(w, SecondEnds(b)), b) == Over(request, OPUS)
  {
  }

  /** Another broker's poll marks a running claim as finished exactly when its
      owner is dead. */
  lemma OrphanIsFinished(w: World, b: nat, ownerDead: bool)
    requires b !in w.settled && !Holds(At(w, b)) && w.file.Some? && w.file.value.status == Running
    ensures var w' := Step(w, Poll(b, ownerDead, Written));
      w' == if ownerDead then w.(file := Some(w.file.value.(status := Finished))) else w
  {
  }

  // -------------------------------------------------------------- the brokers

  /** The claim file, its lock, and the brokers' own maps, updated in place. */
  class Claims {
    var file: Option<Record>
    var lock: Option<nat>
    var progress: map<nat, Progress>
    var settled: map<nat, Record>
    var log: seq<Effect>

    function State(): World
      reads this
    {
      World(file, lock, progress, settled, log)
    }

    constructor ()
      ensures State() == NEW
    {
      file, lock, progress, settled, log := None, None, map[], map[], [];
    }

    method Save(record: Record, write: Write) returns (ok: bool)
      modifies `file
      ensures State() == Put(old(State()), record, write) && ok == (write == Written)
    {
      if write != FailedBefore { file := Some(record); }
      return write == Written;
    }

    method ReleaseLock(b: nat)
      modifies `lock, `progress
      ensures State() == Release(old(State()), b)
    {
      if lock == Some(b) { lock := None; }
      progress := progress[b := Idle];
    }

    /** The first reading of the claim file by `start`. */
    method Start(b: nat, request: Request)
      modifies `progress
      ensures State() == Step(old(State()), LookUp(b, request))
    {
      if !At(State(), b).Idle? || file.Some? { return; }
      progress := progress[b := Absent(request)];
    }

    /** Taking the lock, and the second reading under it. */
    method TakeLock(b: nat)
      modifies `lock, `progress
      ensures State() == Step(old(State()), Lock(b))
    {
      var p := At(State(), b);
      if !p.Absent? { return; }
      if lock.Some? {
        progress := progress[b := Idle];
        return;
      }
      lock := Some(b);
      if file.Some? {
        ReleaseLock(b);
        return;
      }
      progress := progress[b := Owner(p.request)];
    }

    /** The claim, saved before anything is launched. */
    method Claim(b: nat, write: Write, again: Write)
      modifies this
      ensures State() == Step(old(State()), SaveClaim(b, write, again))
    {
      var p := At(State(), b);
      if !p.Owner? { return; }
      var record := Record(p.request, p.request.model, Running);
      var ok := Save(record, write);
      if !ok {
        record := record.(status := Finished);
        settled := settled[b := record];
        var _ := Save(record, again);
        ReleaseLock(b);
        return;
      }
      progress := progress[b := Claimed(p.request)];
    }

    method LaunchFirst(b: nat)
      modifies `progress, `log
      ensures State() == Step(old(State()), Launch(b))
    {
      var p := At(State(), b);
      if !p.Claimed? { return; }
      log := log + [Launched(p.request, p.request.model)];
      progress := progress[b := First(p.request)];
    }

    method EndFirst(b: nat, attempt: Attempt, aborted: bool)
      modifies `progress, `log
      ensures State() == Step(old(State()), FirstEnds(b, attempt, aborted))
    {
      var p := At(State(), b);
      if !p.First? { return; }
      var next := Over(p.request, p.request.model);
      if attempt.Failed? {
        log := log + [FirstFailed(p.request, attempt.failure)];
        if !aborted && CanFallBack(p.request.model, attempt.failure) { next := Rejected(p.request); }
      }
      progress := progress[b := next];
    }

    /** The fallback, saved and announced before it is launched. */
    method ChooseFallback(b: nat, write: Write, noticed: bool)
      modifies `progress, `file
      ensures State() == Step(old(State()), SaveFallback(b, write, noticed))
    {
      var p := At(State(), b);
      if !p.Rejected? { return; }
      var ok := Save(Record(p.request, OPUS, Running), write);
      progress := progress[b := if ok && noticed then Chosen(p.request) else Over(p.request, OPUS)];
    }

    method LaunchSecond(b: nat, aborted: bool)
      modifies `progress, `log
      ensures State() == Step(old(State()), LaunchFallback(b, aborted))
    {
      var p := At(State(), b);
      if !p.Chosen? { return; }
      if aborted {
        progress := progress[b := Over(p.request, OPUS)];
        return;
      }
      log := log + [FellBack(p.request)];
      progress := progress[b := Second(p.request)];
    }

    method EndSecond(b: nat)
      modifies `progress
      ensures State() == Step(old(State()), SecondEnds(b))
    {
      var p := At(State(), b);
      if p.Second? { progress := progress[b := Over(p.request, OPUS)]; }
    }

    method RecordResult(b: nat, write: Write)
      modifies this
      ensures State() == Step(old(State()), Settle(b, write))
    {
      var p := At(State(), b);
      if !p.Over? { return; }
      var record := Record(p.request, p.model, Finished);
      settled := settled[b := record];
      var _ := Save(record, write);
      ReleaseLock(b);
    }

    method PollClaim(b: nat, ownerDead: bool, write: Write)
      modifies `file
      ensures State() == Step(old(State()), Poll(b, ownerDead, write))
    {
      if b in settled {
        var _ := Save(settled[b], write);
        return;
      }
      if file.None? || file.value.status != Running || Holds(At(State(), b)) || !ownerDead { return; }
      var _ := Save(file.value.(status := Finished), write);
    }

    method Die(b: nat)
      modifies this
      ensures State() == Step(old(State()), Crash(b))
    {
      ReleaseLock(b);
      settled := settled - {b};
    }

    method Perform(e: Event)
      modifies this
      ensures State() == Step(old(State()), e)
    {
      match e
      case LookUp(b, request) => Start(b, request);
      case Lock(b) => TakeLock(b);
      case SaveClaim(b, write, again) => Claim(b, write, again);
      case Launch(b) => LaunchFirst(b);
      case FirstEnds(b, attempt, aborted) => EndFirst(b, attempt, aborted);
      case SaveFallback(b, write, noticed) => ChooseFallback(b, write, noticed);
      case LaunchFallback(b, aborted) => LaunchSecond(b, aborted);
      case SecondEnds(b) => EndSecond(b);
      case Settle(b, write) => RecordResult(b, write);
      case Poll(b, ownerDead, write) => PollClaim(b, ownerDead, write);
      case Crash(b) => Die(b);
    }

    /** A whole run of all the brokers. */
    method Serve(events: seq<Event>)
      modifies this
      ensures State() == Run(old(State()), events)
    {
      for i := 0 to |events|
        invariant State() == Run(old(State()), events[..i])
      {
        assert events[..i + 1][..i] == events[..i];
        Perform(events[i]);
      }
      assert events[..|events|] == events;
    }
  }
}
