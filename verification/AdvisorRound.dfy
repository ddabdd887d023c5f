/** The Claude slot of one advisor round, over every start, retry, continuation,
    crash and recovery of that round.

    A world is the round's durable files, the attempt that is alive if any, and a
    history. Every event is one durable write or one decision, so a crash may
    fall between any two. Contracts stand for the parts outside: the send
    receipt is in the request directory before a byte is delivered, a verified
    cleanup names its own generation, and a reconciliation after a crash reports
    delivery exactly when there is a receipt.
  */
module AdvisorRound {

  import opened Optional

  datatype Model = Fable | Opus

  /** A Claude slot: whether it has an answer, whether a workspace was tried,
      whether its prompt may have been delivered, whether it is contained and
      cleaned up, the generation its cleanup names, and whether it ended because
      its round was interrupted. */
  datatype Claude = Claude(
    adopted: bool, workspace: bool, prompt: bool, contained: bool, cleaned: bool, receipt: Option<nat>,
    interrupted: bool)

  datatype Journal = Journal(
    requested: bool, recovered: bool, retryCount: nat, interruptionRecovery: bool, cacheId: Option<nat>,
    claude: Option<Claude>)

  datatype Cache = Cache(id: nat, claude: Claude, retryCount: nat)

  datatype Outcome = Outcome(workspace: bool, prompt: bool, cleaned: bool, receipt: Option<nat>)

  datatype Fallback = NoFallback | ClaimedFallback | FinishedFallback(result: Claude)

  /** `dir` is the request directory, with whether a send receipt is in it. */
  datatype Disk = Disk(
    journal: Option<Journal>, cache: Option<Cache>, slot: Option<Claude>, outcome: Option<Outcome>,
    fallback: Fallback, dir: Option<bool>, lock: bool)

  datatype Stage =
    | Locked | Retired | Journaled | Ready
    | ToOpen(model: Model) | Open(model: Model) | Sent(model: Model)
    | Ended(model: Model, result: Claude, quota: bool)
    | Claimed(fable: Claude)
    | Done(result: Claude) | SlotSaved(result: Claude) | CacheWritten(result: Claude, id: nat) | Closed

  datatype Kind = First | Explicit | Automatic

  /** A live attempt: how far it has come, and what it was begun with. */
  datatype Live = Live(
    stage: Stage, kind: Kind, plan: Option<Claude>, count: nat, interruptionRecovery: bool, cacheId: Option<nat>)

  datatype Start = Start(model: Model, delivered: bool)

  datatype World = World(disk: Disk, live: Option<Live>, nextId: nat, starts: seq<Start>, continuations: nat)

  const NEW := World(Disk(None, None, None, None, NoFallback, None, false), None, 0, [], 0)

  const MAX_RETRIES := 3

  datatype Event =
    | BeginFirst
    | BeginExplicit(recoveryOnly: bool, slotValid: bool)
    | BeginAutomatic(slotValid: bool)
    | RetireOutcome
    | WriteRequested
    | PeerSaves
    | TakeSlot
    | ReadFallback
    | OpenRequest(fails: bool, interrupted: bool)
    | Send
    | End(verified: bool, persisted: bool, removed: bool, answered: bool, quota: bool, interrupted: bool,
          unknown: bool)
    | Discard(interrupted: bool)
    | AfterEnd
    | RetireFable
    | SaveSlot
    | WriteCache
    | WriteTerminal
    | Release
    | Abandon
    | Crash
    | Reconcile(launched: bool)
    | Finalize(allowResidual: bool, slotValid: bool, retainedValid: bool)

  // ------------------------------------------------------------ the decisions

  /** A saved slot may stand for the current generation. */
  predicate SameAttempt(slot: Claude, current: Claude) {
    || slot.adopted || !current.workspace
    || (current.cleaned && current.contained && current.receipt == slot.receipt && current.prompt == slot.prompt)
  }

  /** The saved slot, unless the reader of saved slots refuses it. */
  function SlotOr(slot: Option<Claude>, current: Claude, valid: bool): Claude {
    if valid && slot.Some? && slot.value.contained && SameAttempt(slot.value, current) then slot.value else current
  }

  /** Whether a retry begun with this slot runs Claude again. */
  predicate Reruns(plan: Claude) {
    !plan.adopted && !plan.prompt
  }

  predicate WillRun(l: Live) {
    l.plan.None? || Reruns(l.plan.value)
  }

  function Max(a: nat, b: nat): nat {
    if a < b then b else a
  }

  /** The explicit retry of a finished round, from its response cache, or of a
      recovered one, from its journal and slots. */
  function ExplicitPlan(d: Disk, recoveryOnly: bool, slotValid: bool): (r: Option<Live>)
  {
    if d.journal.None? || d.journal.value.claude.None? then None
    else
      var j := d.journal.value;
      if !j.recovered then
        if d.cache.None? || j.cacheId != Some(d.cache.value.id) then None
        else if !d.cache.value.claude.contained || !j.claude.value.contained then None
        else
          var count := Max(j.retryCount, d.cache.value.retryCount);
          if count >= MAX_RETRIES && (j.interruptionRecovery || !recoveryOnly) then None
          else
            Some(Live(Locked, Explicit, Some(d.cache.value.claude.(receipt := j.claude.value.receipt)),
                      if recoveryOnly && !j.interruptionRecovery then 0 else count + 1, j.interruptionRecovery,
                      j.cacheId))
      else if j.requested || j.retryCount >= MAX_RETRIES || !j.claude.value.contained then None
      else
        Some(Live(Locked, Explicit, Some(SlotOr(d.slot, j.claude.value, slotValid)), j.retryCount + 1, true, None))
  }

  /** The automatic continuation of a contained, interrupted, unsent slot. */
  function AutomaticPlan(d: Disk, slotValid: bool): (r: Option<Live>)
  {
    if d.journal.None? || d.journal.value.claude.None? then None
    else
      var j := d.journal.value;
      var claude := SlotOr(d.slot, j.claude.value, slotValid);
      if !j.recovered || j.requested || j.retryCount >= MAX_RETRIES then None
      else if claude.adopted || !claude.contained || claude.prompt || !claude.interrupted then None
      else Some(Live(Locked, Automatic, Some(claude), j.retryCount + 1, true, None))
  }

  // ------------------------------------------------------------------ the run

  function To(w: World, stage: Stage): World
    requires w.live.Some?
  {
    w.(live := Some(w.live.value.(stage := stage)))
  }

  function GiveUp(w: World): World {
    w.(disk := w.disk.(lock := false), live := None)
  }

  function Begin(w: World, l: Option<Live>): World {
    if w.disk.lock || w.live.Some? || l.None? then w
    else w.(disk := w.disk.(lock := true), live := l)
  }

  function RetireStep(w: World, l: Live): World
    requires w.live == Some(l)
  {
    var d := w.disk;
    if l.plan.Some? && (d.journal.None? || d.journal.value.requested) then GiveUp(w)
    else if l.plan.None? || !Reruns(l.plan.value) || d.outcome.None? then To(w, Retired)
    else if (d.outcome.value.workspace && !d.outcome.value.cleaned) || d.outcome.value.receipt != l.plan.value.receipt
    then GiveUp(w)
    else To(w.(disk := d.(outcome := None)), Retired)
  }

  function RequestStep(w: World, l: Live): World
    requires w.live == Some(l)
  {
    var d := w.disk;
    if l.plan.None? then
      if d.journal.Some? then GiveUp(w)
      else To(w.(disk := d.(journal := Some(Journal(true, false, 0, false, None, None)))), Journaled)
    else if d.journal.None? then GiveUp(w)
    else
      var kept := if Reruns(l.plan.value) then None else d.journal.value.claude;
      To(w.(disk := d.(journal := Some(Journal(true, false, l.count, l.interruptionRecovery, l.cacheId, kept))),
            continuations := w.continuations + if l.kind == Automatic then 1 else 0), Journaled)
  }

  /** What a peer's save writes for the Claude slot at each stage. */
  function InMemory(l: Live): Option<Claude> {
    match l.stage
    case Journaled => l.plan
    case SlotSaved(c) => Some(c)
    case CacheWritten(c, _) => Some(c)
    case _ => None
  }

  function NotStarted(interrupted: bool): Claude {
    Claude(false, false, false, true, false, None, interrupted)
  }

  function Unconfirmed(): Claude {
    Claude(false, false, true, false, false, None, true)
  }

  function OpenStep(w: World, l: Live, fails: bool, interrupted: bool): World
    requires w.live == Some(l) && l.stage.ToOpen?
  {
    if fails || w.disk.dir.Some? then To(w, Ended(l.stage.model, NotStarted(interrupted), false))
    else
      To(w.(disk := w.disk.(dir := Some(false)), starts := w.starts + [Start(l.stage.model, false)]),
         Open(l.stage.model))
  }

  function SendStep(w: World, l: Live): World
    requires w.live == Some(l) && l.stage.Open? && w.starts != []
  {
    var last := |w.starts| - 1;
    To(w.(disk := w.disk.(dir := Some(true)), starts := w.starts[last := w.starts[last].(delivered := true)]),
       Sent(l.stage.model))
  }

  /** The end of a run: a verified cleanup names this generation, and the
      request directory goes only after the outcome is durable. A send that was
      never confirmed nor refused counts as a possible delivery. */
  function EndStep(w: World, l: Live, e: Event): World
    requires w.live == Some(l) && (l.stage.Open? || l.stage.Sent?) && e.End?
  {
    var prompt := l.stage.Sent? || e.unknown;
    var receipt := if e.verified then Some(w.nextId) else None;
    var stored := e.verified && e.persisted && w.disk.outcome.None?;
    var adopted := e.answered && l.stage.Sent? && e.verified;
    var result := Claude(adopted, true, prompt, e.verified, e.verified, receipt, e.interrupted);
    var d := w.disk.(outcome := if stored then Some(Outcome(true, prompt, true, receipt)) else w.disk.outcome,
                     dir := if stored && e.removed then None else w.disk.dir);
    To(w.(disk := d, nextId := w.nextId + 1), Ended(l.stage.model, result, e.quota && l.stage.Sent?))
  }

  predicate FallsBack(model: Model, c: Claude, quota: bool) {
    model == Fable && quota && c.cleaned && !c.adopted && c.contained
  }

  function Finish(w: World, l: Live): World
    requires w.live == Some(l) && l.stage.Ended?
  {
    var c := l.stage.result;
    if FallsBack(l.stage.model, c, l.stage.quota) then
      To(w.(disk := w.disk.(fallback := ClaimedFallback)), Claimed(c))
    else if l.stage.model == Opus then To(w.(disk := w.disk.(fallback := FinishedFallback(c))), Done(c))
    else To(w, Done(c))
  }

  function RetireFableStep(w: World, l: Live): World
    requires w.live == Some(l) && l.stage.Claimed?
  {
    var d := w.disk;
    if d.outcome.None? then To(w, ToOpen(Opus))
    else if (d.outcome.value.workspace && !d.outcome.value.cleaned)
      || d.outcome.value.receipt != l.stage.fable.receipt
    then GiveUp(w)
    else To(w.(disk := d.(outcome := None)), ToOpen(Opus))
  }

  function TerminalStep(w: World, l: Live): World
    requires w.live == Some(l) && l.stage.CacheWritten?
  {
    var j := Journal(false, false, l.count, l.interruptionRecovery, Some(l.stage.id), Some(l.stage.result));
    To(w.(disk := w.disk.(journal := Some(j))), Closed)
  }

  /** The host closes what a dead attempt left of its workspace. */
  function ReconcileStep(w: World, launched: bool): World {
    var d := w.disk;
    if w.live.Some? || d.dir.None? then w
    else
      var found := if launched || d.dir.value then Outcome(true, d.dir.value, true, Some(w.nextId))
                   else Outcome(false, false, false, None);
      w.(disk := d.(outcome := if d.outcome.Some? then d.outcome else Some(found), dir := None), nextId := w.nextId + 1)
  }

  /** The slot the finalizer makes of what a dead attempt left. */
  function Recovered(d: Disk): Claude {
    if d.outcome.Some? then
      var o := d.outcome.value;
      Claude(false, o.workspace, o.prompt, !o.workspace || o.cleaned, o.cleaned, o.receipt, true)
    else if d.dir.Some? then Claude(false, true, d.dir.value, false, false, None, true)
    else NotStarted(true)
  }

  function FinalClaude(d: Disk, j: Journal, slotValid: bool, retainedValid: bool): Claude {
    var current := Recovered(d);
    if slotValid && d.slot.Some? && d.slot.value.contained && SameAttempt(d.slot.value, current) then d.slot.value
    else if retainedValid && j.claude.Some? && !j.claude.value.adopted && SameAttempt(j.claude.value, current)
    then j.claude.value
    else current
  }

  function FinalizeStep(w: World, e: Event): World
    requires e.Finalize?
  {
    var d := w.disk;
    if w.live.Some? || !d.lock || d.journal.None? || !d.journal.value.requested then w
    else if d.outcome.None? && d.dir.Some? && !e.allowResidual then w
    else
      var j := d.journal.value;
      var claude := FinalClaude(d, j, e.slotValid, e.retainedValid);
      w.(disk := d.(journal := Some(j.(requested := false, recovered := true, claude := Some(claude))), lock := false))
  }

  function Step(w: World, e: Event): World {
    match e
    case BeginFirst => if w.disk.journal.Some? then w else Begin(w, Some(Live(Locked, First, None, 0, false, None)))
    case BeginExplicit(recoveryOnly, slotValid) => Begin(w, ExplicitPlan(w.disk, recoveryOnly, slotValid))
    case BeginAutomatic(slotValid) => Begin(w, AutomaticPlan(w.disk, slotValid))
    case Reconcile(launched) => ReconcileStep(w, launched)
    case Finalize(_, _, _) => FinalizeStep(w, e)
    case Abandon => if w.live.None? then w else GiveUp(w)
    case Crash => w.(live := None)
    case _ => if w.live.None? then w else Advance(w, w.live.value, e)
  }

  /** One step of the live attempt, when it is the next one. */
  function Advance(w: World, l: Live, e: Event): World
    requires w.live == Some(l)
  {
    match e
    case RetireOutcome => if l.stage.Locked? then RetireStep(w, l) else w
    case WriteRequested => if l.stage.Retired? then RequestStep(w, l) else w
    case PeerSaves =>
      if l.stage.Locked? || l.stage.Retired? then w else w.(disk := w.disk.(slot := InMemory(l)))
    case TakeSlot =>
      if !l.stage.Journaled? then w
      else if WillRun(l) then To(w.(disk := w.disk.(slot := None)), Ready)
      else To(w, Done(l.plan.value))
    case ReadFallback =>
      if !l.stage.Ready? then w
      else
        To(w, match w.disk.fallback
              case NoFallback => ToOpen(Fable)
              case ClaimedFallback => Done(Unconfirmed())
              case FinishedFallback(c) => Done(c))
    case OpenRequest(fails, interrupted) => if l.stage.ToOpen? then OpenStep(w, l, fails, interrupted) else w
    case Send => if l.stage.Open? && w.starts != [] then SendStep(w, l) else w
    case End(_, _, _, _, _, _, _) => if l.stage.Open? || l.stage.Sent? then EndStep(w, l, e) else w
    case Discard(interrupted) =>
      if l.stage.Open?
      then To(w.(disk := w.disk.(dir := None)), Ended(l.stage.model, NotStarted(interrupted), false))
      else w
    case AfterEnd => if l.stage.Ended? then Finish(w, l) else w
    case RetireFable => if l.stage.Claimed? then RetireFableStep(w, l) else w
    case SaveSlot =>
      if !l.stage.Done? then w
      else To(w.(disk := w.disk.(slot := Some(l.stage.result))), SlotSaved(l.stage.result))
    case WriteCache =>
      if !l.stage.SlotSaved? then w
      else
        To(w.(disk := w.disk.(cache := Some(Cache(w.nextId, l.stage.result, l.count))), nextId := w.nextId + 1),
           CacheWritten(l.stage.result, w.nextId))
    case WriteTerminal => if l.stage.CacheWritten? then TerminalStep(w, l) else w
    case Release => if l.stage.Closed? then GiveUp(w) else w
    case _ => w
  }

  function Run(events: seq<Event>): World
    decreases |events|
  {
    if events == [] then NEW else Step(Run(events[..|events| - 1]), events[|events| - 1])
  }

  // ----------------------------------------------------------- the invariant

  ghost predicate Delivered(starts: seq<Start>) {
    exists i :: 0 <= i < |starts| && starts[i].delivered
  }

  ghost predicate Tried(starts: seq<Start>, m: Model) {
    exists i :: 0 <= i < |starts| && starts[i].model == m
  }

  /** Nothing is started after a delivery but the one fallback. */
  ghost predicate Once(starts: seq<Start>) {
    forall i, j :: 0 <= i < j < |starts| ==> MayPrecede(starts[i], starts[j])
  }

  predicate MayPrecede(a: Start, b: Start) {
    a.model == Fable && (b.model == Fable ==> !a.delivered)
  }

  /** A delivery is on record: a fallback was claimed, its receipt is still in
      the request directory, or the cleanup outcome says so. */
  predicate OnRecord(d: Disk) {
    d.fallback != NoFallback || d.dir == Some(true) || (d.outcome.Some? && d.outcome.value.prompt)
  }

  /** A slot of the generation that the outcome closed agrees with it. */
  predicate Honest(c: Claude, o: Option<Outcome>) {
    o.Some? && o.value.prompt && c.receipt == o.value.receipt ==> c.prompt
  }

  predicate Older(c: Claude, nextId: nat) {
    c.receipt.Some? ==> c.receipt.value < nextId
  }

  predicate Fits(c: Option<Claude>, o: Option<Outcome>, nextId: nat) {
    c.Some? ==> Honest(c.value, o) && Older(c.value, nextId)
  }

  function JournalClaude(d: Disk): Option<Claude> {
    if d.journal.Some? then d.journal.value.claude else None
  }

  function CacheClaude(d: Disk): Option<Claude> {
    if d.cache.Some? then Some(d.cache.value.claude) else None
  }

  function FallbackClaude(d: Disk): Option<Claude> {
    if d.fallback.FinishedFallback? then Some(d.fallback.result) else None
  }

  function StageClaude(s: Stage): Option<Claude> {
    match s
    case Ended(_, c, _) => Some(c)
    case Claimed(c) => Some(c)
    case Done(c) => Some(c)
    case SlotSaved(c) => Some(c)
    case CacheWritten(c, _) => Some(c)
    case _ => None
  }

  ghost predicate AllHonest(d: Disk, nextId: nat) {
    && Fits(JournalClaude(d), d.outcome, nextId) && Fits(CacheClaude(d), d.outcome, nextId)
    && Fits(d.slot, d.outcome, nextId) && Fits(FallbackClaude(d), d.outcome, nextId)
    && (d.cache.Some? ==> d.cache.value.id < nextId)
    && (d.journal.Some? && d.journal.value.cacheId.Some? ==> d.journal.value.cacheId.value < nextId)
    && (d.outcome.Some? ==> OutcomeOk(d.outcome.value, d.dir, nextId))
  }

  predicate OutcomeOk(o: Outcome, dir: Option<bool>, nextId: nat) {
    && (o.prompt ==> o.receipt.Some?) && (o.receipt.Some? ==> o.receipt.value < nextId)
    && (dir == Some(true) ==> o.prompt)
  }

  /** A journal that names the cache on disk says of Claude what the cache says. */
  predicate CacheAgrees(d: Disk) {
    d.journal.Some? && d.cache.Some? && d.journal.value.cacheId == Some(d.cache.value.id) && !d.journal.value.recovered
    && d.journal.value.claude.Some?
    ==> d.journal.value.claude.value.prompt == d.cache.value.claude.prompt
  }

  /** Where the live attempt stands with respect to the files. */
  ghost predicate LiveOk(d: Disk, l: Live, nextId: nat, starts: seq<Start>) {
    && d.lock && Fits(l.plan, d.outcome, nextId) && Fits(StageClaude(l.stage), d.outcome, nextId)
    && (l.plan.None? <==> l.kind == First) && (l.stage.Locked? || l.stage.Retired? || d.journal.Some?)
    && match l.stage
       case Locked => (l.cacheId.Some? ==> PlanFromCache(d, l)) && (l.plan.None? ==> d.journal.None?)
       case Retired => (l.cacheId.Some? ==> PlanFromCache(d, l)) && (WillRun(l) ==> d.outcome.None?)
       case Journaled => WillRun(l) ==> d.outcome.None?
       case Ready => d.outcome.None?
       case ToOpen(m) => d.outcome.None? && Opens(m, d.fallback, starts)
       case Open(m) => d.outcome.None? && d.dir == Some(false) && Runs(m, d.fallback, starts)
       case Sent(m) => d.outcome.None? && d.dir == Some(true) && Runs(m, d.fallback, starts)
       case Ended(m, _, _) => Ends(m, d.fallback, starts)
       case Claimed(_) => d.fallback == ClaimedFallback && !Tried(starts, Opus)
       case Done(_) => true
       case SlotSaved(_) => true
       case CacheWritten(c, id) => d.cache.Some? && d.cache.value.id == id && d.cache.value.claude == c
       case Closed => true
  }

  predicate PlanFromCache(d: Disk, l: Live) {
    d.journal.Some? && d.journal.value.cacheId == l.cacheId && !d.journal.value.recovered
  }

  ghost predicate Opens(m: Model, f: Fallback, starts: seq<Start>) {
    if m == Fable then f == NoFallback else f == ClaimedFallback && !Tried(starts, Opus)
  }

  ghost predicate Runs(m: Model, f: Fallback, starts: seq<Start>) {
    && starts != [] && starts[|starts| - 1].model == m
    && (if m == Fable then f == NoFallback else f == ClaimedFallback)
  }

  ghost predicate Ends(m: Model, f: Fallback, starts: seq<Start>) {
    if m == Fable then f == NoFallback && !Tried(starts, Opus) else f == ClaimedFallback
  }

  /** Before the first start there is nothing at all. */
  predicate Pristine(d: Disk) {
    d.cache.None? && d.slot.None? && d.outcome.None? && d.fallback == NoFallback && d.dir.None?
  }

  ghost predicate Inv(w: World) {
    && AllHonest(w.disk, w.nextId) && CacheAgrees(w.disk) && Once(w.starts)
    && (Delivered(w.starts) ==> OnRecord(w.disk))
    && (Tried(w.starts, Opus) ==> w.disk.fallback != NoFallback)
    && (w.disk.journal.None? ==> Pristine(w.disk) && w.starts == [])
    && (w.live.Some? ==> LiveOk(w.disk, w.live.value, w.nextId, w.starts))
  }

  lemma BeginKeepsInv(w: World, e: Event)
    requires Inv(w) && (e.BeginFirst? || e.BeginExplicit? || e.BeginAutomatic?)
    ensures Inv(Step(w, e))
  {
  }

  lemma GiveUpKeepsInv(w: World)
    requires Inv(w)
    ensures Inv(GiveUp(w))
  {
  }

  /** A retirement that goes through removes only an outcome of a generation that
      delivered nothing. */
  lemma RetiredIsUnsent(w: World, l: Live)
    requires Inv(w) && w.live == Some(l) && w.disk.outcome.Some? && l.plan.Some? && Reruns(l.plan.value)
    requires w.disk.outcome.value.receipt == l.plan.value.receipt
    ensures !w.disk.outcome.value.prompt
  {
  }

  lemma RetireOutcomeKeepsInv(w: World, e: Event)
    requires Inv(w) && e.RetireOutcome?
    ensures Inv(Step(w, e))
  {
    if w.live.Some? && w.live.value.stage.Locked? {
      var l := w.live.value;
      if Step(w, e) == GiveUp(w) {
        GiveUpKeepsInv(w);
      } else if l.plan.Some? && Reruns(l.plan.value) && w.disk.outcome.Some? {
        RetiredIsUnsent(w, l);
      }
    }
  }

  lemma WriteRequestedKeepsInv(w: World, e: Event)
    requires Inv(w) && e.WriteRequested?
    ensures Inv(Step(w, e))
  {
  }

  lemma PeerSavesKeepsInv(w: World, e: Event)
    requires Inv(w) && e.PeerSaves?
    ensures Inv(Step(w, e))
  {
  }

  lemma TakeSlotKeepsInv(w: World, e: Event)
    requires Inv(w) && e.TakeSlot?
    ensures Inv(Step(w, e))
  {
  }

  lemma ReadFallbackKeepsInv(w: World, e: Event)
    requires Inv(w) && e.ReadFallback?
    ensures Inv(Step(w, e))
  {
  }

  lemma OpenedKeepsInv(w: World, l: Live)
    requires Inv(w) && w.live == Some(l) && l.stage.ToOpen? && w.disk.dir.None?
    ensures Inv(OpenStep(w, l, false, false))
  {
    var w' := OpenStep(w, l, false, false);
    assert Delivered(w'.starts) ==> Delivered(w.starts);
    assert Once(w'.starts);
  }

  lemma OpenRequestKeepsInv(w: World, e: Event)
    requires Inv(w) && e.OpenRequest?
    ensures Inv(Step(w, e))
  {
    if w.live.Some? && w.live.value.stage.ToOpen? && !e.fails && w.disk.dir.None? {
      OpenedKeepsInv(w, w.live.value);
    }
  }

  lemma SendKeepsInv(w: World, e: Event)
    requires Inv(w) && e.Send?
    ensures Inv(Step(w, e))
  {
  }

  lemma EndKeepsInv(w: World, e: Event)
    requires Inv(w) && e.End?
    ensures Inv(Step(w, e))
  {
  }

  lemma DiscardKeepsInv(w: World, e: Event)
    requires Inv(w) && e.Discard?
    ensures Inv(Step(w, e))
  {
  }

  lemma EndedKeepsInv(w: World, l: Live)
    requires Inv(w) && w.live == Some(l) && l.stage.Ended?
    ensures Inv(Finish(w, l))
  {
    var w' := Finish(w, l);
    assert AllHonest(w'.disk, w'.nextId);
    assert Delivered(w'.starts) ==> OnRecord(w'.disk);
  }

  lemma AfterEndKeepsInv(w: World, e: Event)
    requires Inv(w) && e.AfterEnd?
    ensures Inv(Step(w, e))
  {
    if w.live.Some? && w.live.value.stage.Ended? { EndedKeepsInv(w, w.live.value); }
  }

  lemma RetireFableKeepsInv(w: World, e: Event)
    requires Inv(w) && e.RetireFable?
    ensures Inv(Step(w, e))
  {
  }

  lemma SaveSlotKeepsInv(w: World, e: Event)
    requires Inv(w) && e.SaveSlot?
    ensures Inv(Step(w, e))
  {
  }

  lemma WriteCacheKeepsInv(w: World, e: Event)
    requires Inv(w) && e.WriteCache?
    ensures Inv(Step(w, e))
  {
  }

  lemma WriteTerminalKeepsInv(w: World, e: Event)
    requires Inv(w) && e.WriteTerminal?
    ensures Inv(Step(w, e))
  {
  }

  lemma ReleaseKeepsInv(w: World, e: Event)
    requires Inv(w) && e.Release?
    ensures Inv(Step(w, e))
  {
  }

  lemma CrashKeepsInv(w: World, e: Event)
    requires Inv(w) && (e.Abandon? || e.Crash?)
    ensures Inv(Step(w, e))
  {
  }

  lemma ReconcileKeepsInv(w: World, e: Event)
    requires Inv(w) && e.Reconcile?
    ensures Inv(Step(w, e))
  {
  }

  lemma FinalizeKeepsInv(w: World, e: Event)
    requires Inv(w) && e.Finalize?
    ensures Inv(Step(w, e))
  {
  }

  lemma LiveStepKeepsInv(w: World, e: Event)
    requires Inv(w) && !e.BeginFirst? && !e.BeginExplicit? && !e.BeginAutomatic? && !e.Reconcile? && !e.Finalize?
    ensures Inv(Step(w, e))
  {
    match e
    case RetireOutcome => RetireOutcomeKeepsInv(w, e);
    case WriteRequested => WriteRequestedKeepsInv(w, e);
    case PeerSaves => PeerSavesKeepsInv(w, e);
    case TakeSlot => TakeSlotKeepsInv(w, e);
    case ReadFallback => ReadFallbackKeepsInv(w, e);
    case OpenRequest(_, _) => OpenRequestKeepsInv(w, e);
    case Send => SendKeepsInv(w, e);
    case End(_, _, _, _, _, _, _) => EndKeepsInv(w, e);
    case Discard(_) => DiscardKeepsInv(w, e);
    case AfterEnd => AfterEndKeepsInv(w, e);
    case RetireFable => RetireFableKeepsInv(w, e);
    case SaveSlot => SaveSlotKeepsInv(w, e);
    case WriteCache => WriteCacheKeepsInv(w, e);
    case WriteTerminal => WriteTerminalKeepsInv(w, e);
    case Release => ReleaseKeepsInv(w, e);
    case _ => CrashKeepsInv(w, e);
  }

  lemma {:induction false} RunKeepsInv(events: seq<Event>)
    ensures Inv(Run(events))
    decreases |events|
  {
    if events != [] {
      var before, e := Run(events[..|events| - 1]), events[|events| - 1];
      RunKeepsInv(events[..|events| - 1]);
      if e.BeginFirst? || e.BeginExplicit? || e.BeginAutomatic? {
        BeginKeepsInv(before, e);
      } else if e.Reconcile? {
        ReconcileKeepsInv(before, e);
      } else if e.Finalize? {
        FinalizeKeepsInv(before, e);
      } else {
        LiveStepKeepsInv(before, e);
      }
    }
  }

  /** Once a Claude run of this round may have delivered its prompt, no start,
      retry, retirement or continuation runs Claude for the round again: the only
      run that can follow is the one quota fallback to the other model, and it
      comes at most once. */
  lemma NeverRunAfterDelivery(events: seq<Event>, i: nat, j: nat)
    requires i < j < |Run(events).starts|
    ensures var starts := Run(events).starts;
      && starts[i].model == Fable
      && (starts[i].delivered ==> starts[j].model == Opus && j == |starts| - 1)
  {
    RunKeepsInv(events);
    NothingAfterDelivery(Run(events).starts, i, j);
  }

  lemma NothingAfterDelivery(starts: seq<Start>, i: nat, j: nat)
    requires Once(starts) && i < j < |starts|
    ensures starts[i].model == Fable && (starts[i].delivered ==> starts[j].model == Opus && j == |starts| - 1)
  {
    assert MayPrecede(starts[i], starts[j]);
    if j < |starts| - 1 { assert MayPrecede(starts[j], starts[j + 1]); }
  }

  /** So the prompt of each model is delivered at most once. */
  lemma DeliveredAtMostOnce(events: seq<Event>, i: nat, j: nat)
    requires i < j < |Run(events).starts|
    requires Run(events).starts[i].delivered && Run(events).starts[j].delivered
    ensures Run(events).starts[i].model == Fable && Run(events).starts[j].model == Opus
  {
    NeverRunAfterDelivery(events, i, j);
  }

  /** And in every world a delivery has left a trace that stops the next run. */
  lemma DeliveryStaysOnRecord(events: seq<Event>)
    ensures Delivered(Run(events).starts) ==> OnRecord(Run(events).disk)
  {
    RunKeepsInv(events);
  }

  // ------------------------------------------------ what an attempt comes to

  /** What the end of a run makes of it: an answer only when one was obtained from
      a prompt that was sent and its workspace was closed and verified; a possible
      delivery when it was sent, or may have been; contained when verified. */
  predicate Results(sent: bool, e: Event, c: Claude)
    requires e.End?
  {
    && (c.adopted <==> e.answered && e.verified && sent) && (c.prompt <==> sent || e.unknown)
    && c.workspace && (c.contained <==> e.verified) && (c.cleaned <==> e.verified)
    && (c.receipt.Some? <==> e.verified) && c.interrupted == e.interrupted
  }

  lemma EndResults(w: World, e: Event)
    requires w.live.Some? && (w.live.value.stage.Open? || w.live.value.stage.Sent?) && e.End?
    ensures var sent, w' := w.live.value.stage.Sent?, Step(w, e);
      && w'.live.Some? && w'.live.value == w.live.value.(stage := w'.live.value.stage)
      && w'.live.value.stage.Ended? && w'.live.value.stage.model == w.live.value.stage.model
      && Results(sent, e, w'.live.value.stage.result) && (w'.live.value.stage.quota <==> e.quota && sent)
      && w'.starts == w.starts && w'.disk.journal == w.disk.journal && w'.disk.fallback == w.disk.fallback
      && (e.verified && e.persisted && w.disk.outcome.None? ==>
            w'.disk.outcome == Some(Outcome(true, sent || e.unknown, true, w'.live.value.stage.result.receipt)))
  {
  }

  /** The round closed with this slot: in the journal, in its response cache, among
      the saved slots, and as the fallback's result when it was one. */
  predicate ClosedWith(w: World, c: Claude, model: Model) {
    && w.live.None? && !w.disk.lock
    && w.disk.journal.Some? && !w.disk.journal.value.requested && !w.disk.journal.value.recovered
    && w.disk.journal.value.claude == Some(c)
    && w.disk.cache.Some? && w.disk.cache.value.claude == c
    && w.disk.journal.value.cacheId == Some(w.disk.cache.value.id)
    && w.disk.slot == Some(c) && (model == Opus ==> w.disk.fallback == FinishedFallback(c))
  }

  /** The last steps of an attempt that nothing interrupts. */
  function Close(w: World): World {
    Step(Step(Step(Step(w, SaveSlot), WriteCache), WriteTerminal), Release)
  }

  lemma SaveAndCache(w: World, c: Claude)
    requires w.live.Some? && w.live.value.stage == Done(c)
    ensures var w' := Step(Step(w, SaveSlot), WriteCache);
      && w'.live.Some? && w'.live.value == w.live.value.(stage := CacheWritten(c, w.nextId))
      && w'.disk.slot == Some(c) && w'.disk.cache == Some(Cache(w.nextId, c, w.live.value.count))
      && w'.disk.fallback == w.disk.fallback && w'.starts == w.starts
  {
  }

  lemma TerminalAndRelease(w: World, c: Claude, id: nat)
    requires w.live.Some? && w.live.value.stage == CacheWritten(c, id)
    ensures var w', l := Step(Step(w, WriteTerminal), Release), w.live.value;
      && w'.live.None? && w'.disk == w.disk.(lock := false, journal := w'.disk.journal) && w'.starts == w.starts
      && w'.disk.journal == Some(Journal(false, false, l.count, l.interruptionRecovery, Some(id), Some(c)))
  {
  }

  lemma DoneCloses(w: World, c: Claude)
    requires w.live.Some? && w.live.value.stage == Done(c)
    ensures var w' := Close(w);
      ClosedWith(w', c, Fable) && w'.starts == w.starts && w'.disk.fallback == w.disk.fallback
      && w'.disk.journal.value.retryCount == w.live.value.count
  {
    SaveAndCache(w, c);
    TerminalAndRelease(Step(Step(w, SaveSlot), WriteCache), c, w.nextId);
  }

  lemma EndedIsDone(w: World)
    requires w.live.Some? && w.live.value.stage.Ended?
    requires var s := w.live.value.stage; !FallsBack(s.model, s.result, s.quota)
    ensures var w', s := Step(w, AfterEnd), w.live.value.stage;
      && w'.live.Some? && w'.live.value == w.live.value.(stage := Done(s.result)) && w'.starts == w.starts
      && (s.model == Opus ==> w'.disk.fallback == FinishedFallback(s.result))
  {
  }

  /** A run that ends without the quota fallback closes the round with what it came
      to, whatever that is. */
  lemma RunCloses(w: World, e: Event)
    requires w.live.Some? && (w.live.value.stage.Open? || w.live.value.stage.Sent?) && e.End?
    requires w.live.value.stage.model == Fable && e.quota && e.verified && w.live.value.stage.Sent? ==> e.answered
    ensures var w' := Close(Step(Step(w, e), AfterEnd));
      && w'.disk.journal.Some? && w'.disk.journal.value.claude.Some?
      && var c := w'.disk.journal.value.claude.value;
      && Results(w.live.value.stage.Sent?, e, c) && ClosedWith(w', c, w.live.value.stage.model)
      && w'.starts == w.starts
  {
    EndResults(w, e);
    var ended := Step(w, e);
    EndedIsDone(ended);
    DoneCloses(Step(ended, AfterEnd), ended.live.value.stage.result);
  }

  /** A first run that its quota rejected, cleanly and without an answer, is
      followed by the fallback: claimed on disk, and about to be opened. */
  lemma QuotaFallsBack(w: World, e: Event)
    requires w.live.Some? && w.live.value.stage == Sent(Fable) && w.disk.outcome.None?
    requires e.End? && e.quota && e.verified && !e.answered
    ensures var w' := Step(Step(Step(w, e), AfterEnd), RetireFable);
      && w'.live.Some? && w'.live.value.stage == ToOpen(Opus) && w'.disk.fallback == ClaimedFallback
      && w'.disk.outcome.None?
  {
  }

  /** A retirement goes through exactly when there is nothing to retire, or a clean
      outcome of the generation it is for; otherwise the attempt gives up and the
      outcome stays. So for a retry, and so before the fallback is opened. */
  predicate RetiresOwn(outcome: Option<Outcome>, receipt: Option<nat>) {
    outcome.Some? ==>
      (outcome.value.workspace ==> outcome.value.cleaned) && outcome.value.receipt == receipt
  }

  lemma RetiresOnlyItsOwn(w: World)
    requires w.live.Some?
    ensures var l, w' := w.live.value, Step(w, RetireFable);
      l.stage.Claimed? ==>
        if RetiresOwn(w.disk.outcome, l.stage.fable.receipt)
        then w'.live == Some(l.(stage := ToOpen(Opus))) && w'.disk == w.disk.(outcome := None)
        else w' == GiveUp(w)
    ensures var l, w' := w.live.value, Step(w, RetireOutcome);
      l.stage.Locked? && l.plan.Some? && Reruns(l.plan.value) && w.disk.journal.Some? && !w.disk.journal.value.requested
      ==> if RetiresOwn(w.disk.outcome, l.plan.value.receipt)
          then w'.live == Some(l.(stage := Retired)) && w'.disk == w.disk.(outcome := None)
          else w' == GiveUp(w)
  {
  }

  /** The first steps of an attempt, up to the requested journal; and from there to
      the prompt, when nothing fails. */
  function ToJournal(w: World): World {
    Step(Step(w, RetireOutcome), WriteRequested)
  }

  function ToPrompt(w: World): World {
    Step(Step(Step(Step(w, TakeSlot), ReadFallback), OpenRequest(false, false)), Send)
  }

  lemma JournaledRuns(w: World)
    requires w.live.Some? && w.live.value.stage.Journaled? && WillRun(w.live.value)
    requires w.disk.fallback == NoFallback && w.disk.dir.None?
    ensures var w' := ToPrompt(w);
      && w'.live.Some? && w'.live.value.stage == Sent(Fable) && w'.starts == w.starts + [Start(Fable, true)]
      && w'.disk.journal == w.disk.journal && w'.disk.dir == Some(true) && w'.disk.lock == w.disk.lock
  {
    var ready := Step(w, TakeSlot);
    var opening := Step(ready, ReadFallback);
    assert ready.live.value.stage == Ready && ready.disk.dir.None? && ready.disk.fallback == NoFallback;
    assert opening.live.value.stage == ToOpen(Fable) && opening.disk == ready.disk && opening.starts == w.starts;
    OpenedIsSent(opening);
  }

  lemma OpenedIsSent(w: World)
    requires w.live.Some? && w.live.value.stage.ToOpen? && w.disk.dir.None?
    ensures var w', m := Step(Step(w, OpenRequest(false, false)), Send), w.live.value.stage.model;
      && w'.live.Some? && w'.live.value.stage == Sent(m) && w'.starts == w.starts + [Start(m, true)]
      && w'.disk == w.disk.(dir := Some(true))
  {
  }

  /** A world in which nothing of an earlier run stands in the way of a retry. */
  predicate Clear(d: Disk, plan: Claude) {
    && d.fallback == NoFallback && d.dir.None?
    && (d.outcome.Some? ==>
          (d.outcome.value.workspace ==> d.outcome.value.cleaned) && d.outcome.value.receipt == plan.receipt)
  }

  /** An attempt whose plan has no answer and sent nothing runs Claude, under a
      requested journal that counts it, once its outcome is retired. */
  lemma PlanRuns(w: World)
    requires w.live.Some? && w.live.value.stage.Locked? && w.live.value.plan.Some?
    requires Reruns(w.live.value.plan.value) && Clear(w.disk, w.live.value.plan.value)
    requires w.disk.journal.Some? && !w.disk.journal.value.requested
    ensures var w' := ToPrompt(ToJournal(w));
      && w'.live.Some? && w'.live.value.stage == Sent(Fable) && w'.starts == w.starts + [Start(Fable, true)]
      && w'.disk.journal.Some? && w'.disk.journal.value.requested && w'.disk.dir == Some(true)
      && w'.disk.journal.value.retryCount == w.live.value.count
  {
    PlanIsJournaled(w);
    JournaledRuns(ToJournal(w));
  }

  lemma PlanIsJournaled(w: World)
    requires w.live.Some? && w.live.value.stage.Locked? && w.live.value.plan.Some?
    requires Reruns(w.live.value.plan.value) && Clear(w.disk, w.live.value.plan.value)
    requires w.disk.journal.Some? && !w.disk.journal.value.requested
    ensures var w', l := ToJournal(w), w.live.value;
      && w'.live == Some(l.(stage := Journaled)) && w'.starts == w.starts
      && w'.disk.journal == Some(Journal(true, false, l.count, l.interruptionRecovery, l.cacheId, None))
      && w'.disk.fallback == w.disk.fallback && w'.disk.dir == w.disk.dir && w'.disk.outcome.None?
  {
  }

  /** The first start of a round sends the prompt. */
  lemma FirstStartRuns()
    ensures var w' := ToPrompt(ToJournal(Step(NEW, BeginFirst)));
      && w'.live.Some? && w'.live.value.stage == Sent(Fable) && w'.starts == [Start(Fable, true)]
      && w'.disk.journal.Some? && w'.disk.journal.value.requested && w'.disk.lock && w'.disk.dir == Some(true)
  {
    var w := ToJournal(Step(NEW, BeginFirst));
    assert w.live.Some? && w.live.value.stage == Journaled && w.live.value.plan.None? && w.starts == [];
    assert w.disk.fallback == NoFallback && w.disk.dir.None? && w.disk.lock;
    JournaledRuns(w);
  }

  /** A plan with an answer, or with a prompt that may have been delivered, is kept
      as it is: Claude is not run, and the round closes with it. */
  lemma KeptPlanCloses(w: World)
    requires w.live.Some? && w.live.value.stage.Journaled? && w.live.value.plan.Some?
    requires !Reruns(w.live.value.plan.value)
    ensures var w' := Close(Step(w, TakeSlot));
      ClosedWith(w', w.live.value.plan.value, Fable) && w'.starts == w.starts
  {
    DoneCloses(Step(w, TakeSlot), w.live.value.plan.value);
  }

  /** The slot that a recovered round goes on with: the saved one when the reader
      accepts it and it is of the generation that the journal names. */
  ghost predicate GoesOnWith(d: Disk, slotValid: bool, c: Claude)
    requires d.journal.Some? && d.journal.value.claude.Some?
  {
    var recorded := d.journal.value.claude.value;
    if slotValid && d.slot.Some? && d.slot.value.contained && SameAttempt(d.slot.value, recorded) then c == d.slot.value
    else c == recorded
  }

  /** A fallback that was claimed before is not run again: its result stands if it
      was finished, and otherwise the slot ends as one that may have delivered,
      without an answer and not known to be contained. */
  lemma FallbackIsNotRunAgain(w: World)
    requires w.live.Some? && w.live.value.stage.Ready? && w.disk.fallback != NoFallback
    ensures var w' := Step(w, ReadFallback);
      && w'.live.Some? && w'.live.value.stage.Done? && w'.starts == w.starts && w'.disk == w.disk
      && var c := w'.live.value.stage.result;
      && (w.disk.fallback.FinishedFallback? ==> c == w.disk.fallback.result)
      && (w.disk.fallback == ClaimedFallback ==> !c.adopted && c.prompt && !c.contained && c.interrupted)
  {
  }

  /** A run that could not be opened, or whose request was discarded before anything
      was sent, ends contained and without a workspace, a delivery or an answer. */
  predicate Unstarted(c: Claude, interrupted: bool) {
    && !c.adopted && !c.workspace && !c.prompt && c.contained && c.receipt.None? && c.interrupted == interrupted
  }

  lemma UnopenedEnds(w: World, fails: bool, interrupted: bool)
    requires w.live.Some?
    ensures var s, w' := w.live.value.stage, Step(w, OpenRequest(fails, interrupted));
      s.ToOpen? && (fails || w.disk.dir.Some?) ==>
        && w'.live.Some? && w'.live.value.stage.Ended? && w'.live.value.stage.model == s.model
        && !w'.live.value.stage.quota && Unstarted(w'.live.value.stage.result, interrupted) && w'.starts == w.starts
    ensures var s, w' := w.live.value.stage, Step(w, Discard(interrupted));
      s.Open? ==>
        && w'.live.Some? && w'.live.value.stage.Ended? && w'.live.value.stage.model == s.model
        && Unstarted(w'.live.value.stage.result, interrupted) && w'.disk == w.disk.(dir := None)
  {
  }

  /** What a slot made at the finalization tells of the files it was made from. */
  predicate Tells(c: Claude, d: Disk) {
    && !c.adopted && c.interrupted
    && (c.workspace <==> if d.outcome.Some? then d.outcome.value.workspace else d.dir.Some?)
    && (c.prompt <==> if d.outcome.Some? then d.outcome.value.prompt else d.dir == Some(true))
    && (c.contained <==>
          if d.outcome.Some? then d.outcome.value.workspace ==> d.outcome.value.cleaned else d.dir.None?)
    && c.receipt == if d.outcome.Some? then d.outcome.value.receipt else None
  }

  predicate KnowsOfDelivery(d: Disk) {
    if d.outcome.Some? then d.outcome.value.workspace && d.outcome.value.prompt else d.dir == Some(true)
  }

  /** A dead attempt is finalized exactly when its journal is still requested and
      what it left is accounted for: the round is recovered and given back, and a
      delivery that its files know of is in its slot, unless the slot has the
      answer. */
  lemma FinalizeRecovers(w: World, e: Event)
    requires e.Finalize? && w.live.None? && w.disk.lock
    ensures var w', d := Step(w, e), w.disk;
      var dead := d.journal.Some? && d.journal.value.requested && (d.outcome.Some? || d.dir.None? || e.allowResidual);
      && (!dead ==> w' == w)
      && (dead ==>
            && w'.disk.journal.Some? && w'.disk.journal.value.recovered && !w'.disk.journal.value.requested
            && !w'.disk.lock && w'.disk.journal.value.retryCount == d.journal.value.retryCount
            && w'.disk.journal.value.claude.Some?
            && var c := w'.disk.journal.value.claude.value;
            && (KnowsOfDelivery(d) ==> c.adopted || c.prompt)
            && (!e.slotValid && !e.retainedValid ==> Tells(c, d))
            && (e.slotValid && d.slot.Some? && d.slot.value.adopted && d.slot.value.contained ==> c == d.slot.value))
  {
  }

  predicate Recoverable(d: Disk) {
    && d.journal.Some? && d.journal.value.claude.Some? && d.journal.value.recovered && !d.journal.value.requested
    && d.journal.value.retryCount < 3
  }

  /** An automatic continuation begins exactly for a recovered round with retries
      left whose slot was interrupted, is contained, and sent nothing. */
  lemma ContinuesExactly(w: World, slotValid: bool)
    requires w.live.None? && !w.disk.lock
    ensures var w' := Step(w, BeginAutomatic(slotValid));
      && (w'.live.Some? <==>
            Recoverable(w.disk)
            && exists c :: GoesOnWith(w.disk, slotValid, c)
                           && !c.adopted && c.contained && !c.prompt && c.interrupted)
      && (w'.live.Some? ==>
            && w'.disk == w.disk.(lock := true) && w'.live.value.stage.Locked? && w'.live.value.kind == Automatic
            && w'.live.value.plan.Some? && GoesOnWith(w.disk, slotValid, w'.live.value.plan.value)
            && w'.live.value.count == w.disk.journal.value.retryCount + 1)
  {
    if Recoverable(w.disk) {
      assert GoesOnWith(w.disk, slotValid, SlotOr(w.disk.slot, w.disk.journal.value.claude.value, slotValid));
    }
  }

  /** An explicit retry of a recovered round begins exactly while retries are left
      and what the journal records is contained. */
  lemma RetriesRecoveredExactly(w: World, recoveryOnly: bool, slotValid: bool)
    requires w.live.None? && !w.disk.lock && w.disk.journal.Some? && w.disk.journal.value.recovered
    ensures var w' := Step(w, BeginExplicit(recoveryOnly, slotValid));
      && (w'.live.Some? <==> Recoverable(w.disk) && w.disk.journal.value.claude.value.contained)
      && (w'.live.Some? ==>
            && w'.live.value.stage.Locked? && w'.live.value.plan.Some?
            && GoesOnWith(w.disk, slotValid, w'.live.value.plan.value)
            && w'.live.value.count == w.disk.journal.value.retryCount + 1)
  {
  }

  /** And of a finished one, exactly when its cache is the one the journal names,
      both are contained, and retries are left or the input alone has changed. */
  lemma RetriesFinishedExactly(w: World, recoveryOnly: bool, slotValid: bool)
    requires w.live.None? && !w.disk.lock && w.disk.journal.Some? && !w.disk.journal.value.recovered
    requires w.disk.journal.value.claude.Some?
    ensures var w', j := Step(w, BeginExplicit(recoveryOnly, slotValid)), w.disk.journal.value;
      && (w'.live.Some? <==>
            w.disk.cache.Some? && j.cacheId == Some(w.disk.cache.value.id)
            && w.disk.cache.value.claude.contained && j.claude.value.contained
            && ((j.retryCount < 3 && w.disk.cache.value.retryCount < 3) || (recoveryOnly && !j.interruptionRecovery)))
      && (w'.live.Some? ==>
            && w'.live.value.plan.Some? && w'.live.value.stage.Locked?
            && w'.live.value.plan.value == w.disk.cache.value.claude.(receipt := j.claude.value.receipt))
  {
  }

  // ------------------------------------------------------------- the retries

  /** Interrupted rounds count every recovery, and the count is never reset. */
  predicate Counted(j: Option<Journal>, continuations: nat) {
    continuations <= if j.Some? && j.value.interruptionRecovery then j.value.retryCount else 0
  }

  predicate Counts(l: Live, j: Option<Journal>) {
    match l.stage
    case Locked => Planned(l, j)
    case Retired => Planned(l, j)
    case _ => j.Some? && j.value.retryCount == l.count && j.value.interruptionRecovery == l.interruptionRecovery
  }

  predicate Planned(l: Live, j: Option<Journal>) {
    && (l.plan.None? ==> j.None? && l.count == 0 && !l.interruptionRecovery)
    && (j.Some? && j.value.interruptionRecovery ==> l.interruptionRecovery && j.value.retryCount <= l.count)
    && (l.kind == Automatic ==>
          l.interruptionRecovery && l.count <= MAX_RETRIES && j.Some? && l.count == j.value.retryCount + 1)
  }

  predicate Budget(w: World) {
    && w.continuations <= MAX_RETRIES && Counted(w.disk.journal, w.continuations)
    && (w.live.Some? ==> Counts(w.live.value, w.disk.journal))
  }

  lemma RequestKeepsBudget(w: World, l: Live)
    requires Budget(w) && w.live == Some(l) && l.stage.Retired?
    ensures Budget(RequestStep(w, l))
  {
  }

  lemma OtherStepKeepsBudget(w: World, l: Live, e: Event)
    requires Budget(w) && w.live == Some(l) && !e.WriteRequested?
    ensures Budget(Advance(w, l, e))
  {
    var w' := Advance(w, l, e);
    assert w'.continuations == w.continuations;
    assert !e.WriteTerminal? ==> w'.disk.journal == w.disk.journal;
  }

  lemma LiveStepKeepsBudget(w: World, l: Live, e: Event)
    requires Budget(w) && w.live == Some(l)
    ensures Budget(Advance(w, l, e))
  {
    if !e.WriteRequested? {
      OtherStepKeepsBudget(w, l, e);
    } else if l.stage.Retired? {
      RequestKeepsBudget(w, l);
    }
  }

  lemma StepKeepsBudget(w: World, e: Event)
    requires Budget(w)
    ensures Budget(Step(w, e))
  {
    if w.live.Some? { LiveStepKeepsBudget(w, w.live.value, e); }
  }

  lemma {:induction false} RunKeepsBudget(events: seq<Event>)
    ensures Budget(Run(events))
    decreases |events|
  {
    if events != [] {
      RunKeepsBudget(events[..|events| - 1]);
      StepKeepsBudget(Run(events[..|events| - 1]), events[|events| - 1]);
    }
  }

  /** An interrupted round is continued automatically at most three times. */
  lemma ContinuedAtMostThreeTimes(events: seq<Event>)
    ensures Run(events).continuations <= 3
  {
    RunKeepsBudget(events);
  }
}
