/** The journaled swap of an installed application for a verification build.

    A disk is what the broker can see of one managed application: the bundle
    at the target path, the one held as backup, the journal and the staging
    directories. A bundle is its identity (device, inode, birth time). Every
    operation reads the disk, decides, and then performs a list of durable
    effects; a crash, a failed rename or a failed write leaves a prefix of it.
    Between two operations, and while the running application is being
    stopped, the user may put anything at the target.
  */
module AppSwap {

  import opened Optional

  type Bundle = nat
  type DirName = nat

  datatype Staging = Staging(staged: Option<Bundle>, discarded: Option<Bundle>)
  datatype Transaction = Transaction(original: Option<Bundle>, verification: Bundle, staging: DirName)
  datatype Disk = Disk(
    target: Option<Bundle>, backup: Option<Bundle>,
    journal: Option<Transaction>, staging: map<DirName, Staging>)

  datatype Effect =
    | CreateStaging(dir: DirName, build: Bundle)
    | WriteJournal(transaction: Transaction)
    | TargetToBackup
    | StagedToTarget(dir: DirName)
    | TargetToDiscard(dir: DirName)
    | BackupToTarget
    | RemoveStaging(dir: DirName)
    | RemoveJournal

  function Apply(d: Disk, e: Effect): Disk {
    match e
    case CreateStaging(dir, build) => d.(staging := d.staging[dir := Staging(Some(build), None)])
    case WriteJournal(t) => d.(journal := Some(t))
    case TargetToBackup => d.(target := None, backup := d.target)
    case StagedToTarget(dir) =>
      if dir !in d.staging then d
      else d.(target := d.staging[dir].staged, staging := d.staging[dir := d.staging[dir].(staged := None)])
    case TargetToDiscard(dir) =>
      if dir !in d.staging then d
      else d.(target := None, staging := d.staging[dir := d.staging[dir].(discarded := d.target)])
    case BackupToTarget => d.(target := d.backup, backup := None)
    case RemoveStaging(dir) => d.(staging := d.staging - {dir})
    case RemoveJournal => d.(journal := None)
  }

  function ApplyAll(d: Disk, plan: seq<Effect>): Disk
    decreases |plan|
  {
    if plan == [] then d else ApplyAll(Apply(d, plan[0]), plan[1..])
  }

  /** The effects that reach the disk when the operation dies after `crash`. */
  function Reached(plan: seq<Effect>, crash: nat): seq<Effect> {
    if crash < |plan| then plan[..crash] else plan
  }

  // ------------------------------------------------------------- restoring

  datatype Refusal =
    | DifferentApplication | BackupChanged | OriginalUnavailable
    | ChangedWhileStopping | DestinationOccupied | StagingMissing | AlreadyStaged | LegacyBackup | NothingStaged

  datatype Decision = Refuse(reason: Refusal) | Proceed(plan: seq<Effect>)

  predicate Same(left: Option<Bundle>, right: Option<Bundle>) {
    left.Some? && right.Some? && left.value == right.value
  }

  predicate Unchanged(before: Option<Bundle>, after: Option<Bundle>) {
    if before == None then after == None else Same(before, after)
  }

  function Discarded(d: Disk, t: Transaction): Option<Bundle> {
    if t.staging in d.staging then d.staging[t.staging].discarded else None
  }

  /** `d` before the running application is stopped, `now` after. A rename into
      a staging directory that is gone throws, as does one onto an occupied
      destination, and nothing has been written by then. */
  function RestoreDecision(d: Disk, now: Disk, t: Transaction): Decision {
    var current, held := d.target, d.backup;
    if current.Some? && !Same(current, Some(t.verification)) && !Same(current, t.original)
    then Refuse(DifferentApplication)
    else if held.Some? && !Same(held, t.original) then Refuse(BackupChanged)
    else if t.original.Some? && !Same(current, t.original) && !Same(held, t.original) then Refuse(OriginalUnavailable)
    else if !Unchanged(current, now.target) || !Unchanged(held, now.backup) then Refuse(ChangedWhileStopping)
    else if Same(current, Some(t.verification)) && Discarded(now, t).Some? then Refuse(DestinationOccupied)
    else if Same(current, Some(t.verification)) && t.staging !in now.staging then Refuse(StagingMissing)
    else
      Proceed(RestorePlan(t, Same(current, Some(t.verification)), held.Some? && !Same(current, t.original)))
  }

  function RestorePlan(t: Transaction, discards: bool, puts: bool): seq<Effect> {
    (if discards then [TargetToDiscard(t.staging)] else [])
    + (if puts then [BackupToTarget] else [])
    + [RemoveStaging(t.staging), RemoveJournal]
  }

  function InstallPlan(now: Disk, dir: DirName, build: Bundle): seq<Effect> {
    [WriteJournal(Transaction(now.target, build, dir))]
    + (if now.target.Some? then [TargetToBackup] else [])
    + [StagedToTarget(dir)]
  }

  // ------------------------------------------------------------------ runs

  /** What the user leaves at the target while an application is stopped. */
  datatype User = Leaves | Puts(target: Option<Bundle>)

  function Act(d: Disk, u: User): Disk {
    if u.Leaves? then d else d.(target := u.target)
  }

  datatype Event =
    | UserActs(user: User)
    | Restore(stopping: User, crash: nat)
      // a rename may fail after the journal is written: `failAt` effects of the
      // plan succeed and the broker restores at once
    | Install(dir: DirName, build: Bundle, stopping: User, crash: nat,
              failAt: Option<nat>, recovering: User, recoveryCrash: nat)

  function RestoreStep(d: Disk, stopping: User, crash: nat): Disk {
    if d.journal.None? then d
    else
      var now := Act(d, stopping);
      match RestoreDecision(d, now, d.journal.value)
      case Refuse(_) => now
      case Proceed(plan) => ApplyAll(now, Reached(plan, crash))
  }

  function Prepared(d: Disk, e: Event): Disk
    requires e.Install?
  {
    Act(Apply(d, CreateStaging(e.dir, e.build)), e.stopping)
  }

  predicate RenameFails(plan: seq<Effect>, failAt: Option<nat>) {
    failAt.Some? && 0 < failAt.value < |plan|
  }

  function InstallStep(d: Disk, e: Event): Disk
    requires e.Install?
  {
    if d.journal.Some? || d.backup.Some? then d
    else
      var now := Prepared(d, e);
      var plan := InstallPlan(now, e.dir, e.build);
      if RenameFails(plan, e.failAt) then
        RestoreStep(ApplyAll(now, plan[..e.failAt.value]), e.recovering, e.recoveryCrash)
      else ApplyAll(now, Reached(plan, e.crash))
  }

  function Next(d: Disk, e: Event): Disk {
    match e
    case UserActs(u) => Act(d, u)
    case Restore(stopping, crash) => RestoreStep(d, stopping, crash)
    case Install(_, _, _, _, _, _, _) => InstallStep(d, e)
  }

  ghost predicate Hidden(d: Disk, b: Bundle) {
    || d.backup == Some(b)
    || exists dir :: dir in d.staging && (d.staging[dir].staged == Some(b) || d.staging[dir].discarded == Some(b))
  }

  /** A bundle is in one place: the user cannot put at the target one that is
      still held in the broker's private directory. */
  ghost predicate UserLegal(d: Disk, u: User) {
    u.Puts? && u.target.Some? ==> !Hidden(d, u.target.value)
  }

  /** Staging directories get fresh names, an expanded build a fresh identity. */
  ghost predicate Legal(d: Disk, e: Event) {
    match e
    case UserActs(u) => UserLegal(d, u)
    case Restore(stopping, _) => UserLegal(d, stopping)
    case Install(dir, build, stopping, _, failAt, recovering, _) =>
      && dir !in d.staging && d.target != Some(build) && !Hidden(d, build)
      && UserLegal(Apply(d, CreateStaging(dir, build)), stopping)
      && var plan := InstallPlan(Prepared(d, e), dir, build);
         RenameFails(plan, failAt) ==> UserLegal(ApplyAll(Prepared(d, e), plan[..failAt.value]), recovering)
  }

  ghost predicate Legals(d: Disk, run: seq<Event>)
    decreases |run|
  {
    run == [] || (Legal(d, run[0]) && Legals(Next(d, run[0]), run[1..]))
  }

  function After(d: Disk, run: seq<Event>): Disk
    decreases |run|
  {
    if run == [] then d else After(Next(d, run[0]), run[1..])
  }

  // ------------------------------------------------------------- invariant

  ghost predicate OnlyBuild(d: Disk, t: Transaction) {
    t.staging in d.staging ==>
      && (d.staging[t.staging].staged == None || d.staging[t.staging].staged == Some(t.verification))
      && (d.staging[t.staging].discarded == None || d.staging[t.staging].discarded == Some(t.verification))
      && !(d.staging[t.staging].staged.Some? && d.staging[t.staging].discarded.Some?)
  }

  /** Holds of every reachable disk, whatever the user does. */
  ghost predicate Inv(d: Disk) {
    && (d.target.Some? ==> !Hidden(d, d.target.value))
    && (d.backup.Some? ==> d.journal.Some? && d.journal.value.original == d.backup)
    && (d.journal.Some? ==>
          var t := d.journal.value;
          && t.original != Some(t.verification)
          && OnlyBuild(d, t)
          && (d.backup.Some? ==> !Same(d.target, t.original))
          && (forall dir :: dir in d.staging && t.original.Some? ==>
                d.staging[dir].staged != t.original && d.staging[dir].discarded != t.original)
          && (forall dir :: dir in d.staging && dir != t.staging ==>
                d.staging[dir].staged != Some(t.verification) && d.staging[dir].discarded != Some(t.verification)))
  }

  /** The original named by the journal is at the target or in the backup. */
  ghost predicate OriginalHeld(d: Disk) {
    d.journal.Some? && d.journal.value.original.Some? ==>
      d.target == d.journal.value.original || d.backup == d.journal.value.original
  }

  // ------------------------------------------------- effects and their guards

  /** When an effect may be performed: only the verification build is ever
      discarded, only the original is ever backed up or put back, and nothing
      is forgotten before the target is the original again. */
  ghost predicate Guard(d: Disk, e: Effect) {
    match e
    case CreateStaging(dir, build) =>
      d.journal.None? && d.backup.None? && dir !in d.staging && d.target != Some(build) && !Hidden(d, build)
    case WriteJournal(t) =>
      && d.journal.None? && d.backup.None? && t.original == d.target
      && t.staging in d.staging && d.staging[t.staging] == Staging(Some(t.verification), None)
      && t.original != Some(t.verification)
      && forall dir :: dir in d.staging && dir != t.staging ==>
           d.staging[dir].staged != Some(t.verification) && d.staging[dir].discarded != Some(t.verification)
    case TargetToBackup =>
      d.journal.Some? && d.backup.None? && d.target.Some? && d.target == d.journal.value.original
    case StagedToTarget(dir) =>
      && d.journal.Some? && dir == d.journal.value.staging && d.target.None?
      && d.backup == d.journal.value.original
      && dir in d.staging && d.staging[dir].staged == Some(d.journal.value.verification)
    case TargetToDiscard(dir) =>
      && d.journal.Some? && dir == d.journal.value.staging && dir in d.staging
      && d.target == Some(d.journal.value.verification)
    case BackupToTarget =>
      d.journal.Some? && d.target.None? && d.backup.Some?
    case RemoveStaging(dir) =>
      && d.journal.Some? && dir == d.journal.value.staging
      && d.backup.None? && d.target == d.journal.value.original
    case RemoveJournal =>
      d.journal.Some? && d.backup.None? && d.target == d.journal.value.original
  }

  ghost predicate Guarded(d: Disk, plan: seq<Effect>)
    decreases |plan|
  {
    plan == [] || (Guard(d, plan[0]) && Guarded(Apply(d, plan[0]), plan[1..]))
  }

  lemma GuardKeepsInv(d: Disk, e: Effect)
    requires Inv(d) && Guard(d, e)
    ensures Inv(Apply(d, e))
  {
    var d' := Apply(d, e);
    if d'.target.Some? && Hidden(d', d'.target.value) {
      if e.CreateStaging? || e.TargetToDiscard? || e.RemoveStaging? || e.WriteJournal? || e.RemoveJournal? {
        assert Hidden(d, d'.target.value);
      }
    }
  }

  lemma GuardKeepsOriginal(d: Disk, e: Effect)
    requires Inv(d) && OriginalHeld(d) && Guard(d, e)
    ensures OriginalHeld(Apply(d, e))
  {
  }

  /** No guarded effect loses a bundle from the target or the backup unless it
      is the verification build of the journal. */
  lemma GuardKeepsBundles(d: Disk, e: Effect, b: Bundle)
    requires Guard(d, e) && (d.target == Some(b) || d.backup == Some(b))
    requires d.journal.Some? ==> d.journal.value.verification != b
    requires Inv(d)
    ensures Apply(d, e).target == Some(b) || Apply(d, e).backup == Some(b)
  {
  }

  lemma {:induction false} PrefixGuarded(d: Disk, plan: seq<Effect>, n: nat)
    requires Guarded(d, plan) && n <= |plan|
    ensures Guarded(d, plan[..n])
    ensures Guarded(ApplyAll(d, plan[..n]), plan[n..])
    decreases n
  {
    if n == 0 {
      assert plan[..0] == [] && plan[0..] == plan;
    } else {
      var next, rest := Apply(d, plan[0]), plan[1..];
      PrefixGuarded(next, rest, n - 1);
      FirstEffect(d, plan, n);
    }
  }

  lemma FirstEffect(d: Disk, plan: seq<Effect>, n: nat)
    requires 0 < n <= |plan|
    ensures plan[..n][0] == plan[0] && plan[..n][1..] == plan[1..][..n - 1]
    ensures ApplyAll(d, plan[..n]) == ApplyAll(Apply(d, plan[0]), plan[1..][..n - 1])
    ensures plan[n..] == plan[1..][n - 1..]
  {
  }

  lemma ApplyCons(d: Disk, e: Effect, rest: seq<Effect>)
    ensures ApplyAll(d, [e] + rest) == ApplyAll(Apply(d, e), rest)
  {
    assert ([e] + rest)[1..] == rest;
  }

  lemma GuardedCons(d: Disk, e: Effect, rest: seq<Effect>)
    requires Guard(d, e) && Guarded(Apply(d, e), rest)
    ensures Guarded(d, [e] + rest)
  {
    assert ([e] + rest)[1..] == rest;
  }

  lemma {:induction false} GuardedKeepsInv(d: Disk, plan: seq<Effect>)
    requires Inv(d) && Guarded(d, plan)
    ensures Inv(ApplyAll(d, plan))
    decreases |plan|
  {
    if plan != [] {
      GuardKeepsInv(d, plan[0]);
      GuardedKeepsInv(Apply(d, plan[0]), plan[1..]);
    }
  }

  lemma {:induction false} GuardedKeepsOriginal(d: Disk, plan: seq<Effect>)
    requires Inv(d) && OriginalHeld(d) && Guarded(d, plan)
    ensures OriginalHeld(ApplyAll(d, plan))
    decreases |plan|
  {
    if plan != [] {
      GuardKeepsInv(d, plan[0]);
      GuardKeepsOriginal(d, plan[0]);
      GuardedKeepsOriginal(Apply(d, plan[0]), plan[1..]);
    }
  }

  predicate Held(d: Disk, b: Bundle) {
    d.target == Some(b) || d.backup == Some(b)
  }

  /** No effect of the plan names `b` as a verification build. */
  predicate Spares(plan: seq<Effect>, b: Bundle) {
    forall i :: 0 <= i < |plan| && plan[i].WriteJournal? ==> plan[i].transaction.verification != b
  }

  lemma {:induction false} GuardedKeepsBundles(d: Disk, plan: seq<Effect>, b: Bundle)
    requires Inv(d) && Guarded(d, plan) && Held(d, b) && Spares(plan, b)
    requires d.journal.Some? ==> d.journal.value.verification != b
    ensures Held(ApplyAll(d, plan), b)
    decreases |plan|
  {
    if plan != [] {
      GuardKeepsInv(d, plan[0]);
      GuardKeepsBundles(d, plan[0], b);
      GuardedKeepsBundles(Apply(d, plan[0]), plan[1..], b);
    }
  }

  lemma {:induction false} PlanReached(d: Disk, plan: seq<Effect>, crash: nat)
    requires Guarded(d, plan)
    ensures Guarded(d, Reached(plan, crash))
  {
    if crash < |plan| { PrefixGuarded(d, plan, crash); }
  }

  lemma RestorePlanGuarded(d: Disk, now: Disk, t: Transaction)
    requires Inv(now) && now.journal == Some(t)
    requires RestoreDecision(d, now, t).Proceed?
    ensures Guarded(now, RestoreDecision(d, now, t).plan)
  {
    var plan := RestoreDecision(d, now, t).plan;
    assert now.target == d.target && now.backup == d.backup;
    var ending := [RemoveStaging(t.staging), RemoveJournal];
    var discards, puts := Same(d.target, Some(t.verification)), d.backup.Some? && !Same(d.target, t.original);
    if discards && puts {
      var d1 := Apply(now, TargetToDiscard(t.staging));
      GuardKeepsInv(now, TargetToDiscard(t.staging));
      var d2 := Apply(d1, BackupToTarget);
      assert plan == [TargetToDiscard(t.staging), BackupToTarget] + ending;
      EndingGuarded(d2, t);
      assert plan[1..] == [BackupToTarget] + ending && plan[1..][1..] == ending;
    } else if discards {
      var d1 := Apply(now, TargetToDiscard(t.staging));
      EndingGuarded(d1, t);
      assert plan == [TargetToDiscard(t.staging)] + ending && plan[1..] == ending;
    } else if puts {
      assert d.target.None?;
      var d1 := Apply(now, BackupToTarget);
      EndingGuarded(d1, t);
      assert plan == [BackupToTarget] + ending && plan[1..] == ending;
    } else {
      EndingGuarded(now, t);
      assert plan == ending;
    }
  }

  lemma EndingGuarded(d: Disk, t: Transaction)
    requires d.journal == Some(t) && d.backup.None? && d.target == t.original
    ensures Guarded(d, [RemoveStaging(t.staging), RemoveJournal])
  {
    var plan := [RemoveStaging(t.staging), RemoveJournal];
    assert plan[1..] == [RemoveJournal] && plan[1..][1..] == [];
  }

  lemma InstallPlanGuarded(d: Disk, e: Event)
    requires Inv(d) && e.Install? && Legal(d, e) && d.journal.None? && d.backup.None?
    ensures Inv(Prepared(d, e))
    ensures Guarded(Prepared(d, e), InstallPlan(Prepared(d, e), e.dir, e.build))
  {
    var created := Apply(d, CreateStaging(e.dir, e.build));
    GuardKeepsInv(d, CreateStaging(e.dir, e.build));
    ActKeepsInv(created, e.stopping);
    var now := Prepared(d, e);
    var plan := InstallPlan(now, e.dir, e.build);
    assert created.staging[e.dir].staged == Some(e.build);
    assert Hidden(created, e.build);
    assert Guard(now, plan[0]) by {
      forall dir | dir in now.staging && dir != e.dir
        ensures now.staging[dir].staged != Some(e.build) && now.staging[dir].discarded != Some(e.build)
      {
        assert dir in d.staging && !Hidden(d, e.build);
      }
    }
    var d1 := Apply(now, plan[0]);
    var place := [StagedToTarget(e.dir)];
    assert place[1..] == [];
    if now.target.Some? {
      GuardedCons(d1, TargetToBackup, place);
      GuardedCons(now, plan[0], [TargetToBackup] + place);
      assert plan == [plan[0]] + ([TargetToBackup] + place);
    } else {
      GuardedCons(now, plan[0], place);
      assert plan == [plan[0]] + place;
    }
  }

  lemma ActKeepsInv(d: Disk, u: User)
    requires Inv(d) && UserLegal(d, u)
    ensures Inv(Act(d, u))
  {
    if u.Puts? && u.target.Some? {
      assert forall b :: Hidden(d, b) <==> Hidden(Act(d, u), b);
    }
  }

  lemma RestoreKeepsInv(d: Disk, stopping: User, crash: nat)
    requires Inv(d) && UserLegal(d, stopping)
    ensures Inv(RestoreStep(d, stopping, crash))
  {
    ActKeepsInv(d, stopping);
    if d.journal.Some? {
      var now, t := Act(d, stopping), d.journal.value;
      if RestoreDecision(d, now, t).Proceed? {
        RestorePlanGuarded(d, now, t);
        PlanReached(now, RestoreDecision(d, now, t).plan, crash);
        GuardedKeepsInv(now, Reached(RestoreDecision(d, now, t).plan, crash));
      }
    }
  }

  lemma InstallKeepsInv(d: Disk, e: Event)
    requires Inv(d) && e.Install? && Legal(d, e)
    ensures Inv(InstallStep(d, e))
  {
    if d.journal.None? && d.backup.None? {
      InstallPlanGuarded(d, e);
      var now := Prepared(d, e);
      var plan := InstallPlan(now, e.dir, e.build);
      if RenameFails(plan, e.failAt) {
        PrefixGuarded(now, plan, e.failAt.value);
        GuardedKeepsInv(now, plan[..e.failAt.value]);
        RestoreKeepsInv(ApplyAll(now, plan[..e.failAt.value]), e.recovering, e.recoveryCrash);
      } else {
        PlanReached(now, plan, e.crash);
        GuardedKeepsInv(now, Reached(plan, e.crash));
      }
    }
  }

  // ----------------------------------------------------------- whole runs

  /** Every disk reachable by operations, crashes, failed renames and whatever
      the user does satisfies the invariant. */
  lemma {:induction false} ReachableInv(d: Disk, run: seq<Event>)
    requires Inv(d) && Legals(d, run)
    ensures Inv(After(d, run))
    decreases |run|
  {
    if run != [] {
      match run[0] {
        case UserActs(u) => ActKeepsInv(d, u);
        case Restore(stopping, crash) => RestoreKeepsInv(d, stopping, crash);
        case Install(_, _, _, _, _, _, _) => InstallKeepsInv(d, run[0]);
      }
      ReachableInv(Next(d, run[0]), run[1..]);
    }
  }

  /** The user leaves the original alone while the journal names it. */
  predicate Spared(d: Disk, u: User) {
    (u.Puts? && d.journal.Some? && d.journal.value.original.Some? && d.target == d.journal.value.original)
    ==> u.target == d.target
  }

  ghost predicate Considerate(d: Disk, e: Event) {
    match e
    case UserActs(u) => Spared(d, u)
    case Restore(stopping, _) => Spared(d, stopping)
    case Install(dir, build, _, _, failAt, recovering, _) =>
      d.journal.None? && d.backup.None? ==>
        var plan := InstallPlan(Prepared(d, e), dir, build);
        RenameFails(plan, failAt) ==> Spared(ApplyAll(Prepared(d, e), plan[..failAt.value]), recovering)
  }

  ghost predicate AllConsiderate(d: Disk, run: seq<Event>)
    decreases |run|
  {
    run == [] || (Considerate(d, run[0]) && AllConsiderate(Next(d, run[0]), run[1..]))
  }

  lemma RestoreKeepsOriginal(d: Disk, stopping: User, crash: nat)
    requires Inv(d) && UserLegal(d, stopping) && OriginalHeld(d) && Spared(d, stopping)
    ensures OriginalHeld(RestoreStep(d, stopping, crash))
  {
    ActKeepsInv(d, stopping);
    if d.journal.Some? {
      var now, t := Act(d, stopping), d.journal.value;
      if RestoreDecision(d, now, t).Proceed? {
        RestorePlanGuarded(d, now, t);
        PlanReached(now, RestoreDecision(d, now, t).plan, crash);
        GuardedKeepsOriginal(now, Reached(RestoreDecision(d, now, t).plan, crash));
      }
    }
  }

  lemma InstallKeepsOriginal(d: Disk, e: Event)
    requires Inv(d) && e.Install? && Legal(d, e) && OriginalHeld(d) && Considerate(d, e)
    ensures OriginalHeld(InstallStep(d, e))
  {
    if d.journal.None? && d.backup.None? {
      InstallPlanGuarded(d, e);
      var now := Prepared(d, e);
      var plan := InstallPlan(now, e.dir, e.build);
      if RenameFails(plan, e.failAt) {
        PrefixGuarded(now, plan, e.failAt.value);
        GuardedKeepsInv(now, plan[..e.failAt.value]);
        GuardedKeepsOriginal(now, plan[..e.failAt.value]);
        RestoreKeepsOriginal(ApplyAll(now, plan[..e.failAt.value]), e.recovering, e.recoveryCrash);
      } else {
        PlanReached(now, plan, e.crash);
        GuardedKeepsOriginal(now, Reached(plan, e.crash));
      }
    }
  }

  /** Through any run of installs and restores that die anywhere, the original
      is at the target or in the backup for as long as the journal exists. */
  lemma {:induction false} OriginalSurvives(d: Disk, run: seq<Event>)
    requires Inv(d) && OriginalHeld(d) && Legals(d, run) && AllConsiderate(d, run)
    ensures OriginalHeld(After(d, run))
    decreases |run|
  {
    if run != [] {
      ReachableInv(d, [run[0]]);
      assert After(d, [run[0]]) == Next(d, run[0]);
      match run[0] {
        case UserActs(u) =>
        case Restore(stopping, crash) => RestoreKeepsOriginal(d, stopping, crash);
        case Install(_, _, _, _, _, _, _) => InstallKeepsOriginal(d, run[0]);
      }
      OriginalSurvives(Next(d, run[0]), run[1..]);
    }
  }

  /** A restore moves or removes nothing that was held except the journal's own
      verification build, wherever it dies. */
  lemma RestoreKeepsHeld(d: Disk, stopping: User, crash: nat, b: Bundle)
    requires Inv(d) && UserLegal(d, stopping) && Held(Act(d, stopping), b)
    requires d.journal.Some? ==> d.journal.value.verification != b
    ensures d.journal.Some? ==> Held(RestoreStep(d, stopping, crash), b)
  {
    ActKeepsInv(d, stopping);
    if d.journal.Some? {
      var now, t := Act(d, stopping), d.journal.value;
      if RestoreDecision(d, now, t).Proceed? {
        RestorePlanGuarded(d, now, t);
        PlanReached(now, RestoreDecision(d, now, t).plan, crash);
        GuardedKeepsBundles(now, Reached(RestoreDecision(d, now, t).plan, crash), b);
      }
    }
  }

  /** An install keeps whatever it found at the target, wherever it dies and
      whichever rename fails, unless the user takes it away while the recovery
      stops the application again. */
  lemma InstallKeepsHeld(d: Disk, e: Event, b: Bundle)
    requires Inv(d) && e.Install? && Legal(d, e) && d.journal.None? && d.backup.None?
    requires Prepared(d, e).target == Some(b)
    requires var now, plan := Prepared(d, e), InstallPlan(Prepared(d, e), e.dir, e.build);
      RenameFails(plan, e.failAt) ==> Held(Act(ApplyAll(now, plan[..e.failAt.value]), e.recovering), b)
    ensures Held(InstallStep(d, e), b)
  {
    InstallPlanGuarded(d, e);
    var now := Prepared(d, e);
    var plan := InstallPlan(now, e.dir, e.build);
    assert b != e.build by { assert now.staging[e.dir].staged == Some(e.build); assert Hidden(now, e.build); }
    if RenameFails(plan, e.failAt) {
      PrefixGuarded(now, plan, e.failAt.value);
      var mid := ApplyAll(now, plan[..e.failAt.value]);
      GuardedKeepsInv(now, plan[..e.failAt.value]);
      GuardedKeepsBundles(now, plan[..e.failAt.value], b);
      JournalWritten(now, plan, e.failAt.value);
      RestoreKeepsHeld(mid, e.recovering, e.recoveryCrash, b);
    } else {
      PlanReached(now, plan, e.crash);
      GuardedKeepsBundles(now, Reached(plan, e.crash), b);
    }
  }

  lemma {:induction false} JournalWritten(d: Disk, plan: seq<Effect>, n: nat)
    requires 0 < n <= |plan| && plan[0].WriteJournal?
    requires forall i :: 0 < i < |plan| ==> plan[i].TargetToBackup? || plan[i].StagedToTarget?
    ensures ApplyAll(d, plan[..n]).journal == Some(plan[0].transaction)
    decreases n
  {
    JournalStays(Apply(d, plan[0]), plan[1..n]);
    assert plan[..n][1..] == plan[1..n];
  }

  lemma {:induction false} JournalStays(d: Disk, plan: seq<Effect>)
    requires forall i :: 0 <= i < |plan| ==> plan[i].TargetToBackup? || plan[i].StagedToTarget?
    ensures ApplyAll(d, plan).journal == d.journal
    decreases |plan|
  {
    if plan != [] { JournalStays(Apply(d, plan[0]), plan[1..]); }
  }

  predicate Foreign(d: Disk) {
    d.journal.Some? && d.target.Some?
    && !Same(d.target, Some(d.journal.value.verification)) && !Same(d.target, d.journal.value.original)
  }

  /** The user does nothing, neither between operations nor while one of them
      stops the application. */
  predicate LeftAlone(e: Event) {
    (e.Restore? && e.stopping == Leaves) || e.Install?
  }

  /** A target that is neither the original nor the verification build stays as
      it is, with the rest of the disk, through any run of restores and installs
      until the user acts. */
  lemma {:induction false} ForeignTargetStays(d: Disk, run: seq<Event>)
    requires Foreign(d) && forall i :: 0 <= i < |run| ==> LeftAlone(run[i])
    ensures After(d, run) == d
    decreases |run|
  {
    if run != [] {
      assert LeftAlone(run[0]) && Next(d, run[0]) == d;
      ForeignTargetStays(d, run[1..]);
    }
  }

  // ------------------------------------------------ running restore again

  predicate Restorable(d: Disk) {
    d.journal.Some? && (d.target.None? || d.target == d.journal.value.original
      || d.target == Some(d.journal.value.verification))
  }

  predicate Restored(d: Disk, t: Transaction, end: Disk) {
    && end.target == t.original && end.backup.None? && end.journal.None?
    && end.staging == d.staging - {t.staging}
  }

  /** A verification build at the target can be moved aside: its staging
      directory is still there. */
  predicate Discardable(d: Disk)
    requires d.journal.Some?
  {
    d.target == Some(d.journal.value.verification) ==> d.journal.value.staging in d.staging
  }

  lemma RestoreProceeds(d: Disk)
    requires Inv(d) && OriginalHeld(d) && Restorable(d)
    ensures RestoreDecision(d, d, d.journal.value)
      == if Discardable(d) then
           var t := d.journal.value;
           Proceed(RestorePlan(t, d.target == Some(t.verification), d.backup.Some? && d.target != t.original))
         else Refuse(StagingMissing)
  {
    var t := d.journal.value;
    assert t.staging in d.staging && d.staging[t.staging].discarded == Some(t.verification)
      ==> Hidden(d, t.verification);
  }

  /** Either nothing is pending and the target is the original, or the journal
      is `t` and the disk can be restored. */
  ghost predicate Settling(d: Disk, t: Transaction) {
    if d.journal.None? then d.target == t.original && d.backup.None?
    else d.journal == Some(t) && Restorable(d) && Discardable(d)
  }

  lemma {:induction false} SettlingPlan(d: Disk, t: Transaction, plan: seq<Effect>)
    requires Settling(d, t) && Guarded(d, plan) && Inv(d)
    requires forall i :: 0 <= i < |plan| ==> plan[i].WriteJournal? ==> plan[i].transaction == t
    ensures Settling(ApplyAll(d, plan), t)
    decreases |plan|
  {
    if plan != [] {
      GuardKeepsInv(d, plan[0]);
      SettlingPlan(Apply(d, plan[0]), t, plan[1..]);
    }
  }

  lemma {:induction false} ApplyAppend(d: Disk, a: seq<Effect>, b: seq<Effect>)
    ensures ApplyAll(d, a + b) == ApplyAll(ApplyAll(d, a), b)
    decreases |a|
  {
    if a == [] {
      assert a + b == b;
    } else {
      ApplyAppend(Apply(d, a[0]), a[1..], b);
      assert (a + b)[1..] == a[1..] + b;
    }
  }

  lemma MovesTouchOneDirectory(d: Disk, t: Transaction, moves: seq<Effect>)
    requires moves == [] || moves == [TargetToDiscard(t.staging)] || moves == [BackupToTarget]
      || moves == [TargetToDiscard(t.staging), BackupToTarget]
    ensures ApplyAll(d, moves).staging - {t.staging} == d.staging - {t.staging}
    ensures ApplyAll(d, moves).journal == d.journal
  {
    if |moves| == 2 {
      assert moves == [TargetToDiscard(t.staging)] + [BackupToTarget];
      ApplyCons(d, TargetToDiscard(t.staging), [BackupToTarget]);
      assert [BackupToTarget][1..] == [];
    } else if |moves| == 1 {
      assert moves[1..] == [];
    }
  }

  /** From a reachable disk whose target is the original, the build or nothing,
      one undisturbed restore ends with the original at the target (or nothing,
      if there was nothing), no backup, no journal, and only its own staging
      directory gone, exactly when a build at the target still has its staging
      directory. */
  lemma RestoreCompletes(d: Disk)
    requires Inv(d) && OriginalHeld(d) && Restorable(d)
    ensures Restored(d, d.journal.value, RestoreStep(d, Leaves, 4)) <==> Discardable(d)
  {
    RestoreProceeds(d);
    if Discardable(d) {
      var t := d.journal.value;
      var plan := RestoreDecision(d, d, t).plan;
      assert Reached(plan, 4) == plan;
      RestorePlanGuarded(d, d, t);
      SettlingPlan(d, t, plan);
      RestoreEnding(d, t);
    }
  }

  /** Otherwise no run of restores and installs gets any further: the disk stays
      as it is until the user takes the build away again. */
  lemma {:induction false} StuckWithoutStaging(d: Disk, run: seq<Event>)
    requires Inv(d) && OriginalHeld(d) && Restorable(d) && !Discardable(d)
    requires forall i :: 0 <= i < |run| ==> LeftAlone(run[i])
    ensures After(d, run) == d
    decreases |run|
  {
    if run != [] {
      RestoreProceeds(d);
      assert LeftAlone(run[0]) && Next(d, run[0]) == d;
      StuckWithoutStaging(d, run[1..]);
    }
  }

  /** Such a disk is reached: the build is installed where nothing was, taken away
      by the user, the restore dies after removing the staging directory, and
      the user puts the build back. */
  lemma StagingCanBeMissing()
    ensures var start, t := Disk(None, None, None, map[]), Transaction(None, 7, 1);
      var run := [Install(1, 7, Leaves, 9, None, Leaves, 0), UserActs(Puts(None)), Restore(Leaves, 1),
                  UserActs(Puts(Some(7)))];
      && Inv(start) && OriginalHeld(start) && Legals(start, run) && AllConsiderate(start, run)
      && After(start, run) == Disk(Some(7), None, Some(t), map[])
      && Restorable(After(start, run)) && !Discardable(After(start, run))
  {
    var start, t := Disk(None, None, None, map[]), Transaction(None, 7, 1);
    var install := Install(1, 7, Leaves, 9, None, Leaves, 0);
    var restore := Restore(Leaves, 1);
    var back := [UserActs(Puts(Some(7)))];
    var run := [install, UserActs(Puts(None)), restore] + back;
    assert run[1..] == [UserActs(Puts(None)), restore] + back && run[1..][1..] == [restore] + back
      && run[1..][1..][1..] == back && back[1..] == [];
    var plan := InstallPlan(Prepared(start, install), 1, 7);
    assert plan == [WriteJournal(t), StagedToTarget(1)] && plan[1..] == [StagedToTarget(1)] && plan[1..][1..] == [];
    var installed := Next(start, install);
    assert installed == Disk(Some(7), None, Some(t), map[1 := Staging(None, None)]);
    var away := Next(installed, UserActs(Puts(None)));
    var ending := RestorePlan(t, false, false);
    assert ending == [RemoveStaging(1), RemoveJournal] && ending[..1] == [RemoveStaging(1)] && ending[..1][1..] == [];
    var died := Next(away, restore);
    assert died == Disk(None, None, Some(t), map[]);
    assert Legals(died, back) && AllConsiderate(died, back);
    assert Legals(away, [restore] + back) && AllConsiderate(away, [restore] + back);
  }

  lemma RestoreEnding(d: Disk, t: Transaction)
    requires RestoreDecision(d, d, t).Proceed?
    ensures var end := ApplyAll(d, RestoreDecision(d, d, t).plan);
      end.journal.None? && end.staging == d.staging - {t.staging}
  {
    var moves :=
      (if Same(d.target, Some(t.verification)) then [TargetToDiscard(t.staging)] else [])
      + (if d.backup.Some? && !Same(d.target, t.original) then [BackupToTarget] else []);
    ApplyAppend(d, moves, [RemoveStaging(t.staging), RemoveJournal]);
    MovesTouchOneDirectory(d, t, moves);
    assert [RemoveStaging(t.staging), RemoveJournal][1..] == [RemoveJournal];
    assert [RemoveJournal][1..] == [];
  }

  /** The disk as a run of dying restores leaves it, and then a whole one. */
  function Retried(d: Disk, crashes: seq<nat>): Disk
    decreases |crashes|
  {
    if crashes == [] then RestoreStep(d, Leaves, 4)
    else Retried(RestoreStep(d, Leaves, crashes[0]), crashes[1..])
  }

  /** An install that dies or fails anywhere, any number of restores that die
      anywhere, then one that does not: the target is what it was. */
  lemma InstallThenRestoreIsIdentity(d: Disk, e: Event, crashes: seq<nat>)
    requires Inv(d) && d.journal.None? && d.backup.None?
    requires e.Install? && Legal(d, e) && e.stopping == Leaves && e.recovering == Leaves
    ensures var end := Retried(InstallStep(d, e), crashes);
      end.target == d.target && end.backup.None? && end.journal.None?
  {
    InstallPlanGuarded(d, e);
    InstallKeepsInv(d, e);
    InstallKeepsOriginal(d, e);
    var now := Prepared(d, e);
    var plan := InstallPlan(now, e.dir, e.build);
    var after := InstallStep(d, e);
    var t := Transaction(d.target, e.build, e.dir);
    assert Settling(after, t) by {
      if RenameFails(plan, e.failAt) {
        var mid := ApplyAll(now, plan[..e.failAt.value]);
        PrefixGuarded(now, plan, e.failAt.value);
        GuardedKeepsInv(now, plan[..e.failAt.value]);
        GuardedKeepsOriginal(now, plan[..e.failAt.value]);
        SettlingPlan(now, t, plan[..e.failAt.value]);
        SettlingStep(mid, t, e.recoveryCrash);
      } else {
        PlanReached(now, plan, e.crash);
        SettlingPlan(now, t, Reached(plan, e.crash));
      }
    }
    RetriedRestores(after, t, crashes);
  }

  lemma SettlingStep(d: Disk, t: Transaction, crash: nat)
    requires Inv(d) && OriginalHeld(d) && Settling(d, t)
    ensures Settling(RestoreStep(d, Leaves, crash), t)
  {
    if d.journal.Some? {
      RestoreProceeds(d);
      var plan := RestoreDecision(d, d, t).plan;
      RestorePlanGuarded(d, d, t);
      PlanReached(d, plan, crash);
      SettlingPlan(d, t, Reached(plan, crash));
    }
  }

  lemma {:induction false} RetriedRestores(d: Disk, t: Transaction, crashes: seq<nat>)
    requires Inv(d) && OriginalHeld(d) && Settling(d, t)
    ensures var end := Retried(d, crashes);
      end.target == t.original && end.backup.None? && end.journal.None?
    decreases |crashes|
  {
    if crashes == [] {
      if d.journal.Some? { RestoreCompletes(d); }
    } else {
      RestoreKeepsInv(d, Leaves, crashes[0]);
      RestoreKeepsOriginal(d, Leaves, crashes[0]);
      SettlingStep(d, t, crashes[0]);
      RetriedRestores(RestoreStep(d, Leaves, crashes[0]), t, crashes[1..]);
    }
  }

  // ------------------------------------------------- what an install leaves

  /** What is at the target once the application has been stopped. */
  function Found(d: Disk, stopping: User): Option<Bundle> {
    if stopping.Leaves? then d.target else stopping.target
  }

  /** How many durable writes an install takes: the journal, the original's move
      when there is one, and the build's. */
  function Writes(found: Option<Bundle>): nat {
    if found.Some? then 3 else 2
  }

  predicate Fails(e: Event, found: Option<Bundle>)
    requires e.Install?
  {
    e.failAt.Some? && 0 < e.failAt.value < Writes(found)
  }

  /** The disk after this many writes of an install over `found`: at first only
      the staged build, then the journal, then the original in the backup, and
      at last the build at the target. */
  ghost predicate InstalledSoFar(d: Disk, found: Option<Bundle>, dir: DirName, build: Bundle, writes: nat, end: Disk) {
    var placed := writes >= Writes(found);
    && end.journal == (if writes == 0 then None else Some(Transaction(found, build, dir)))
    && end.target == (if placed then Some(build) else if writes == 2 then None else found)
    && end.backup == (if writes >= 2 then found else None)
    && end.staging == d.staging[dir := Staging(if placed then None else Some(build), None)]
  }

  lemma {:induction false} ApplySnoc(d: Disk, plan: seq<Effect>, e: Effect)
    ensures ApplyAll(d, plan + [e]) == Apply(ApplyAll(d, plan), e)
  {
    ApplyAppend(d, plan, [e]);
    assert [e][1..] == [];
  }

  lemma PlanWrites(d: Disk, e: Event)
    requires e.Install?
    ensures var found, plan := Found(d, e.stopping), InstallPlan(Prepared(d, e), e.dir, e.build);
      && |plan| == Writes(found) && plan[0] == WriteJournal(Transaction(found, e.build, e.dir))
      && plan[|plan| - 1] == StagedToTarget(e.dir) && (found.Some? ==> plan[1] == TargetToBackup)
  {
  }

  lemma {:induction false} PlanLeaves(d: Disk, e: Event, writes: nat)
    requires e.Install? && d.journal.None? && d.backup.None?
    requires writes <= Writes(Found(d, e.stopping))
    ensures var plan := InstallPlan(Prepared(d, e), e.dir, e.build);
      && |plan| == Writes(Found(d, e.stopping))
      && InstalledSoFar(d, Found(d, e.stopping), e.dir, e.build, writes, ApplyAll(Prepared(d, e), plan[..writes]))
  {
    var now, found := Prepared(d, e), Found(d, e.stopping);
    var plan := InstallPlan(now, e.dir, e.build);
    PlanWrites(d, e);
    if writes > 0 {
      PlanLeaves(d, e, writes - 1);
      ApplySnoc(now, plan[..writes - 1], plan[writes - 1]);
      assert plan[..writes] == plan[..writes - 1] + [plan[writes - 1]];
      OneWrite(d, found, e.dir, e.build, writes - 1, ApplyAll(now, plan[..writes - 1]));
    } else {
      assert plan[..0] == [];
    }
  }

  lemma OneWrite(d: Disk, found: Option<Bundle>, dir: DirName, build: Bundle, writes: nat, before: Disk)
    requires InstalledSoFar(d, found, dir, build, writes, before) && writes < Writes(found)
    ensures var e := if writes == 0 then WriteJournal(Transaction(found, build, dir))
                     else if writes == Writes(found) - 1 then StagedToTarget(dir) else TargetToBackup;
      InstalledSoFar(d, found, dir, build, writes + 1, Apply(before, e))
  {
  }

  /** An install of a fresh build over a disk without journal or backup leaves
      exactly what its writes make of it, wherever it dies; when nothing fails
      and it does not die, the build is at the target and whatever was there is
      the backup. */
  lemma InstallPlaces(d: Disk, e: Event)
    requires e.Install? && d.journal.None? && d.backup.None? && !Fails(e, Found(d, e.stopping))
    ensures var found := Found(d, e.stopping);
      && InstalledSoFar(d, found, e.dir, e.build, if e.crash < Writes(found) then e.crash else Writes(found),
                        InstallStep(d, e))
      && (e.crash >= Writes(found) ==>
            InstallStep(d, e) == Disk(Some(e.build), found, Some(Transaction(found, e.build, e.dir)),
                                      d.staging[e.dir := Staging(None, None)]))
  {
    var found := Found(d, e.stopping);
    var writes := if e.crash < Writes(found) then e.crash else Writes(found);
    var plan := InstallPlan(Prepared(d, e), e.dir, e.build);
    PlanLeaves(d, e, writes);
    assert Reached(plan, e.crash) == plan[..writes];
  }

  /** An install whose rename fails leaves the disk as it found it, when nothing
      stops the recovery and the user leaves the target alone meanwhile. */
  lemma FailedInstallIsUndone(d: Disk, e: Event)
    requires Inv(d) && d.journal.None? && d.backup.None? && e.Install? && Legal(d, e)
    requires Fails(e, Found(d, e.stopping)) && e.recovering == Leaves && e.recoveryCrash >= 4
    ensures InstallStep(d, e) == Disk(Found(d, e.stopping), None, None, d.staging)
  {
    InstallPlanGuarded(d, e);
    var now, n := Prepared(d, e), e.failAt.value;
    var plan := InstallPlan(now, e.dir, e.build);
    var mid, t := ApplyAll(now, plan[..n]), Transaction(Found(d, e.stopping), e.build, e.dir);
    PlanLeaves(d, e, n);
    PrefixGuarded(now, plan, n);
    GuardedKeepsInv(now, plan[..n]);
    GuardedKeepsOriginal(now, plan[..n]);
    assert mid.target != Some(e.build) by {
      assert now.staging[e.dir].staged == Some(e.build) && Hidden(now, e.build);
    }
    RestoreCompletes(mid);
    assert RestoreStep(mid, Leaves, e.recoveryCrash) == RestoreStep(mid, Leaves, 4) by { RestoreProceeds(mid); }
    assert d.staging[e.dir := Staging(Some(e.build), None)] - {e.dir} == d.staging;
  }

  // ----------------------------------------------------- the broker itself

  datatype Outcome = Done | Died | Refused(reason: Refusal) | Recovered(recovery: Outcome)

  function Reply(decision: Decision, crash: nat): Outcome {
    if decision.Refuse? then Refused(decision.reason) else if crash < |decision.plan| then Died else Done
  }

  /** The managed paths of one application, renamed and removed in place. */
  class ApplicationSlot {
    var target: Option<Bundle>
    var backup: Option<Bundle>
    var journal: Option<Transaction>
    var staging: map<DirName, Staging>

    function View(): Disk
      reads this
    {
      Disk(target, backup, journal, staging)
    }

    constructor (installed: Option<Bundle>)
      ensures View() == Disk(installed, None, None, map[])
      ensures Inv(View()) && OriginalHeld(View())
    {
      target, backup, journal, staging := installed, None, None, map[];
    }

    method StopApplication(stopping: User)
      modifies this`target
      ensures View() == Act(old(View()), stopping)
    {
      if stopping.Puts? { target := stopping.target; }
    }

    /** `crash` is how many durable effects reach the disk before it dies. */
    method RestoreTransaction(t: Transaction, stopping: User, crash: nat) returns (outcome: Outcome)
      requires journal == Some(t)
      modifies this
      ensures View() == RestoreStep(old(View()), stopping, crash)
      ensures outcome == Reply(RestoreDecision(old(View()), Act(old(View()), stopping), t), crash)
    {
      ghost var before := View();
      var current, held := target, backup;
      if current.Some? && !Same(current, Some(t.verification)) && !Same(current, t.original) {
        StopAfterRefusal(stopping);
        return Refused(DifferentApplication);
      }
      if held.Some? && !Same(held, t.original) {
        StopAfterRefusal(stopping);
        return Refused(BackupChanged);
      }
      if t.original.Some? && !Same(current, t.original) && !Same(held, t.original) {
        StopAfterRefusal(stopping);
        return Refused(OriginalUnavailable);
      }
      StopApplication(stopping);
      ghost var now := View();
      if !Unchanged(current, target) || !Unchanged(held, backup) {
        return Refused(ChangedWhileStopping);
      }
      var discards := Same(current, Some(t.verification));
      if discards && t.staging in staging && staging[t.staging].discarded.Some? {
        return Refused(DestinationOccupied);
      }
      outcome := CarryOut(t, discards, held.Some? && !Same(current, t.original), crash);
    }

    /** The recovery writes, one after the other. The first of them fails when it
        would move a build into a staging directory that is gone. */
    method CarryOut(t: Transaction, discards: bool, puts: bool, crash: nat) returns (outcome: Outcome)
      modifies this
      ensures discards && t.staging !in old(staging) ==> View() == old(View()) && outcome == Refused(StagingMissing)
      ensures !discards || t.staging in old(staging) ==>
        View() == ApplyAll(old(View()), Reached(RestorePlan(t, discards, puts), crash))
      ensures !discards || t.staging in old(staging) ==>
        outcome == if crash < |RestorePlan(t, discards, puts)| then Died else Done
    {
      if discards && t.staging !in staging { return Refused(StagingMissing); }
      ghost var now, plan := View(), RestorePlan(t, discards, puts);
      var done: seq<Effect> := [];
      if discards {
        if |done| == crash { return Died; }
        ApplySnoc(now, done, TargetToDiscard(t.staging));
        done := done + [TargetToDiscard(t.staging)];
        staging := staging[t.staging := staging[t.staging].(discarded := target)];
        target := None;
      }
      assert View() == ApplyAll(now, done) && done == plan[..|done|];
      if puts {
        if |done| == crash { return Died; }
        ApplySnoc(now, done, BackupToTarget);
        done := done + [BackupToTarget];
        target, backup := backup, None;
      }
      assert View() == ApplyAll(now, done) && done == plan[..|done|];
      if |done| == crash { return Died; }
      ApplySnoc(now, done, RemoveStaging(t.staging));
      done := done + [RemoveStaging(t.staging)];
      staging := staging - {t.staging};
      assert View() == ApplyAll(now, done) && done == plan[..|done|];
      if |done| == crash { return Died; }
      ApplySnoc(now, done, RemoveJournal);
      done := done + [RemoveJournal];
      journal := None;
      assert done == plan;
      return Done;
    }

    /** The refusal happens before the application is stopped; the user may
        still act before the next operation. */
    method StopAfterRefusal(stopping: User)
      modifies this`target
      ensures View() == Act(old(View()), stopping)
    {
      StopApplication(stopping);
    }

    method RestoreInstalledBuild(stopping: User, crash: nat) returns (outcome: Outcome)
      modifies this
      ensures View() == Next(old(View()), Restore(stopping, crash))
      ensures old(journal).None? ==>
        outcome == if old(backup).Some? then Refused(LegacyBackup) else Refused(NothingStaged)
      ensures old(journal).Some? ==>
        outcome == Reply(RestoreDecision(old(View()), Act(old(View()), stopping), old(journal).value), crash)
      ensures outcome == Done ==> journal.None?
    {
      if journal.None? {
        return if backup.Some? then Refused(LegacyBackup) else Refused(NothingStaged);
      }
      var t := journal.value;
      ghost var before := View();
      outcome := RestoreTransaction(t, stopping, crash);
      if outcome == Done {
        assert RestoreDecision(before, Act(before, stopping), t).Proceed?;
        var plan := RestoreDecision(before, Act(before, stopping), t).plan;
        assert plan == plan[..|plan| - 1] + [RemoveJournal];
        ApplySnoc(Act(before, stopping), plan[..|plan| - 1], RemoveJournal);
      }
    }

    method InstallVerificationBuild(e: Event) returns (outcome: Outcome)
      requires e.Install? && e.dir !in staging
      modifies this
      ensures View() == Next(old(View()), e)
      ensures old(journal).Some? || old(backup).Some? ==> outcome == Refused(AlreadyStaged) && View() == old(View())
      ensures old(journal).None? && old(backup).None? ==>
        var found := Found(old(View()), e.stopping);
        && (outcome.Recovered? <==> Fails(e, found))
        && (outcome == Done <==> !Fails(e, found) && e.crash >= Writes(found))
      ensures outcome == Done ==>
        && target == Some(e.build) && backup == Found(old(View()), e.stopping)
        && journal == Some(Transaction(backup, e.build, e.dir))
        && staging == old(staging)[e.dir := Staging(None, None)]
    {
      if journal.None? && backup.None? && !Fails(e, Found(View(), e.stopping)) { InstallPlaces(View(), e); }
      if journal.Some? || backup.Some? {
        return Refused(AlreadyStaged);
      }
      staging := staging[e.dir := Staging(Some(e.build), None)];
      StopApplication(e.stopping);
      ghost var now := View();
      ghost var plan := InstallPlan(now, e.dir, e.build);
      var original := target;
      var t := Transaction(original, e.build, e.dir);
      var steps: nat := if original.Some? then 3 else 2;
      var fails := e.failAt.Some? && 0 < e.failAt.value < steps;
      var lives: nat := if fails then e.failAt.value else if e.crash < steps then e.crash else steps;
      ghost var done: seq<Effect> := [];
      if lives > 0 {
        ApplySnoc(now, done, WriteJournal(t));
        done := done + [WriteJournal(t)];
        journal := Some(t);
        assert View() == ApplyAll(now, done) && done == plan[..1];
        if lives > 1 && original.Some? {
          ApplySnoc(now, done, TargetToBackup);
          done := done + [TargetToBackup];
          target, backup := None, target;
          assert View() == ApplyAll(now, done) && done == plan[..2];
        }
        if lives == steps {
          ApplySnoc(now, done, StagedToTarget(e.dir));
          done := done + [StagedToTarget(e.dir)];
          target := staging[e.dir].staged;
          staging := staging[e.dir := staging[e.dir].(staged := None)];
        }
      }
      assert View() == ApplyAll(now, done) && done == plan[..lives];
      if fails {
        var recovery := RestoreTransaction(t, e.recovering, e.recoveryCrash);
        return Recovered(recovery);
      }
      assert Reached(plan, e.crash) == plan[..lives];
      return if lives < steps then Died else Done;
    }
  }
}
