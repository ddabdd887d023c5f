/** The poller that re-reads the threads the bot owns.

    A thread is polled from a durable cursor that only a poll may move. The
    Slack contract is `IsReplyPage`: a page is the thread's earliest replies
    after the cursor (with the root, which Slack repeats on every page).
  */
module ThreadPoll {
  import opened Optional
  import opened SlackTime

  datatype Sender = Own | Unidentified | Human | MentioningBot | OtherBot
  datatype Subtype = NoSubtype | BotMessage | FileShare | ThreadBroadcast | System
  datatype Reply = Reply(ts: Option<Ts>, sender: Sender, subtype: Subtype)

  /** A known sender that is not this app; another bot only when it mentions it. */
  predicate SenderEligible(r: Reply) {
    r.sender == Human || r.sender == MentioningBot
  }

  predicate Eligible(r: Reply) {
    r.ts.Some? && SenderEligible(r) && r.subtype != System
  }

  predicate New(r: Reply, cursor: Ts) {
    Eligible(r) && r.ts.value > cursor
  }

  // ----------------------------------------------------- selecting and order

  function Filter(replies: seq<Reply>, cursor: Ts): (news: seq<Reply>)
    ensures forall r :: r in news <==> r in replies && New(r, cursor)
    ensures |news| <= |replies|
  {
    if replies == [] then []
    else if New(replies[0], cursor) then [replies[0]] + Filter(replies[1..], cursor)
    else Filter(replies[1..], cursor)
  }

  function TsOf(r: Reply): Ts {
    if r.ts.Some? then r.ts.value else 0
  }

  predicate OldestFirst(replies: seq<Reply>) {
    forall i, j :: 0 <= i < j < |replies| ==> TsOf(replies[i]) <= TsOf(replies[j])
  }

  /** Before the first one that is not earlier: equal timestamps keep order. */
  function Insert(r: Reply, sorted: seq<Reply>): (s: seq<Reply>)
    ensures multiset(s) == multiset(sorted) + multiset{r}
  {
    if sorted == [] || TsOf(r) <= TsOf(sorted[0]) then [r] + sorted
    else
      assert sorted == [sorted[0]] + sorted[1..];
      [sorted[0]] + Insert(r, sorted[1..])
  }

  lemma {:induction false} InsertKeepsOrder(r: Reply, sorted: seq<Reply>)
    requires OldestFirst(sorted)
    ensures OldestFirst(Insert(r, sorted))
    ensures forall x :: x in Insert(r, sorted) <==> x == r || x in sorted
  {
    if sorted != [] && TsOf(r) > TsOf(sorted[0]) {
      InsertKeepsOrder(r, sorted[1..]);
      assert sorted == [sorted[0]] + sorted[1..];
      var rest := Insert(r, sorted[1..]);
      forall i | 0 <= i < |rest| ensures TsOf(sorted[0]) <= TsOf(rest[i]) {
        assert rest[i] in rest;
      }
    }
  }

  function SortByTs(replies: seq<Reply>): (s: seq<Reply>)
    ensures multiset(s) == multiset(replies)
  {
    if replies == [] then []
    else
      assert replies == [replies[0]] + replies[1..];
      Insert(replies[0], SortByTs(replies[1..]))
  }

  lemma {:induction false} SortedOldestFirst(replies: seq<Reply>)
    ensures OldestFirst(SortByTs(replies))
    ensures forall x :: x in SortByTs(replies) <==> x in replies
  {
    if replies != [] {
      SortedOldestFirst(replies[1..]);
      InsertKeepsOrder(replies[0], SortByTs(replies[1..]));
      assert replies == [replies[0]] + replies[1..];
    }
  }

  /** Exactly the eligible replies after the cursor, oldest first. */
  function SelectNewReplies(replies: seq<Reply>, cursor: Ts): (news: seq<Reply>)
    ensures forall r :: r in news <==> r in replies && New(r, cursor)
    ensures OldestFirst(news)
    ensures multiset(news) == multiset(Filter(replies, cursor))
  {
    SortedOldestFirst(Filter(replies, cursor));
    SortByTs(Filter(replies, cursor))
  }

  /** How far the page was read, whoever wrote it. */
  function Newest(replies: seq<Reply>, cursor: Ts): (newest: Ts)
    ensures newest >= cursor
    ensures newest == cursor || exists r :: r in replies && r.ts == Some(newest)
    ensures forall r :: r in replies && r.ts.Some? ==> r.ts.value <= newest
  {
    if replies == [] then cursor
    else
      var last := |replies| - 1;
      assert replies == replies[..last] + [replies[last]];
      var before := Newest(replies[..last], cursor);
      if TsOf(replies[last]) > before then TsOf(replies[last]) else before
  }

  method AdvanceReadCursor(replies: seq<Reply>, cursor: Ts) returns (maxTs: Ts)
    ensures maxTs == Newest(replies, cursor)
    ensures maxTs >= cursor
    ensures maxTs == cursor || exists r :: r in replies && r.ts == Some(maxTs)
    ensures forall r :: r in replies && r.ts.Some? ==> r.ts.value <= maxTs
  {
    maxTs := cursor;
    for i := 0 to |replies|
      invariant maxTs == Newest(replies[..i], cursor)
    {
      assert replies[..i + 1][..i] == replies[..i];
      if replies[i].ts.Some? && replies[i].ts.value > maxTs { maxTs := replies[i].ts.value; }
    }
    assert replies[..|replies|] == replies;
  }

  datatype Plan = Plan(cursor: Ts, deliver: seq<Reply>, skipped: seq<Reply>)

  /** Every new eligible reply is either handed over or skipped by policy. */
  method PlanThreadPoll(replies: seq<Reply>, cursor: Ts, policy: Reply -> bool) returns (plan: Plan)
    ensures plan.cursor == Newest(replies, cursor)
    ensures forall r :: r in plan.deliver <==> r in replies && New(r, cursor) && policy(r)
    ensures forall r :: r in plan.skipped <==> r in replies && New(r, cursor) && !policy(r)
    ensures multiset(plan.deliver) + multiset(plan.skipped) == multiset(Filter(replies, cursor))
    ensures OldestFirst(plan.deliver)
  {
    var end := AdvanceReadCursor(replies, cursor);
    var news := SelectNewReplies(replies, cursor);
    var deliver, skipped := SplitByPolicy(news, policy);
    return Plan(end, deliver, skipped);
  }

  lemma DeliverKeepsOrder(news: seq<Reply>, i: nat, policy: Reply -> bool, deliver: seq<Reply>, skipped: seq<Reply>)
    requires i < |news| && OldestFirst(news) && OldestFirst(deliver) && Split(news[..i], policy, deliver, skipped)
    ensures OldestFirst(deliver + [news[i]])
  {
    forall j | 0 <= j < |deliver| ensures TsOf(deliver[j]) <= TsOf(news[i]) {
      assert deliver[j] in news[..i];
    }
  }

  method SplitByPolicy(news: seq<Reply>, policy: Reply -> bool) returns (deliver: seq<Reply>, skipped: seq<Reply>)
    requires OldestFirst(news)
    ensures Split(news, policy, deliver, skipped)
    ensures multiset(deliver) + multiset(skipped) == multiset(news)
    ensures OldestFirst(deliver)
  {
    deliver, skipped := [], [];
    for i := 0 to |news|
      invariant Split(news[..i], policy, deliver, skipped)
      invariant multiset(deliver) + multiset(skipped) == multiset(news[..i])
      invariant OldestFirst(deliver)
    {
      assert news[..i + 1] == news[..i] + [news[i]];
      if policy(news[i]) {
        DeliverKeepsOrder(news, i, policy, deliver, skipped);
        deliver := deliver + [news[i]];
      } else {
        skipped := skipped + [news[i]];
      }
    }
    assert news[..|news|] == news;
  }

  ghost predicate Split(all: seq<Reply>, policy: Reply -> bool, deliver: seq<Reply>, skipped: seq<Reply>) {
    && (forall r :: r in deliver <==> r in all && policy(r))
    && (forall r :: r in skipped <==> r in all && !policy(r))
  }

  // ------------------------------------------------------------ the position

  /** Where to resume. Zero milliseconds counts as no activity. */
  function ThreadPollCursor(seen: Option<Ts>, adoptedFrom: Option<Ts>, lastActivityMs: Option<nat>, threadTs: Ts): Ts {
    if seen.Some? then seen.value
    else if adoptedFrom.Some? then adoptedFrom.value
    else if lastActivityMs.Some? && lastActivityMs.value != 0 then MsToSlackTs(lastActivityMs.value)
    else threadTs
  }

  // ------------------------------------------------------------- whole runs

  /** A thread as it will ever be: all its replies, its root among them. */
  datatype Thread = Thread(replies: set<Reply>, adoptedFrom: Option<Ts>, threadTs: Ts)

  ghost predicate IsReplyPage(thread: Thread, cursor: Ts, page: seq<Reply>) {
    && (forall r :: r in page ==> r in thread.replies)
    && (forall r :: r in thread.replies && r.ts.Some? && r.ts.value > cursor && r !in page ==>
          forall p :: p in page && p.ts.Some? ==> p.ts.value < r.ts.value)
  }

  /** `seed` is where the first committed poll of this ownership began. */
  datatype State = State(cursor: Option<Ts>, seed: Option<Ts>, durable: set<Ts>, skipped: set<Ts>)

  ghost predicate Settled(thread: Thread, from: Ts, to: Ts, s: State) {
    forall r :: r in thread.replies && Eligible(r) && from < r.ts.value <= to ==>
      r.ts.value in s.durable || r.ts.value in s.skipped
  }

  /** What one poll meets: a page, what the policy lets through, which hand-offs
      were confirmed in time, and which messages became durable meanwhile. */
  datatype Meeting = Meeting(
    page: seq<Reply>, lastActivityMs: Option<nat>, policy: Reply -> bool, accepted: Reply -> bool, arrived: set<Ts>)

  function PolledFrom(thread: Thread, cursor: Option<Ts>, m: Meeting): Ts {
    ThreadPollCursor(cursor, thread.adoptedFrom, m.lastActivityMs, thread.threadTs)
  }

  /** Every new eligible reply that the policy lets through was handed over, and
      is durable. */
  ghost predicate Cleared(m: Meeting, from: Ts, durable: set<Ts>) {
    forall r :: r in m.page && New(r, from) && m.policy(r) ==> m.accepted(r) && r.ts.value in durable
  }

  /** The timestamp is that of a new eligible reply which the policy refused. */
  ghost predicate RefusedByPolicy(m: Meeting, from: Ts, ts: Ts) {
    exists r :: r in m.page && New(r, from) && !m.policy(r) && r.ts.value == ts
  }

  ghost predicate Commits(thread: Thread, s: State, m: Meeting) {
    var from := PolledFrom(thread, s.cursor, m);
    && Cleared(m, from, s.durable + m.arrived) && (s.cursor.None? || Newest(m.page, from) != from)
  }

  /** A poll moves the position exactly when it may, to the newest of the page;
      and it skips exactly what the policy refused. */
  ghost predicate PollStep(thread: Thread, s: State, s': State, m: Meeting) {
    var from := PolledFrom(thread, s.cursor, m);
    && IsReplyPage(thread, from, m.page) && s'.durable == s.durable + m.arrived
    && (forall ts :: ts in s'.skipped <==> ts in s.skipped || RefusedByPolicy(m, from, ts))
    && s'.cursor == (if Commits(thread, s, m) then Some(Newest(m.page, from)) else s.cursor)
    && s'.seed == (if Commits(thread, s, m) && s.cursor.None? then Some(from) else s.seed)
  }

  /** Everything but a poll: live delivery, restarts, failed hand-offs. Only
      forgetting the thread touches the position. */
  ghost predicate OtherStep(s: State, s': State) {
    && s.durable <= s'.durable && s.skipped == s'.skipped
    && ((s'.cursor == s.cursor && s'.seed == s.seed) || (s'.cursor == None && s'.seed == None))
  }

  ghost predicate Step(thread: Thread, s: State, s': State) {
    OtherStep(s, s') || exists m: Meeting :: PollStep(thread, s, s', m)
  }

  ghost predicate Inv(thread: Thread, s: State) {
    && (s.cursor.Some? <==> s.seed.Some?)
    && (s.cursor.Some? ==>
          && s.seed.value <= s.cursor.value
          && (thread.adoptedFrom.Some? ==> s.seed == thread.adoptedFrom)
          && Settled(thread, s.seed.value, s.cursor.value, s))
  }

  /** What a committed poll has read is settled. */
  lemma CommittedIsSettled(thread: Thread, s: State, s': State, m: Meeting)
    requires PollStep(thread, s, s', m) && Commits(thread, s, m)
    ensures Settled(thread, PolledFrom(thread, s.cursor, m), s'.cursor.value, s')
  {
    var from := PolledFrom(thread, s.cursor, m);
    forall r | r in thread.replies && Eligible(r) && from < r.ts.value <= s'.cursor.value
      ensures r.ts.value in s'.durable || r.ts.value in s'.skipped
    {
      assert New(r, from) && r in m.page;
      if !m.policy(r) { assert RefusedByPolicy(m, from, r.ts.value); }
    }
  }

  /** And none of it is new to a later poll, whatever the later page repeats. */
  lemma NothingTwice(thread: Thread, s: State, s': State, m: Meeting, later: Meeting, r: Reply)
    requires PollStep(thread, s, s', m) && Commits(thread, s, m) && r in m.page
    ensures !New(r, PolledFrom(thread, s'.cursor, later))
  {
  }

  lemma PollKeepsInv(thread: Thread, s: State, s': State, m: Meeting)
    requires Inv(thread, s) && PollStep(thread, s, s', m)
    ensures Inv(thread, s')
    ensures s.cursor.Some? && s'.cursor.Some? ==> s.cursor.value <= s'.cursor.value && s'.seed == s.seed
  {
    if Commits(thread, s, m) { CommittedIsSettled(thread, s, s', m); }
  }

  lemma StepKeepsInv(thread: Thread, s: State, s': State)
    requires Inv(thread, s) && Step(thread, s, s')
    ensures Inv(thread, s')
    ensures s.cursor.Some? && s'.cursor.Some? ==> s.cursor.value <= s'.cursor.value && s'.seed == s.seed
  {
    if !OtherStep(s, s') {
      var m: Meeting :| PollStep(thread, s, s', m);
      PollKeepsInv(thread, s, s', m);
    }
  }

  ghost predicate Polls(thread: Thread, run: seq<State>) {
    forall i, j :: 0 <= i < j < |run| && j == i + 1 ==> Step(thread, run[i], run[j])
  }

  /** In every run mixing live delivery, polls, failed hand-offs, restarts and
      re-adoption: every eligible reply after the adoption mark and at or before
      the cursor has been handled durably or skipped by policy. */
  lemma {:induction false} NoReplySkipped(thread: Thread, run: seq<State>, i: nat)
    requires Polls(thread, run) && i < |run| && Inv(thread, run[0])
    ensures Inv(thread, run[i])
    decreases i
  {
    if i > 0 {
      NoReplySkipped(thread, run, i - 1);
      assert Step(thread, run[i - 1], run[i]);
      StepKeepsInv(thread, run[i - 1], run[i]);
    }
  }

  /** The poll of step `k` of the run refused a reply of this time by policy. */
  ghost predicate SkippedAt(thread: Thread, run: seq<State>, k: nat, ts: Ts)
    requires k + 1 < |run|
  {
    exists m: Meeting ::
      PollStep(thread, run[k], run[k + 1], m) && RefusedByPolicy(m, PolledFrom(thread, run[k].cursor, m), ts)
  }

  /** Nothing counts as skipped that no poll's policy refused. */
  lemma {:induction false} SkippedOnlyByPolicy(thread: Thread, run: seq<State>, i: nat, ts: Ts)
    requires Polls(thread, run) && i < |run| && ts in run[i].skipped && ts !in run[0].skipped
    ensures exists k: nat :: k < i && SkippedAt(thread, run, k, ts)
    decreases i
  {
    if ts in run[i - 1].skipped {
      SkippedOnlyByPolicy(thread, run, i - 1, ts);
    } else {
      assert Step(thread, run[i - 1], run[i]);
      assert SkippedAt(thread, run, i - 1, ts);
    }
  }

  /** And while the thread stays owned its cursor never moves backwards. */
  lemma {:induction false} CursorNeverRetreats(thread: Thread, run: seq<State>, i: nat, j: nat)
    requires Polls(thread, run) && i <= j < |run| && Inv(thread, run[0])
    requires forall k :: i <= k <= j ==> run[k].cursor.Some?
    ensures run[i].cursor.value <= run[j].cursor.value
    decreases j
  {
    if i < j {
      NoReplySkipped(thread, run, j - 1);
      assert Step(thread, run[j - 1], run[j]);
      CursorNeverRetreats(thread, run, i, j - 1);
    }
  }

  // -------------------------------------------------------------- the poller

  ghost predicate PlannedFor(m: Meeting, from: Ts, plan: Plan) {
    && (forall r :: r in plan.deliver <==> r in m.page && New(r, from) && m.policy(r))
    && (forall r :: r in plan.skipped <==> r in m.page && New(r, from) && !m.policy(r))
  }

  predicate AllAccepted(m: Meeting, plan: Plan) {
    forall r :: r in plan.deliver ==> m.accepted(r)
  }

  function TimesOf(replies: seq<Reply>): (times: set<Ts>)
    ensures forall r :: r in replies ==> TsOf(r) in times
    ensures forall ts :: ts in times ==> exists r :: r in replies && TsOf(r) == ts
  {
    set r | r in replies :: TsOf(r)
  }

  lemma ClearedByPlan(m: Meeting, from: Ts, plan: Plan, durable: set<Ts>)
    requires PlannedFor(m, from, plan)
    ensures Cleared(m, from, durable) <==> AllAccepted(m, plan) && TimesOf(plan.deliver) <= durable
  {
    if AllAccepted(m, plan) && TimesOf(plan.deliver) <= durable {
      forall r | r in m.page && New(r, from) && m.policy(r) ensures m.accepted(r) && r.ts.value in durable {
        assert r in plan.deliver;
      }
    }
  }

  lemma SkippedByPlan(m: Meeting, from: Ts, plan: Plan, ts: Ts)
    requires PlannedFor(m, from, plan)
    ensures ts in TimesOf(plan.skipped) <==> RefusedByPolicy(m, from, ts)
  {
  }

  /** What the plan's lists decide is what the step allows. */
  lemma PlanDecides(thread: Thread, s: State, m: Meeting, plan: Plan, committed: bool)
    requires var from := PolledFrom(thread, s.cursor, m);
      && PlannedFor(m, from, plan) && IsReplyPage(thread, from, m.page) && plan.cursor == Newest(m.page, from)
      && (committed <==> AllAccepted(m, plan) && (plan.cursor != from || s.cursor.None?)
                         && TimesOf(plan.deliver) <= s.durable + m.arrived)
    ensures var from := PolledFrom(thread, s.cursor, m);
      && (committed <==> Commits(thread, s, m))
      && PollStep(thread, s, State(if committed then Some(plan.cursor) else s.cursor,
                                   if committed && s.cursor.None? then Some(from) else s.seed,
                                   s.durable + m.arrived, s.skipped + TimesOf(plan.skipped)), m)
  {
    var from := PolledFrom(thread, s.cursor, m);
    ClearedByPlan(m, from, plan, s.durable + m.arrived);
    forall ts ensures ts in TimesOf(plan.skipped) <==> RefusedByPolicy(m, from, ts) {
      SkippedByPlan(m, from, plan, ts);
    }
  }

  class OwnedThread {
    const thread: Thread
    var cursor: Option<Ts>
    var durable: set<Ts>
    ghost var seed: Option<Ts>
    ghost var skipped: set<Ts>

    ghost function View(): State
      reads this
    {
      State(cursor, seed, durable, skipped)
    }

    constructor (owned: Thread)
      ensures thread == owned && View() == State(None, None, {}, {})
      ensures Inv(thread, View())
    {
      thread, cursor, durable, seed, skipped := owned, None, {}, None, {};
    }

    /** One poll of one page; says whether the position was committed. */
    method Poll(m: Meeting) returns (committed: bool)
      requires IsReplyPage(thread, PolledFrom(thread, cursor, m), m.page)
      modifies this
      ensures PollStep(thread, old(View()), View(), m)
      ensures committed <==> Commits(thread, old(View()), m)
    {
      ghost var before := View();
      var cursorTs := ThreadPollCursor(cursor, thread.adoptedFrom, m.lastActivityMs, thread.threadTs);
      var plan := PlanThreadPoll(m.page, cursorTs, m.policy);
      durable := durable + m.arrived;
      skipped := skipped + TimesOf(plan.skipped);
      committed := AllAccepted(m, plan) && (plan.cursor != cursorTs || cursor.None?)
                   && TimesOf(plan.deliver) <= durable;
      if committed {
        if cursor.None? { seed := Some(cursorTs); }
        cursor := Some(plan.cursor);
      }
      PlanDecides(thread, before, m, plan, committed);
    }

    /** The live path makes a message durable and leaves the position alone. */
    method DeliverLive(ts: Ts)
      modifies this`durable
      ensures OtherStep(old(View()), View()) && durable == old(durable) + {ts}
    {
      durable := durable + {ts};
    }

    method Forget()
      modifies this
      ensures OtherStep(old(View()), View()) && cursor == None
    {
      cursor, seed := None, None;
    }
  }
}
