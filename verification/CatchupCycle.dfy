/** Backward-paged catch-up over one channel's history.

    A Slack timestamp is a number of microseconds. A cycle reads the open
    interval between `oldest` and `started` from its newest end, page by page
    and sweep by sweep, and its position is committed only when everything
    wanted on the pages read is durable. Two contracts stand for Slack and for
    SQLite: `IsPage` says what a history page may leave out, and a commit is
    possible only when every required event is already handled.
  */
module CatchupCycle {

  import opened Optional
  import opened SlackTime

  const OVERLAP_MS := 1000
  const OVERLAP: Ts := 1000000

  function Overlapped(ts: Ts): Ts {
    var ms := SlackTsToMs(ts);
    MsToSlackTs(if ms < OVERLAP_MS then 0 else ms - OVERLAP_MS)
  }

  datatype Row = Row(cursor: Option<Ts>, complete: bool, oldest: Ts, started: Ts)

  /** What a channel will ever hold, what of it must be handled, and how long
      after its own timestamp a message may still be invisible to a reader. */
  datatype Channel = Channel(messages: set<Ts>, wanted: set<Ts>, lag: nat)

  ghost predicate ValidChannel(ch: Channel) {
    ch.wanted <= ch.messages && ch.lag <= OVERLAP
  }

  datatype Page = Page(messages: seq<Ts>, hasMore: bool)

  /** A page of the open interval holds its newest messages: whatever it leaves
      out, among those old enough to be visible, is older than all it has, and
      then it says that there is more. */
  ghost predicate IsPage(ch: Channel, started: Ts, oldest: Ts, latest: Ts, page: Page) {
    && (forall m :: m in page.messages ==> m in ch.messages && oldest < m < latest)
    && (forall m :: m in ch.messages && oldest < m < latest && m + ch.lag <= started && m !in page.messages ==>
          page.hasMore && forall p :: p in page.messages ==> m < p)
  }

  datatype State = State(row: Option<Row>, handled: set<Ts>)

  function Begun(row: Option<Row>, nowMs: nat, initialOldest: Ts): Row {
    match row
    case None => Row(None, false, Overlapped(initialOldest), MsToSlackTs(nowMs))
    case Some(r) =>
      if r.complete then Row(None, false, Overlapped(r.started), MsToSlackTs(nowMs)) else r
  }

  function Latest(r: Row): Ts {
    if r.cursor.Some? then r.cursor.value else r.started
  }

  /** Every wanted message of `from <= m < to` that a reader of this cycle was
      sure to see is handled. */
  ghost predicate Handled(ch: Channel, started: Ts, from: Ts, to: Ts, handled: set<Ts>) {
    forall m :: m in ch.wanted && from <= m < to && m + ch.lag <= started ==> m in handled
  }

  /** A committed position: complete, with the whole interval handled, or at a
      message strictly older than before with everything from it on handled. */
  ghost predicate Committed(ch: Channel, begun: Row, r: Row, handled: set<Ts>) {
    && r.oldest == begun.oldest && r.started == begun.started
    && if r.complete then r.cursor == None && Handled(ch, r.started, begun.oldest + 1, Latest(begun), handled)
       else
         && r.cursor.Some? && r.cursor.value in ch.messages
         && begun.oldest < r.cursor.value < Latest(begun)
         && Handled(ch, r.started, r.cursor.value, Latest(begun), handled)
  }

  ghost predicate SweepStep(ch: Channel, s: State, s': State, nowMs: nat, initialOldest: Ts) {
    && s.handled <= s'.handled
    && s'.row.Some?
    && var begun := Begun(s.row, nowMs, initialOldest);
       s'.row.value == begun || Committed(ch, begun, s'.row.value, s'.handled)
  }

  // ------------------------------------------------------------ no gap, ever

  /** `floor` is the bound of the first cycle. Everything wanted up to the
      current cycle's bound is handled; so is everything from its cursor to its
      start, and all of it once it is complete. */
  ghost predicate Inv(ch: Channel, floor: Ts, s: State) {
    && s.row.Some?
    && var r := s.row.value;
    && r.started % 1000 == 0
    && (r.complete ==> r.cursor == None)
    && (forall m :: m in ch.wanted && floor < m <= r.oldest ==> m in s.handled)
    && (r.cursor.Some? ==> Handled(ch, r.started, r.cursor.value, r.started, s.handled))
    && (r.complete ==> Handled(ch, r.started, r.oldest + 1, r.started, s.handled))
  }

  /** Starting one second before the last start, rounding included, leaves no
      wanted message behind: what the last cycle could not yet see is later. */
  lemma NextCycleLeavesNoGap(ch: Channel, floor: Ts, s: State, m: Ts)
    requires ValidChannel(ch) && Inv(ch, floor, s) && s.row.value.complete
    requires m in ch.wanted && floor < m <= Overlapped(s.row.value.started)
    ensures m in s.handled
  {
    var r := s.row.value;
    assert SlackTsToMs(r.started) * 1000 == r.started;
    if m > r.oldest { assert m + ch.lag <= r.started; }
  }

  lemma SweepKeepsInv(ch: Channel, floor: Ts, s: State, s': State, nowMs: nat, initialOldest: Ts)
    requires ValidChannel(ch) && Inv(ch, floor, s) && SweepStep(ch, s, s', nowMs, initialOldest)
    ensures Inv(ch, floor, s')
  {
    var r, begun, r' := s.row.value, Begun(s.row, nowMs, initialOldest), s'.row.value;
    forall m | m in ch.wanted && floor < m <= begun.oldest ensures m in s'.handled {
      if r.complete { NextCycleLeavesNoGap(ch, floor, s, m); }
    }
  }

  /** A run: each state one sweep after the last, whatever it committed. */
  ghost predicate Sweeps(ch: Channel, run: seq<State>) {
    forall i, j :: 0 <= i < j < |run| && j == i + 1 ==> Swept(ch, run[i], run[j])
  }

  ghost predicate Swept(ch: Channel, s: State, s': State) {
    exists nowMs: nat, initialOldest: Ts :: SweepStep(ch, s, s', nowMs, initialOldest)
  }

  lemma {:induction false} RunKeepsInv(ch: Channel, run: seq<State>, i: nat)
    requires ValidChannel(ch) && Sweeps(ch, run) && 1 <= i < |run|
    requires run[0].row == None
    ensures run[1].row.Some? && Inv(ch, run[1].row.value.oldest, run[i])
    decreases i
  {
    assert Swept(ch, run[i - 1], run[i]);
    var now: nat, oldest: Ts :| SweepStep(ch, run[i - 1], run[i], now, oldest);
    var floor := run[1].row.value.oldest;
    if i == 1 {
      FirstSweep(ch, run[0], run[1], now, oldest);
    } else {
      RunKeepsInv(ch, run, i - 1);
      SweepKeepsInv(ch, run[1].row.value.oldest, run[i - 1], run[i], now, oldest);
    }
  }

  lemma FirstSweep(ch: Channel, s: State, s': State, nowMs: nat, initialOldest: Ts)
    requires ValidChannel(ch) && s.row == None && SweepStep(ch, s, s', nowMs, initialOldest)
    ensures s'.row.Some? && Inv(ch, s'.row.value.oldest, s')
  {
  }

  /** No message is skipped: in any run of sweeps, crashed, held or committed,
      with cycles restarting as often as they like, whenever the row says
      complete every wanted message since the first bound that was visible by
      then is handled. */
  lemma NothingSkipped(ch: Channel, run: seq<State>, i: nat, m: Ts)
    requires ValidChannel(ch) && Sweeps(ch, run) && 1 <= i < |run| && run[0].row == None
    requires run[i].row.Some? && run[i].row.value.complete
    requires run[1].row.Some? && m in ch.wanted
    requires run[1].row.value.oldest < m < run[i].row.value.started
    requires m + ch.lag <= run[i].row.value.started
    ensures m in run[i].handled
  {
    RunKeepsInv(ch, run, i);
  }

  /** And at any moment everything up to the bound of the running cycle is. */
  lemma NothingSkippedBelowBound(ch: Channel, run: seq<State>, i: nat, m: Ts)
    requires ValidChannel(ch) && Sweeps(ch, run) && 1 <= i < |run| && run[0].row == None
    requires run[i].row.Some? && run[1].row.Some?
    requires m in ch.wanted && run[1].row.value.oldest < m <= run[i].row.value.oldest
    ensures m in run[i].handled
  {
    RunKeepsInv(ch, run, i);
  }

  // -------------------------------------------------------------- progress

  function Ahead(ch: Channel, r: Row): set<Ts> {
    set m | m in ch.messages && r.oldest < m < Latest(r)
  }

  /** Each commit that does not finish the cycle leaves strictly less to read. */
  lemma CommitMakesProgress(ch: Channel, begun: Row, r: Row, handled: set<Ts>)
    requires Committed(ch, begun, r, handled) && !r.complete
    ensures Ahead(ch, r) < Ahead(ch, begun) && |Ahead(ch, r)| < |Ahead(ch, begun)|
    ensures Begun(Some(r), 0, 0) == r
  {
    assert r.cursor.value in Ahead(ch, begun) && r.cursor.value !in Ahead(ch, r);
    Smaller(Ahead(ch, r), Ahead(ch, begun));
  }

  /** The rows of one cycle, each committed by the sweep after the last. */
  ghost predicate Commits(ch: Channel, rows: seq<Row>, handled: seq<set<Ts>>) {
    && |handled| == |rows|
    && forall i, j :: 0 <= i < j < |rows| && j == i + 1 ==>
         !rows[j].complete && Committed(ch, rows[i], rows[j], handled[j])
  }

  /** After n commits that finished nothing, at least n messages of the cycle
      are behind the position: over k messages the next commit finishes it. */
  lemma {:induction false} CycleCommitsBounded(ch: Channel, rows: seq<Row>, handled: seq<set<Ts>>, n: nat)
    requires n < |rows| && Commits(ch, rows, handled)
    ensures n + |Ahead(ch, rows[n])| <= |Ahead(ch, rows[0])|
  {
    if n > 0 {
      CycleCommitsBounded(ch, rows, handled, n - 1);
      assert Committed(ch, rows[n - 1], rows[n], handled[n]);
      CommitMakesProgress(ch, rows[n - 1], rows[n], handled[n]);
    }
  }

  lemma {:induction false} Smaller(a: set<Ts>, b: set<Ts>)
    requires a < b
    ensures |a| < |b|
    decreases a
  {
    if a != {} {
      var x :| x in a;
      Smaller(a - {x}, b - {x});
    }
  }

  // ------------------------------------------- candidates lose nothing inside

  /** The planner drops messages older than the sweep's bound in milliseconds;
      rounding is monotone, so it drops none of a page's. */
  lemma PageMessagesPassBound(oldest: Ts, parentOldest: Ts, policyMs: nat, ts: Ts)
    requires oldest < ts
    ensures SlackTsToMs(ts) >= Min(Min(SlackTsToMs(oldest), SlackTsToMs(parentOldest)), policyMs)
  {
  }

  function Min(a: nat, b: nat): nat {
    if a < b then a else b
  }

  // --------------------------------------------------------------- the sweep

  function Oldest(messages: seq<Ts>, latest: Ts): (oldest: Ts)
    ensures oldest <= latest && (oldest == latest || oldest in messages)
    ensures forall m :: m in messages ==> oldest <= m
  {
    if messages == [] then latest
    else
      var last := |messages| - 1;
      assert messages == messages[..last] + [messages[last]];
      Min(messages[last], Oldest(messages[..last], latest))
  }

  method RetreatReadCursor(messages: seq<Ts>, latest: Ts) returns (oldest: Ts)
    ensures oldest == Oldest(messages, latest)
    ensures oldest <= latest && (oldest == latest || oldest in messages)
    ensures forall m :: m in messages ==> oldest <= m
  {
    oldest := latest;
    for i := 0 to |messages|
      invariant oldest == Oldest(messages[..i], latest)
    {
      assert messages[..i + 1][..i] == messages[..i];
      if messages[i] < oldest { oldest := messages[i]; }
    }
    assert messages[..|messages|] == messages;
  }

  /** Where the call of this number begins, when all before it have moved. */
  function LatestAt(slack: (nat, Ts) -> Page, from: Ts, call: nat): Ts {
    if call == 0 then from
    else
      var before := LatestAt(slack, from, call - 1);
      Oldest(slack(call - 1, before).messages, before)
  }

  /** The messages of the first calls, in the order they were read. */
  function Gathered(slack: (nat, Ts) -> Page, from: Ts, calls: nat): seq<Ts> {
    if calls == 0 then [] else Gathered(slack, from, calls - 1) + Answer(slack, from, calls - 1).messages
  }

  function Answer(slack: (nat, Ts) -> Page, from: Ts, call: nat): Page {
    slack(call, LatestAt(slack, from, call))
  }

  /** The call brings a page with more behind it, and older messages. */
  predicate Moves(slack: (nat, Ts) -> Page, from: Ts, call: nat) {
    Answer(slack, from, call).hasMore && LatestAt(slack, from, call + 1) != LatestAt(slack, from, call)
  }

  ghost predicate AllMove(slack: (nat, Ts) -> Page, from: Ts, calls: nat) {
    forall k: nat :: k < calls ==> Moves(slack, from, k)
  }

  /** Every call before this one moves, and this one does not. */
  ghost predicate StopsAt(slack: (nat, Ts) -> Page, from: Ts, calls: nat, call: nat) {
    call < calls && AllMove(slack, from, call) && !Moves(slack, from, call)
  }

  datatype Scan =
    | NoProgress | BudgetExhausted
    | Read(messages: seq<Ts>, nextCursor: Option<Ts>, complete: bool)

  /** When each outcome is reported: the first call that does not move ends the
      scan, for want of progress or because nothing is left; otherwise it is the
      method budget that ends it, or the page budget. */
  ghost predicate Reported(scan: Scan, slack: (nat, Ts) -> Page, from: Ts, pageBudget: nat, grants: nat) {
    var calls := Min(pageBudget, grants);
    && (scan.BudgetExhausted? <==> grants < pageBudget && AllMove(slack, from, grants))
    && (scan.NoProgress? <==> exists k: nat :: StopsAt(slack, from, calls, k) && Answer(slack, from, k).hasMore)
    && (scan.Read? && scan.complete <==>
          exists k: nat :: StopsAt(slack, from, calls, k) && !Answer(slack, from, k).hasMore)
    && (scan.Read? && !scan.complete <==> pageBudget <= grants && AllMove(slack, from, pageBudget))
    && (scan.Read? && scan.complete ==>
          forall k: nat :: StopsAt(slack, from, calls, k) ==> scan == Read(Gathered(slack, from, k + 1), None, true))
    && (scan.Read? && !scan.complete ==>
          scan == Read(Gathered(slack, from, pageBudget), Some(LatestAt(slack, from, pageBudget)), false))
  }

  /** The scan has come to this call, which begins at `latest`. */
  ghost predicate Came(slack: (nat, Ts) -> Page, from: Ts, call: nat, latest: Ts, messages: seq<Ts>) {
    && latest == LatestAt(slack, from, call) && messages == Gathered(slack, from, call)
    && AllMove(slack, from, call)
  }

  lemma CameFurther(slack: (nat, Ts) -> Page, from: Ts, call: nat, latest: Ts, messages: seq<Ts>)
    requires Came(slack, from, call, latest, messages) && slack(call, latest).hasMore
    requires Oldest(slack(call, latest).messages, latest) != latest
    ensures var page := slack(call, latest);
      Came(slack, from, call + 1, Oldest(page.messages, latest), messages + page.messages)
  {
  }

  lemma StopIsReported(scan: Scan, slack: (nat, Ts) -> Page, from: Ts, pageBudget: nat, grants: nat, k: nat, latest: Ts,
      messages: seq<Ts>)
    requires k < pageBudget && k < grants && Came(slack, from, k, latest, messages)
    requires var page := slack(k, latest);
      if page.hasMore then scan.NoProgress? && Oldest(page.messages, latest) == latest
      else scan == Read(messages + page.messages, None, true)
    ensures Reported(scan, slack, from, pageBudget, grants)
  {
    assert StopsAt(slack, from, Min(pageBudget, grants), k);
    forall j: nat | StopsAt(slack, from, Min(pageBudget, grants), j) ensures j == k {
      assert j < k ==> Moves(slack, from, j);
      assert k < j ==> Moves(slack, from, k);
    }
  }

  lemma BudgetIsReported(scan: Scan, slack: (nat, Ts) -> Page, from: Ts, pageBudget: nat, grants: nat, latest: Ts,
      messages: seq<Ts>)
    requires Came(slack, from, Min(pageBudget, grants), latest, messages)
    requires if grants < pageBudget then scan.BudgetExhausted? else scan == Read(messages, Some(latest), false)
    ensures Reported(scan, slack, from, pageBudget, grants)
  {
  }

  /** What one scan has read is a committable position once it is handled. */
  ghost predicate Commitable(ch: Channel, begun: Row, scan: Scan)
    requires scan.Read?
  {
    forall handled: set<Ts> ::
      AllHandled(ch, scan.messages, handled) ==>
        Committed(ch, begun, Row(scan.nextCursor, scan.complete, begun.oldest, begun.started), handled)
  }

  ghost predicate AllHandled(ch: Channel, messages: seq<Ts>, handled: set<Ts>) {
    forall m :: m in messages && m in ch.wanted ==> m in handled
  }

  ghost predicate Covers(ch: Channel, entry: Row, from: Ts, messages: seq<Ts>) {
    forall m :: m in ch.messages && from <= m < Latest(entry) && m + ch.lag <= entry.started ==> m in messages
  }

  lemma PageCovers(ch: Channel, entry: Row, latest: Ts, messages: seq<Ts>, page: Page)
    requires IsPage(ch, entry.started, entry.oldest, latest, page) && Covers(ch, entry, latest, messages)
    requires ValidChannel(ch)
    ensures page.hasMore ==> Covers(ch, entry, Oldest(page.messages, latest), messages + page.messages)
    ensures !page.hasMore ==> Commitable(ch, entry, Read(messages + page.messages, None, true))
  {
  }

  lemma PartIsCommitable(ch: Channel, entry: Row, latest: Ts, messages: seq<Ts>)
    requires ValidChannel(ch) && Covers(ch, entry, latest, messages)
    requires latest in ch.messages && entry.oldest < latest < Latest(entry)
    ensures Commitable(ch, entry, Read(messages, Some(latest), false))
  {
  }

  class ChannelCatchup {
    const channel: Channel
    var row: Option<Row>
    var handled: set<Ts>

    ghost function View(): State
      reads this
    {
      State(row, handled)
    }

    constructor (ch: Channel)
      requires ValidChannel(ch)
      ensures channel == ch && View() == State(None, {})
    {
      channel, row, handled := ch, None, {};
    }

    method BeginCatchupReadCycle(nowMs: nat, initialOldest: Ts) returns (entry: Row)
      modifies this`row
      ensures entry == Begun(old(row), nowMs, initialOldest) && row == Some(entry) && !entry.complete
      ensures old(row).Some? && !old(row).value.complete ==> row == old(row)
      ensures old(row).None? || old(row).value.complete ==>
                && entry.cursor.None? && entry.started == MsToSlackTs(nowMs)
                && entry.oldest == Overlapped(if old(row).None? then initialOldest else old(row).value.started)
    {
      var startedTs := MsToSlackTs(nowMs);
      if row.None? {
        row := Some(Row(None, false, Overlapped(initialOldest), startedTs));
      } else if row.value.complete {
        row := Some(Row(None, false, Overlapped(row.value.started), startedTs));
      }
      entry := row.value;
    }

    /** Pages backwards from the committed position. `slack` answers each call,
        and `grants` is how many calls the method budget still allows. */
    method ChannelHistory(entry: Row, pageBudget: nat, grants: nat, slack: (nat, Ts) -> Page) returns (scan: Scan)
      requires ValidChannel(channel) && 1 <= pageBudget
      requires forall call, latest :: IsPage(channel, entry.started, entry.oldest, latest, slack(call, latest))
      ensures scan.Read? ==> Commitable(channel, entry, scan)
      ensures Reported(scan, slack, Latest(entry), pageBudget, grants)
    {
      var messages: seq<Ts> := [];
      var latest := Latest(entry);
      var page := 0;
      while page < pageBudget
        invariant page <= pageBudget
        invariant page > 0 ==> latest in channel.messages && entry.oldest < latest < Latest(entry)
        invariant page == 0 ==> latest == Latest(entry)
        invariant Covers(channel, entry, latest, messages)
        invariant page <= grants && Came(slack, Latest(entry), page, latest, messages)
        decreases pageBudget - page
      {
        if page >= grants {
          BudgetIsReported(BudgetExhausted, slack, Latest(entry), pageBudget, grants, latest, messages);
          return BudgetExhausted;
        }
        var response := slack(page, latest);
        assert IsPage(channel, entry.started, entry.oldest, latest, response);
        PageCovers(channel, entry, latest, messages, response);
        ghost var before := messages;
        messages := messages + response.messages;
        var boundary := RetreatReadCursor(response.messages, latest);
        if response.hasMore && boundary == latest {
          StopIsReported(NoProgress, slack, Latest(entry), pageBudget, grants, page, latest, before);
          return NoProgress;
        }
        if !response.hasMore {
          scan := Read(messages, None, true);
          StopIsReported(scan, slack, Latest(entry), pageBudget, grants, page, latest, before);
          return;
        }
        CameFurther(slack, Latest(entry), page, latest, before);
        latest := boundary;
        page := page + 1;
      }
      scan := Read(messages, Some(latest), false);
      PartIsCommitable(channel, entry, latest, messages);
      BudgetIsReported(scan, slack, Latest(entry), pageBudget, grants, latest, messages);
    }

    /** The store commits a position only if every required event is handled. */
    method CommitIfDurable(r: Row, required: set<Ts>) returns (committed: bool)
      modifies this`row
      ensures committed <==> required <= handled
      ensures row == if committed then Some(r) else old(row)
    {
      committed := required <= handled;
      if committed { row := Some(r); }
    }

    /** One channel of one sweep. `confirmed` are the messages that become
        durable, or are explicitly settled without delivery, while it runs. A
        sweep that dies does so with `dies`, before it can commit. */
    method Sweep(nowMs: nat, initialOldest: Ts, pageBudget: nat, grants: nat,
                 slack: (nat, Ts) -> Page, confirmed: set<Ts>, dies: bool)
      returns (committed: bool, ghost scan: Scan)
      requires ValidChannel(channel) && 1 <= pageBudget
      requires var entry := Begun(row, nowMs, initialOldest);
        forall call, latest :: IsPage(channel, entry.started, entry.oldest, latest, slack(call, latest))
      modifies this
      ensures SweepStep(channel, old(View()), View(), nowMs, initialOldest)
      ensures var entry := Begun(old(row), nowMs, initialOldest);
        && Reported(scan, slack, Latest(entry), pageBudget, grants)
        && handled == (if scan.Read? then old(handled) + confirmed else old(handled))
        && (committed <==> scan.Read? && !dies && AllHandled(channel, scan.messages, handled))
        && row == Some(if committed then Row(scan.nextCursor, scan.complete, entry.oldest, entry.started) else entry)
    {
      committed := false;
      var entry := BeginCatchupReadCycle(nowMs, initialOldest);
      var read := ChannelHistory(entry, pageBudget, grants, slack);
      scan := read;
      if !read.Read? { return; }
      var required := set m | m in read.messages && m in channel.wanted;
      handled := handled + confirmed;
      var outstanding := required - handled;
      assert outstanding == {} <==> AllHandled(channel, read.messages, handled) by {
        assert forall m :: m in outstanding <==> m in read.messages && m in channel.wanted && m !in handled;
      }
      if dies || outstanding != {} { return; }
      committed := CommitIfDurable(Row(read.nextCursor, read.complete, entry.oldest, entry.started), required);
    }
  }
}
