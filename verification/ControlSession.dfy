/** The Claude stream-json control session: requests and user messages waiting
    for their answers, and the queue of events between reader and consumer.

    Each event below is one uninterrupted stretch of the session's code: a call,
    a line taken by the reader, a timer, a failed write, or the end of the
    stream. A run is any sequence of them.
  */
module ControlSession {

  import opened Optional

  /** A control request waits under the key of its own number, a user message
      under its message id. */
  datatype Waiter = Control(nonce: string, number: nat) | User(uuid: string)

  datatype Entry = Entry(waiter: Waiter, id: nat)

  datatype How = Answered(key: Waiter, success: bool) | Echoed(uuid: string) | TimedOut | WriteFailed | StreamEnded

  datatype Body =
    | ControlResponse(key: Option<Waiter>, success: bool)
    | ControlCancel
    | ControlRequest(wellFormed: bool)
    | Init(agrees: bool)
    | UserMessage(uuid: Option<string>)
    | Plain

  /** `foreign` says that the event names another session; `size` is the number
      of bytes of its JSON text. */
  datatype ClaudeEvent = ClaudeEvent(root: bool, foreign: bool, body: Body, size: nat)

  /** Who waits for what: the session's maps and counters, then every waiter
      ever registered, the settled ones with what settled them, and the message
      ids written. */
  datatype Waiting = Waiting(
    nonce: string, sequence: nat, pending: seq<Entry>, userAcks: seq<Entry>, sentMessageIds: set<string>,
    issued: seq<Entry>, settled: seq<Entry>, hows: seq<How>, written: seq<string>)

  /** The event queue with its accounted bytes, and what went in and out. */
  datatype Inbox = Inbox(
    limit: nat, queue: seq<ClaudeEvent>, queuedBytes: int, accepted: seq<ClaudeEvent>, dequeued: seq<ClaudeEvent>)

  datatype State = State(waiting: Waiting, inbox: Inbox, failure: bool, ended: bool, reading: bool)

  function New(nonce: string, limit: nat): State {
    State(Waiting(nonce, 0, [], [], {}, [], [], [], []), Inbox(limit, [], 0, [], []), false, false, true)
  }

  datatype Event =
    | Request(journaled: bool)
    | SendUser(uuid: string, valid: bool, journaled: bool)
    | FailWrite(waiter: Waiter)
    | Expire(waiter: Waiter)
    | Arrive(event: ClaudeEvent, handled: bool)
    | FailAnswer
    | BreakStream
    | EndStream
    | Close
    | Next

  function Find(entries: seq<Entry>, w: Waiter): (r: Option<nat>)
    ensures r.Some? ==> r.value < |entries| && entries[r.value].waiter == w
    ensures r.None? ==> forall i :: 0 <= i < |entries| ==> entries[i].waiter != w
  {
    if entries == [] then None
    else if entries[0].waiter == w then Some(0)
    else
      var rest := Find(entries[1..], w);
      if rest.None? then None else Some(rest.value + 1)
  }

  function Remove(entries: seq<Entry>, i: nat): (r: seq<Entry>)
    requires i < |entries|
    ensures multiset(r) + multiset{entries[i]} == multiset(entries)
  {
    assert entries == entries[..i] + [entries[i]] + entries[i + 1..];
    entries[..i] + entries[i + 1..]
  }

  /** Settles the waiter if it still waits. */
  function Settle(t: Waiting, w: Waiter, how: How): Waiting {
    if w.Control? then
      var i := Find(t.pending, w);
      if i.None? then t
      else t.(pending := Remove(t.pending, i.value),
              settled := t.settled + [t.pending[i.value]], hows := t.hows + [how])
    else
      var i := Find(t.userAcks, w);
      if i.None? then t
      else t.(userAcks := Remove(t.userAcks, i.value),
              settled := t.settled + [t.userAcks[i.value]], hows := t.hows + [how])
  }

  function Ends(n: nat): (r: seq<How>)
    ensures |r| == n && forall i :: 0 <= i < n ==> r[i] == StreamEnded
  {
    if n == 0 then [] else [StreamEnded] + Ends(n - 1)
  }

  function RejectOutstanding(t: Waiting): Waiting {
    t.(pending := [], userAcks := [],
       settled := t.settled + (t.pending + t.userAcks), hows := t.hows + Ends(|t.pending| + |t.userAcks|))
  }

  function Fail(s: State): State {
    s.(failure := true, waiting := RejectOutstanding(s.waiting))
  }

  /** The reader stops at its own failures. A failed answer to an inbound request
      fails the session too, and leaves the reader running. */
  function Break(s: State): State {
    Fail(s.(reading := false))
  }

  function Enqueue(s: State, e: ClaudeEvent, handled: bool): State {
    if !handled then Break(s)
    else
      var bytes := s.inbox.queuedBytes + e.size;
      if bytes > s.inbox.limit then Break(s.(inbox := s.inbox.(queuedBytes := bytes)))
      else s.(inbox := Push(s.inbox, e))
  }

  function Push(b: Inbox, e: ClaudeEvent): Inbox {
    b.(queuedBytes := b.queuedBytes + e.size, queue := b.queue + [e], accepted := b.accepted + [e])
  }

  function Shift(b: Inbox): Inbox
    requires b.queue != []
  {
    var first := b.queue[0];
    b.(queue := b.queue[1..], dequeued := b.dequeued + [first],
       queuedBytes := b.queuedBytes - first.size)
  }

  function Echo(s: State, uuid: string): State {
    s.(waiting := Settle(s.waiting, User(uuid), Echoed(uuid)))
  }

  function Answer(s: State, key: Waiter, success: bool): State {
    s.(waiting := Settle(s.waiting, key, Answered(key, success)))
  }

  datatype Reaction = Refuse | Ignore | Resolve(key: Waiter, success: bool) | Deliver(echo: Option<string>)

  function React(e: ClaudeEvent): Reaction {
    if e.root && e.foreign then Refuse
    else
      match e.body
      case ControlResponse(key, success) =>
        if key.None? then Refuse else if key.value.User? then Ignore else Resolve(key.value, success)
      case ControlCancel => Ignore
      case ControlRequest(wellFormed) => if wellFormed then Ignore else Refuse
      case Init(agrees) => if e.root && !agrees then Refuse else Deliver(None)
      case UserMessage(uuid) => Deliver(if e.root then uuid else None)
      case Plain => Deliver(None)
  }

  /** What the reader does with one event. */
  function Accept(s: State, e: ClaudeEvent, handled: bool): State {
    match React(e)
    case Refuse => Break(s)
    case Ignore => s
    case Resolve(key, success) => Answer(s, key, success)
    case Deliver(echo) => Enqueue(if echo.Some? then Echo(s, echo.value) else s, e, handled)
  }

  function AskControl(t: Waiting, journaled: bool): Waiting {
    var id := t.sequence + 1;
    var entry := Entry(Control(t.nonce, id), id);
    if !journaled then t.(sequence := id)
    else t.(sequence := id, pending := t.pending + [entry], issued := t.issued + [entry])
  }

  function AskUser(t: Waiting, uuid: string, journaled: bool): Waiting {
    var id := t.sequence + 1;
    var entry := Entry(User(uuid), id);
    if !journaled then t.(sequence := id)
    else
      t.(sequence := id, sentMessageIds := t.sentMessageIds + {uuid}, written := t.written + [uuid],
         userAcks := t.userAcks + [entry], issued := t.issued + [entry])
  }

  function Step(s: State, e: Event): State {
    match e
    case Request(journaled) =>
      if s.failure || s.ended then s else s.(waiting := AskControl(s.waiting, journaled))
    case SendUser(uuid, valid, journaled) =>
      if s.failure || s.ended || !valid || uuid in s.waiting.sentMessageIds then s
      else s.(waiting := AskUser(s.waiting, uuid, journaled))
    case FailWrite(waiter) => s.(waiting := Settle(s.waiting, waiter, WriteFailed))
    case Expire(waiter) => s.(waiting := Settle(s.waiting, waiter, TimedOut))
    case Arrive(event, handled) => if s.reading then Accept(s, event, handled) else s
    case FailAnswer => Fail(s)
    case BreakStream => if s.reading then Break(s) else s
    case EndStream => s.(ended := true, reading := false, waiting := RejectOutstanding(s.waiting))
    case Close => s.(ended := true, waiting := RejectOutstanding(s.waiting))
    case Next => if s.failure || s.inbox.queue == [] then s else s.(inbox := Shift(s.inbox))
  }

  function Run(s: State, events: seq<Event>): State
    decreases |events|
  {
    if events == [] then s else Step(Run(s, events[..|events| - 1]), events[|events| - 1])
  }

  // ----------------------------------------------------------- the invariant

  function Total(events: seq<ClaudeEvent>): (n: nat)
  {
    if events == [] then 0 else events[0].size + Total(events[1..])
  }

  lemma {:induction false} TotalOfAppend(events: seq<ClaudeEvent>, e: ClaudeEvent)
    ensures Total(events + [e]) == Total(events) + e.size
  {
    if events == [] {
      assert Total([e]) == e.size + Total([]);
    } else {
      assert (events + [e])[1..] == events[1..] + [e];
      TotalOfAppend(events[1..], e);
    }
  }

  /** Every waiter registered is waiting or settled, once. */
  ghost predicate Conserved(t: Waiting) {
    multiset(t.pending) + multiset(t.userAcks) + multiset(t.settled) == multiset(t.issued)
  }

  /** Registered waiters are numbered in order, under keys of their own. */
  ghost predicate Numbered(nonce: string, sequence: nat, sent: set<string>, issued: seq<Entry>) {
    && (forall i :: 0 <= i < |issued| ==> 1 <= issued[i].id <= sequence && OwnKey(nonce, sent, issued[i]))
    && (forall i, j :: 0 <= i < j < |issued| ==> issued[i].id < issued[j].id)
  }

  predicate OwnKey(nonce: string, sent: set<string>, e: Entry) {
    match e.waiter
    case Control(n, number) => n == nonce && number == e.id
    case User(uuid) => uuid in sent
  }

  predicate Matches(w: Waiter, how: How) {
    match how
    case Answered(key, _) => w == key && key.Control?
    case Echoed(uuid) => w == User(uuid)
    case TimedOut => true
    case WriteFailed => true
    case StreamEnded => true
  }

  ghost predicate ByOwnKey(settled: seq<Entry>, hows: seq<How>) {
    |settled| == |hows| && forall i :: 0 <= i < |settled| ==> Matches(settled[i].waiter, hows[i])
  }

  ghost predicate WrittenOnce(written: seq<string>, sent: set<string>) {
    && (forall u :: u in written <==> u in sent)
    && (forall i, j :: 0 <= i < j < |written| ==> written[i] != written[j])
  }

  ghost predicate Fair(t: Waiting) {
    && Conserved(t) && Numbered(t.nonce, t.sequence, t.sentMessageIds, t.issued)
    && ByOwnKey(t.settled, t.hows) && WrittenOnce(t.written, t.sentMessageIds)
  }

  lemma OneMoreSettled(settled: seq<Entry>, hows: seq<How>, e: Entry, how: How)
    requires ByOwnKey(settled, hows) && Matches(e.waiter, how)
    ensures ByOwnKey(settled + [e], hows + [how])
  {
  }

  lemma SettleKeeps(t: Waiting, w: Waiter, how: How)
    requires Fair(t) && Matches(w, how)
    ensures Fair(Settle(t, w, how)) && Settle(t, w, how).nonce == t.nonce
    ensures t.pending == [] ==> Settle(t, w, how).pending == []
    ensures t.userAcks == [] ==> Settle(t, w, how).userAcks == []
  {
    var entries := if w.Control? then t.pending else t.userAcks;
    var i := Find(entries, w);
    if i.Some? {
      OneMoreSettled(t.settled, t.hows, entries[i.value], how);
      assert multiset(t.settled + [entries[i.value]]) == multiset(t.settled) + multiset{entries[i.value]};
    }
  }

  lemma RejectKeeps(t: Waiting)
    requires Fair(t)
    ensures Fair(RejectOutstanding(t))
  {
    var more := t.pending + t.userAcks;
    assert ByOwnKey(t.settled + more, t.hows + Ends(|t.pending| + |t.userAcks|));
  }

  lemma AskKeeps(t: Waiting, journaled: bool)
    requires Fair(t)
    ensures Fair(AskControl(t, journaled))
  {
  }

  lemma AskUserKeeps(t: Waiting, uuid: string, journaled: bool)
    requires Fair(t) && uuid !in t.sentMessageIds
    ensures Fair(AskUser(t, uuid, journaled))
  {
  }

  /** Nothing is lost between reader and consumer, and the bytes accounted for
      are those of the queue until a session that has failed stops reading. */
  ghost predicate Sound(b: Inbox, stopped: bool) {
    b.dequeued + b.queue == b.accepted && (!stopped ==> b.queuedBytes == Total(b.queue))
  }

  lemma PushKeeps(b: Inbox, e: ClaudeEvent)
    requires Sound(b, false)
    ensures Sound(Push(b, e), false)
  {
    TotalOfAppend(b.queue, e);
    assert b.dequeued + (b.queue + [e]) == b.accepted + [e];
  }

  ghost predicate Inv(s: State) {
    && Fair(s.waiting) && Sound(s.inbox, s.failure && !s.reading)
    && (s.failure || s.ended ==> s.waiting.pending == [] && s.waiting.userAcks == [])
  }

  lemma FailKeepsInv(s: State)
    requires Fair(s.waiting) && Sound(s.inbox, !s.reading)
    ensures Inv(Fail(s)) && Fail(s).waiting.nonce == s.waiting.nonce
  {
    RejectKeeps(s.waiting);
  }

  lemma BreakKeepsInv(s: State)
    requires Fair(s.waiting) && s.inbox.dequeued + s.inbox.queue == s.inbox.accepted
    ensures Inv(Break(s)) && Break(s).waiting.nonce == s.waiting.nonce
  {
    FailKeepsInv(s.(reading := false));
  }

  lemma EnqueueKeepsInv(s: State, e: ClaudeEvent, handled: bool)
    requires Inv(s) && s.reading
    ensures Inv(Enqueue(s, e, handled)) && Enqueue(s, e, handled).waiting.nonce == s.waiting.nonce
  {
    PushKeeps(s.inbox, e);
    BreakKeepsInv(s);
    BreakKeepsInv(s.(inbox := s.inbox.(queuedBytes := s.inbox.queuedBytes + e.size)));
  }

  lemma EchoKeepsInv(s: State, uuid: string)
    requires Inv(s)
    ensures Inv(Echo(s, uuid)) && Echo(s, uuid).waiting.nonce == s.waiting.nonce
  {
    SettleKeeps(s.waiting, User(uuid), Echoed(uuid));
  }

  lemma AnswerKeepsInv(s: State, key: Waiter, success: bool)
    requires Inv(s) && key.Control?
    ensures Inv(Answer(s, key, success)) && Answer(s, key, success).waiting.nonce == s.waiting.nonce
  {
    SettleKeeps(s.waiting, key, Answered(key, success));
  }

  lemma ReactResolvesControl(e: ClaudeEvent)
    ensures React(e).Resolve? ==> React(e).key.Control?
  {
  }

  lemma AcceptKeepsInv(s: State, e: ClaudeEvent, handled: bool)
    requires Inv(s) && s.reading
    ensures Inv(Accept(s, e, handled)) && Accept(s, e, handled).waiting.nonce == s.waiting.nonce
  {
    ReactResolvesControl(e);
    match React(e)
    case Refuse => BreakKeepsInv(s);
    case Ignore =>
    case Resolve(key, success) => AnswerKeepsInv(s, key, success);
    case Deliver(echo) =>
      if echo.Some? {
        EchoKeepsInv(s, echo.value);
        EnqueueKeepsInv(Echo(s, echo.value), e, handled);
      } else {
        EnqueueKeepsInv(s, e, handled);
      }
  }

  lemma EndKeepsInv(s: State, reading: bool)
    requires Inv(s) && (reading ==> s.reading)
    ensures Inv(s.(ended := true, reading := reading, waiting := RejectOutstanding(s.waiting)))
  {
    RejectKeeps(s.waiting);
  }

  lemma ShiftKeeps(b: Inbox)
    requires Sound(b, false) && b.queue != []
    ensures Sound(Shift(b), false)
  {
    assert b.dequeued + b.queue == (b.dequeued + [b.queue[0]]) + b.queue[1..];
  }

  lemma StepKeepsInv(s: State, e: Event)
    requires Inv(s)
    ensures Inv(Step(s, e)) && Step(s, e).waiting.nonce == s.waiting.nonce
  {
    match e
    case Request(journaled) => AskKeeps(s.waiting, journaled);
    case SendUser(uuid, valid, journaled) =>
      if uuid !in s.waiting.sentMessageIds { AskUserKeeps(s.waiting, uuid, journaled); }
    case FailWrite(waiter) => SettleKeeps(s.waiting, waiter, WriteFailed);
    case Expire(waiter) => SettleKeeps(s.waiting, waiter, TimedOut);
    case Arrive(event, handled) => if s.reading { AcceptKeepsInv(s, event, handled); }
    case FailAnswer => FailKeepsInv(s);
    case BreakStream => BreakKeepsInv(s);
    case EndStream => EndKeepsInv(s, false);
    case Close => EndKeepsInv(s, s.reading);
    case Next => if !s.failure && s.inbox.queue != [] { ShiftKeeps(s.inbox); }
  }

  lemma {:induction false} RunKeepsInv(nonce: string, limit: nat, events: seq<Event>)
    ensures Inv(Run(New(nonce, limit), events)) && Run(New(nonce, limit), events).waiting.nonce == nonce
    decreases |events|
  {
    if events != [] {
      RunKeepsInv(nonce, limit, events[..|events| - 1]);
      StepKeepsInv(Run(New(nonce, limit), events[..|events| - 1]), events[|events| - 1]);
    }
  }

  // ------------------------------------------------------------- whole runs

  lemma {:induction false} CountOfDistinct(entries: seq<Entry>, i: nat)
    requires forall j, k :: 0 <= j < k < |entries| ==> entries[j] != entries[k]
    requires i < |entries|
    ensures multiset(entries)[entries[i]] == 1
  {
    var rest := entries[..i] + entries[i + 1..];
    assert entries == entries[..i] + [entries[i]] + entries[i + 1..];
    assert entries[i] !in rest;
  }

  /** In every run each registered waiter is waiting or settled, exactly once:
      its places among pending requests, awaited echoes and settlements add up
      to one; and once the session has failed or ended, it is settled. */
  lemma EachWaiterSettlesOnce(nonce: string, limit: nat, events: seq<Event>, i: nat)
    requires i < |Run(New(nonce, limit), events).waiting.issued|
    ensures var s := Run(New(nonce, limit), events);
      var t, e := s.waiting, s.waiting.issued[i];
      && multiset(t.pending)[e] + multiset(t.userAcks)[e] + multiset(t.settled)[e] == 1
      && (s.failure || s.ended ==> multiset(t.settled)[e] == 1)
  {
    RunKeepsInv(nonce, limit, events);
    CountOfDistinct(Run(New(nonce, limit), events).waiting.issued, i);
  }

  /** A response settles the request whose number its key carries, and an echo
      the message whose id it carries; nothing else is settled by either. */
  lemma SettledByOwnKey(nonce: string, limit: nat, events: seq<Event>, i: nat)
    requires i < |Run(New(nonce, limit), events).waiting.settled|
    ensures var t := Run(New(nonce, limit), events).waiting;
      && |t.hows| == |t.settled|
      && (t.hows[i].Answered? ==> t.hows[i].key == Control(nonce, t.settled[i].id))
      && (t.hows[i].Echoed? ==> t.settled[i].waiter == User(t.hows[i].uuid))
  {
    RunKeepsInv(nonce, limit, events);
    SettledEntry(Run(New(nonce, limit), events).waiting, i);
  }

  lemma SettledEntry(t: Waiting, i: nat)
    requires Fair(t) && i < |t.settled|
    ensures Matches(t.settled[i].waiter, t.hows[i]) && OwnKey(t.nonce, t.sentMessageIds, t.settled[i])
  {
    assert t.settled[i] in multiset(t.settled);
    assert t.settled[i] in multiset(t.issued);
  }

  /** No message id is written twice, by any number of calls. */
  lemma MessageIdsWrittenOnce(nonce: string, limit: nat, events: seq<Event>, i: nat, j: nat)
    requires i < j < |Run(New(nonce, limit), events).waiting.written|
    ensures var w := Run(New(nonce, limit), events).waiting.written; w[i] != w[j]
  {
    RunKeepsInv(nonce, limit, events);
  }

  /** What the consumer has taken is a prefix of what the reader accepted, and
      while it reads or has not failed the queue's bytes are exactly accounted
      for. */
  lemma ConsumerSeesPrefix(nonce: string, limit: nat, events: seq<Event>)
    ensures var s := Run(New(nonce, limit), events);
      && s.inbox.dequeued <= s.inbox.accepted
      && (s.reading || !s.failure ==> s.inbox.queuedBytes == Total(s.inbox.queue))
  {
    RunKeepsInv(nonce, limit, events);
  }

  // ------------------------------------------------- what becomes of an event

  predicate Foreign(e: ClaudeEvent) {
    e.root && e.foreign
  }

  /** Events for the consumer: everything that is not a control message, except a
      session's own start with a model it must not have. */
  predicate ForConsumer(e: ClaudeEvent) {
    e.body.Plain? || e.body.UserMessage? || (e.body.Init? && (e.body.agrees || !e.root))
  }

  predicate Malformed(e: ClaudeEvent) {
    || (e.body.ControlResponse? && e.body.key.None?) || (e.body.ControlRequest? && !e.body.wellFormed)
    || (e.body.Init? && e.root && !e.body.agrees)
  }

  predicate Fits(b: Inbox, e: ClaudeEvent) {
    b.queuedBytes + e.size <= b.limit
  }

  /** An event for the consumer that fits the limit is queued, whole and last, and
      fails nothing. */
  lemma EventIsQueued(s: State, e: ClaudeEvent)
    requires s.reading && !Foreign(e) && ForConsumer(e) && Fits(s.inbox, e)
    ensures var s' := Step(s, Arrive(e, true));
      && s'.inbox.queue == s.inbox.queue + [e] && s'.inbox.accepted == s.inbox.accepted + [e]
      && s'.inbox.dequeued == s.inbox.dequeued && s'.inbox.queuedBytes == s.inbox.queuedBytes + e.size
      && s'.reading && s'.failure == s.failure && s'.ended == s.ended
  {
  }

  /** The first waiter of this name is settled in this way, and no other. */
  ghost predicate SettledAs(t: Waiting, t': Waiting, w: Waiter, how: How) {
    var entries := Among(t, w);
    exists i :: 0 <= i < |entries| && entries[i].waiter == w
      && t' == t.(pending := if w.Control? then entries[..i] + entries[i + 1..] else t.pending,
                  userAcks := if w.Control? then t.userAcks else entries[..i] + entries[i + 1..],
                  settled := t.settled + [entries[i]], hows := t.hows + [how])
  }

  function Among(t: Waiting, w: Waiter): seq<Entry> {
    if w.Control? then t.pending else t.userAcks
  }

  ghost predicate Waits(t: Waiting, w: Waiter) {
    exists i :: 0 <= i < |Among(t, w)| && Among(t, w)[i].waiter == w
  }

  /** A waiter that waits is settled, and one that does not changes nothing. */
  lemma SettleIs(t: Waiting, w: Waiter, how: How)
    ensures if Waits(t, w) then SettledAs(t, Settle(t, w, how), w, how) else Settle(t, w, how) == t
  {
    var entries := Among(t, w);
    var i := Find(entries, w);
    if i.Some? {
      assert Waits(t, w);
      assert entries[i.value].waiter == w && Remove(entries, i.value) == entries[..i.value] + entries[i.value + 1..];
    }
  }

  /** A response settles the request it names with its own success, and nothing
      else changes; a late one, or one to no request of ours, changes nothing. */
  lemma ResponseSettles(s: State, e: ClaudeEvent, handled: bool)
    requires s.reading && !Foreign(e) && e.body.ControlResponse? && e.body.key.Some?
    ensures var s', key := Step(s, Arrive(e, handled)), e.body.key.value;
      && s' == s.(waiting := s'.waiting)
      && if key.Control? && Waits(s.waiting, key)
         then SettledAs(s.waiting, s'.waiting, key, Answered(key, e.body.success))
         else s'.waiting == s.waiting
  {
    SettleIs(s.waiting, e.body.key.value, Answered(e.body.key.value, e.body.success));
  }

  /** The echo of a message settles the one it names; any other event for the
      consumer settles nothing. */
  lemma EchoSettles(s: State, e: ClaudeEvent)
    requires s.reading && !Foreign(e) && ForConsumer(e) && Fits(s.inbox, e)
    ensures var t, t' := s.waiting, Step(s, Arrive(e, true)).waiting;
      if e.root && e.body.UserMessage? && e.body.uuid.Some? && Waits(t, User(e.body.uuid.value))
      then SettledAs(t, t', User(e.body.uuid.value), Echoed(e.body.uuid.value))
      else t' == t
  {
    DeliveredEcho(s, e);
    if e.root && e.body.UserMessage? && e.body.uuid.Some? {
      SettleIs(s.waiting, User(e.body.uuid.value), Echoed(e.body.uuid.value));
    }
  }

  lemma DeliveredEcho(s: State, e: ClaudeEvent)
    requires s.reading && !Foreign(e) && ForConsumer(e) && Fits(s.inbox, e)
    ensures Step(s, Arrive(e, true)).waiting
      == if e.root && e.body.UserMessage? && e.body.uuid.Some?
         then Settle(s.waiting, User(e.body.uuid.value), Echoed(e.body.uuid.value))
         else s.waiting
  {
  }

  /** An arrival fails the session, and stops its reader, exactly when it is of
      another session, malformed, or an event for the consumer that its handler
      refuses or that does not fit; and then nothing is queued and nobody waits. */
  lemma ArrivalFailsExactly(s: State, e: ClaudeEvent, handled: bool)
    requires s.reading
    ensures var s' := Step(s, Arrive(e, handled));
      var broken := Foreign(e) || Malformed(e) || (ForConsumer(e) && (!handled || !Fits(s.inbox, e)));
      && s'.failure == (s.failure || broken) && s'.reading == !broken && s'.ended == s.ended
      && (broken ==>
            s'.inbox.queue == s.inbox.queue && s'.inbox.accepted == s.inbox.accepted
            && s'.inbox.dequeued == s.inbox.dequeued && s'.waiting.pending == [] && s'.waiting.userAcks == [])
  {
  }

  /** A cancellation and a sound control request change nothing here. */
  lemma InboundRequestIsIgnored(s: State, e: ClaudeEvent, handled: bool)
    requires s.reading && !Foreign(e)
    requires e.body.ControlCancel? || (e.body.ControlRequest? && e.body.wellFormed)
    ensures Step(s, Arrive(e, handled)) == s
  {
  }

  /** A call on a session that stands takes the next number and, once journaled,
      waits under it; on one that failed or ended it changes nothing. */
  lemma RequestWaits(s: State, journaled: bool)
    ensures var s', n := Step(s, Request(journaled)), s.waiting.sequence + 1;
      var entry := Entry(Control(s.waiting.nonce, n), n);
      if s.failure || s.ended then s' == s
      else
        s' == s.(waiting := s.waiting.(sequence := n,
          pending := s.waiting.pending + (if journaled then [entry] else []),
          issued := s.waiting.issued + (if journaled then [entry] else [])))
  {
  }

  /** So does a message, whose id is spent with it: refused when it is spent. */
  lemma MessageWaits(s: State, uuid: string, valid: bool, journaled: bool)
    ensures var s', n := Step(s, SendUser(uuid, valid, journaled)), s.waiting.sequence + 1;
      var entry := Entry(User(uuid), n);
      if s.failure || s.ended || !valid || uuid in s.waiting.sentMessageIds then s' == s
      else
        s' == s.(waiting := s.waiting.(sequence := n,
          userAcks := s.waiting.userAcks + (if journaled then [entry] else []),
          issued := s.waiting.issued + (if journaled then [entry] else []),
          sentMessageIds := s.waiting.sentMessageIds + (if journaled then {uuid} else {}),
          written := s.waiting.written + (if journaled then [uuid] else [])))
  {
  }

  /** A timer and a failed write each settle their own waiter, if it still waits. */
  lemma TimerSettles(s: State, w: Waiter)
    ensures var late, failed := Step(s, Expire(w)), Step(s, FailWrite(w));
      && late == s.(waiting := late.waiting) && failed == s.(waiting := failed.waiting)
      && if Waits(s.waiting, w)
         then SettledAs(s.waiting, late.waiting, w, TimedOut) && SettledAs(s.waiting, failed.waiting, w, WriteFailed)
         else late.waiting == s.waiting && failed.waiting == s.waiting
  {
    SettleIs(s.waiting, w, TimedOut);
    SettleIs(s.waiting, w, WriteFailed);
  }

  /** Everyone who waited is settled as ended, in order, and nothing else happens to
      what is waited for. */
  ghost predicate AllEnded(t: Waiting, t': Waiting) {
    && t'.pending == [] && t'.userAcks == [] && t'.settled == t.settled + (t.pending + t.userAcks)
    && |t'.hows| == |t.hows| + |t.pending| + |t.userAcks| && t.hows <= t'.hows
    && (forall i :: |t.hows| <= i < |t'.hows| ==> t'.hows[i] == StreamEnded)
    && t'.nonce == t.nonce && t'.sequence == t.sequence && t'.sentMessageIds == t.sentMessageIds
    && t'.issued == t.issued && t'.written == t.written
  }

  /** Closing ends the session and leaves the reader to its stream, whose end stops
      it; a failed answer fails the session, and a broken stream that is still read
      does both. Each settles all who wait, and none touches the queue. */
  lemma EndingsSettleAll(s: State)
    ensures var broken := Step(s, BreakStream);
      if s.reading
      then AllEnded(s.waiting, broken.waiting)
           && broken == s.(failure := true, reading := false, waiting := broken.waiting)
      else broken == s
    ensures var closed, ended, failed := Step(s, Close), Step(s, EndStream), Step(s, FailAnswer);
      && AllEnded(s.waiting, closed.waiting) && AllEnded(s.waiting, ended.waiting)
      && AllEnded(s.waiting, failed.waiting)
      && closed == s.(ended := true, waiting := closed.waiting)
      && ended == s.(ended := true, reading := false, waiting := ended.waiting)
      && failed == s.(failure := true, waiting := failed.waiting)
  {
  }

  // -------------------------------------------------------------- the session

  class ClaudeControlSession {
    const nonce: string
    const limit: nat
    var sequence: nat
    var pending: seq<Entry>
    var userAcks: seq<Entry>
    var sentMessageIds: set<string>
    var queue: seq<ClaudeEvent>
    var queuedBytes: int
    var failure: bool
    var ended: bool
    var reading: bool
    ghost var issued: seq<Entry>
    ghost var settled: seq<Entry>
    ghost var hows: seq<How>
    ghost var written: seq<string>
    ghost var accepted: seq<ClaudeEvent>
    ghost var dequeued: seq<ClaudeEvent>

    ghost function Waiters(): Waiting
      reads this
    {
      Waiting(nonce, sequence, pending, userAcks, sentMessageIds, issued, settled, hows, written)
    }

    ghost function Box(): Inbox
      reads this
    {
      Inbox(limit, queue, queuedBytes, accepted, dequeued)
    }

    ghost function Now(): State
      reads this
    {
      State(Waiters(), Box(), failure, ended, reading)
    }

    constructor (nonce: string, limit: nat)
      ensures Now() == New(nonce, limit)
    {
      this.nonce, this.limit := nonce, limit;
      sequence, pending, userAcks, sentMessageIds := 0, [], [], {};
      queue, queuedBytes, failure, ended, reading := [], 0, false, false, true;
      issued, settled, hows, written, accepted, dequeued := [], [], [], [], [], [];
    }

    method RejectAll()
      modifies `pending, `userAcks, `settled, `hows
      ensures Now() == old(Now()).(waiting := RejectOutstanding(old(Waiters())))
    {
      settled := settled + (pending + userAcks);
      hows := hows + Ends(|pending| + |userAcks|);
      pending, userAcks := [], [];
    }

    method FailWith()
      modifies this
      ensures Now() == Fail(old(Now()))
    {
      failure := true;
      RejectAll();
    }

    method BreakOff()
      modifies this
      ensures Now() == Break(old(Now()))
    {
      reading := false;
      FailWith();
    }

    /** A control request: numbered, journaled by its caller, then waited for. */
    method SendRequest(journaled: bool)
      modifies this
      ensures Now() == Step(old(Now()), Request(journaled))
    {
      if failure || ended { return; }
      sequence := sequence + 1;
      if !journaled { return; }
      var entry := Entry(Control(nonce, sequence), sequence);
      pending := pending + [entry];
      issued := issued + [entry];
    }

    /** A user message: its id is spent before a byte of it is written. */
    method SendMessage(uuid: string, valid: bool, journaled: bool)
      modifies this
      ensures Now() == Step(old(Now()), SendUser(uuid, valid, journaled))
    {
      if failure || ended || !valid || uuid in sentMessageIds { return; }
      sequence := sequence + 1;
      if !journaled { return; }
      sentMessageIds := sentMessageIds + {uuid};
      written := written + [uuid];
      var entry := Entry(User(uuid), sequence);
      userAcks := userAcks + [entry];
      issued := issued + [entry];
    }

    method SettleWaiter(w: Waiter, how: How)
      modifies `pending, `userAcks, `settled, `hows
      ensures Now() == old(Now()).(waiting := Settle(old(Waiters()), w, how))
    {
      var i := Find(if w.Control? then pending else userAcks, w);
      if i.None? { return; }
      if w.Control? {
        settled, hows := settled + [pending[i.value]], hows + [how];
        pending := Remove(pending, i.value);
      } else {
        settled, hows := settled + [userAcks[i.value]], hows + [how];
        userAcks := Remove(userAcks, i.value);
      }
    }

    method QueueEvent(e: ClaudeEvent, handled: bool)
      modifies this
      ensures Now() == Enqueue(old(Now()), e, handled)
    {
      if !handled {
        BreakOff();
        return;
      }
      queuedBytes := queuedBytes + e.size;
      if queuedBytes > limit {
        BreakOff();
        return;
      }
      queue := queue + [e];
      accepted := accepted + [e];
    }

    method AcceptEvent(e: ClaudeEvent, handled: bool)
      modifies this
      ensures Now() == Step(old(Now()), Arrive(e, handled))
    {
      if !reading { return; }
      match React(e)
      case Refuse => BreakOff();
      case Ignore =>
      case Resolve(key, success) => SettleWaiter(key, Answered(key, success));
      case Deliver(echo) =>
        if echo.Some? { SettleWaiter(User(echo.value), Echoed(echo.value)); }
        QueueEvent(e, handled);
    }

    method NextEvent() returns (r: Option<ClaudeEvent>)
      modifies this
      ensures Now() == Step(old(Now()), Next)
      ensures r == if old(failure) || old(queue) == [] then None else Some(old(queue)[0])
    {
      if failure || queue == [] { return None; }
      r := Some(queue[0]);
      queue, dequeued := queue[1..], dequeued + [queue[0]];
      queuedBytes := queuedBytes - r.value.size;
    }

    method Perform(e: Event)
      modifies this
      ensures Now() == Step(old(Now()), e)
    {
      match e
      case Request(journaled) => SendRequest(journaled);
      case SendUser(uuid, valid, journaled) => SendMessage(uuid, valid, journaled);
      case FailWrite(waiter) => SettleWaiter(waiter, WriteFailed);
      case Expire(waiter) => SettleWaiter(waiter, TimedOut);
      case Arrive(event, handled) => AcceptEvent(event, handled);
      case FailAnswer => FailWith();
      case BreakStream => if reading { BreakOff(); }
      case EndStream =>
        ended, reading := true, false;
        RejectAll();
      case Close =>
        ended := true;
        RejectAll();
      case Next => var _ := NextEvent();
    }

    /** Any run of the session is the run its specification describes. */
    method Drive(events: seq<Event>)
      modifies this
      ensures Now() == Run(old(Now()), events)
    {
      for i := 0 to |events|
        invariant Now() == Run(old(Now()), events[..i])
      {
        assert events[..i + 1][..i] == events[..i];
        Perform(events[i]);
      }
      assert events[..|events|] == events;
    }
  }
}
