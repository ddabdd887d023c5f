/** The durable round robin over channels and threads. */
module RoundRobin {
  import opened Optional

  ghost predicate Distinct<T>(items: seq<T>) {
    forall i, j :: 0 <= i < j < |items| ==> items[i] != items[j]
  }

  function IndexOf<T(==)>(items: seq<T>, x: T): (r: Option<nat>)
    ensures r.Some? ==> r.value < |items| && items[r.value] == x
    ensures r.None? ==> x !in items
  {
    if items == [] then None
    else if items[0] == x then Some(0)
    else
      var rest := IndexOf(items[1..], x);
      if rest.None? then None else Some(rest.value + 1)
  }

  /** One sweep's order: after the item that was last completed. */
  function RoundRobinAfter<T(==)>(items: seq<T>, last: Option<T>): seq<T> {
    if last.None? then items
    else
      var index := IndexOf(items, last.value);
      if index.None? then items else items[index.value + 1..] + items[..index.value + 1]
  }

  /** Where the cyclic order resumes. */
  function Position<T(==)>(items: seq<T>, last: Option<T>): (p: nat)
    requires items != []
    ensures p < |items|
  {
    if last.None? || IndexOf(items, last.value).None? then 0
    else if IndexOf(items, last.value).value + 1 == |items| then 0
    else IndexOf(items, last.value).value + 1
  }

  function After<T>(items: seq<T>, p: nat): (q: nat)
    requires p < |items|
    ensures q < |items|
  {
    if p + 1 == |items| then 0 else p + 1
  }

  /** The first k items of the endless cyclic order from position p. */
  function Cycle<T>(items: seq<T>, p: nat, k: nat): (c: seq<T>)
    requires p < |items|
    ensures |c| == k
    decreases k
  {
    if k == 0 then [] else [items[p]] + Cycle(items, After(items, p), k - 1)
  }

  function Advance<T>(items: seq<T>, p: nat, k: nat): (q: nat)
    requires p < |items|
    ensures q < |items|
    decreases k
  {
    if k == 0 then p else Advance(items, After(items, p), k - 1)
  }

  lemma {:induction false} CycleAppends<T>(items: seq<T>, p: nat, a: nat, b: nat)
    requires p < |items|
    ensures Cycle(items, p, a + b) == Cycle(items, p, a) + Cycle(items, Advance(items, p, a), b)
    decreases a
  {
    if a > 0 { CycleAppends(items, After(items, p), a - 1, b); }
  }

  lemma {:induction false} CycleWithoutWrap<T>(items: seq<T>, p: nat, k: nat)
    requires p < |items| && p + k <= |items|
    ensures Cycle(items, p, k) == items[p..p + k]
    ensures Advance(items, p, k) == if p + k == |items| && k > 0 then 0 else p + k
    decreases k
  {
    if k > 1 { CycleWithoutWrap(items, p + 1, k - 1); }
  }

  lemma FullCycle<T>(items: seq<T>, p: nat)
    requires p < |items|
    ensures Cycle(items, p, |items|) == items[p..] + items[..p]
    ensures Advance(items, p, |items|) == p
  {
    CycleAppends(items, p, |items| - p, p);
    CycleWithoutWrap(items, p, |items| - p);
    CycleWithoutWrap(items, 0, p);
    AdvanceAdds(items, p, |items| - p, p);
  }

  lemma {:induction false} AdvanceAdds<T>(items: seq<T>, p: nat, a: nat, b: nat)
    requires p < |items|
    ensures Advance(items, p, a + b) == Advance(items, Advance(items, p, a), b)
    decreases a
  {
    if a > 0 { AdvanceAdds(items, After(items, p), a - 1, b); }
  }

  lemma OrderIsCycle<T>(items: seq<T>, last: Option<T>)
    requires items != []
    ensures RoundRobinAfter(items, last) == Cycle(items, Position(items, last), |items|)
  {
    var p := Position(items, last);
    FullCycle(items, p);
    assert p == 0 ==> items[p..] + items[..p] == items;
    if last.Some? && IndexOf(items, last.value).Some? {
      var after := IndexOf(items, last.value).value + 1;
      assert after == |items| ==> items[after..] + items[..after] == items;
    }
  }

  // ----------------------------------------------------------- whole runs

  /** What a sweep over `items` completes when it gets through `count` of them
      before its budget or the rate limit stops it. */
  function Completed<T(==)>(items: seq<T>, last: Option<T>, count: nat): (done: seq<T>)
  {
    var order := RoundRobinAfter(items, last);
    if count < |order| then order[..count] else order
  }

  function NextLast<T>(last: Option<T>, done: seq<T>): Option<T> {
    if done == [] then last else Some(done[|done| - 1])
  }

  /** Everything completed by a run of sweeps, one count each. Only the last
      completed item survives from one sweep to the next, so a restart may fall
      anywhere between two of them. */
  function Log<T(==)>(items: seq<T>, last: Option<T>, counts: seq<nat>): seq<T>
    decreases |counts|
  {
    if counts == [] then []
    else
      var done := Completed(items, last, counts[0]);
      done + Log(items, NextLast(last, done), counts[1..])
  }

  lemma {:induction false} FirstIndex<T>(items: seq<T>, i: nat)
    requires Distinct(items) && i < |items|
    ensures IndexOf(items, items[i]) == Some(i)
  {
  }

  lemma {:induction false} CycleAt<T>(items: seq<T>, p: nat, k: nat, i: nat)
    requires p < |items| && i < k
    ensures Cycle(items, p, k)[i] == items[Advance(items, p, i)]
    decreases k
  {
    if i > 0 { CycleAt(items, After(items, p), k - 1, i - 1); }
  }

  lemma CompletedIsCycle<T>(items: seq<T>, last: Option<T>, count: nat)
    requires items != []
    ensures var done := Completed(items, last, count); done == Cycle(items, Position(items, last), |done|)
    ensures |Completed(items, last, count)| <= |items|
  {
    var p, done := Position(items, last), Completed(items, last, count);
    OrderIsCycle(items, last);
    CycleAppends(items, p, |done|, |items| - |done|);
  }

  lemma PositionAfter<T>(items: seq<T>, p: nat, k: nat)
    requires Distinct(items) && p < |items| && k > 0
    ensures Position(items, Some(Cycle(items, p, k)[k - 1])) == Advance(items, p, k)
  {
    CycleAt(items, p, k, k - 1);
    AdvanceAdds(items, p, k - 1, 1);
    FirstIndex(items, Advance(items, p, k - 1));
  }

  lemma SweepAdvances<T>(items: seq<T>, last: Option<T>, count: nat)
    requires Distinct(items) && items != []
    ensures var done := Completed(items, last, count);
      && done == Cycle(items, Position(items, last), |done|)
      && Position(items, NextLast(last, done)) == Advance(items, Position(items, last), |done|)
  {
    var done := Completed(items, last, count);
    CompletedIsCycle(items, last, count);
    if done != [] { PositionAfter(items, Position(items, last), |done|); }
  }

  lemma CyclesJoin<T>(items: seq<T>, p: nat, done: seq<T>, rest: seq<T>)
    requires p < |items| && done == Cycle(items, p, |done|)
    requires rest == Cycle(items, Advance(items, p, |done|), |rest|)
    ensures done + rest == Cycle(items, p, |done + rest|)
  {
    CycleAppends(items, p, |done|, |rest|);
  }

  /** The completions of any run continue one endless cycle over the list. */
  lemma {:induction false} LogIsCycle<T>(items: seq<T>, last: Option<T>, counts: seq<nat>)
    requires Distinct(items) && items != []
    ensures Log(items, last, counts) == Cycle(items, Position(items, last), |Log(items, last, counts)|)
    decreases |counts|
  {
    if counts != [] {
      var done := Completed(items, last, counts[0]);
      var next := NextLast(last, done);
      SweepAdvances(items, last, counts[0]);
      LogIsCycle(items, next, counts[1..]);
      CyclesJoin(items, Position(items, last), done, Log(items, next, counts[1..]));
    }
  }

  lemma CycleWindow<T>(items: seq<T>, p: nat, total: nat, k: nat)
    requires p < |items| && k + |items| <= total
    ensures var q := Advance(items, p, k);
      Cycle(items, p, total)[k..k + |items|] == items[q..] + items[..q]
  {
    var q := Advance(items, p, k);
    var tail := Cycle(items, Advance(items, q, |items|), total - k - |items|);
    CycleAppends(items, p, k, total - k);
    CycleAppends(items, q, |items|, total - k - |items|);
    FullCycle(items, q);
    SliceOfThree(Cycle(items, p, k), items[q..] + items[..q], tail);
  }

  lemma SliceOfThree<T>(a: seq<T>, b: seq<T>, c: seq<T>)
    ensures (a + (b + c))[|a|..|a| + |b|] == b
  {
  }

  lemma RotationPermutes<T>(items: seq<T>, q: nat)
    requires q <= |items|
    ensures multiset(items[q..] + items[..q]) == multiset(items)
  {
    assert items == items[..q] + items[q..];
  }

  /** Any n consecutive completions are a permutation of the n items. */
  lemma ConsecutiveCompletionsPermute<T>(items: seq<T>, last: Option<T>, counts: seq<nat>, k: nat)
    requires Distinct(items) && items != []
    requires k + |items| <= |Log(items, last, counts)|
    ensures multiset(Log(items, last, counts)[k..k + |items|]) == multiset(items)
  {
    var p := Position(items, last);
    LogIsCycle(items, last, counts);
    CycleWindow(items, p, |Log(items, last, counts)|, k);
    RotationPermutes(items, Advance(items, p, k));
  }

  /** A sweep that was stopped before its item number `count` resumes there. */
  lemma StoppedSweepResumes<T>(items: seq<T>, last: Option<T>, count: nat)
    requires Distinct(items) && count < |items|
    ensures RoundRobinAfter(items, NextLast(last, Completed(items, last, count)))[0]
      == RoundRobinAfter(items, last)[count]
  {
    var p, done := Position(items, last), Completed(items, last, count);
    OrderIsCycle(items, last);
    SweepAdvances(items, last, count);
    CycleAt(items, p, |items|, count);
    OrderIsCycle(items, NextLast(last, done));
    CycleAt(items, Position(items, NextLast(last, done)), |items|, 0);
  }

  function Repeat(b: nat, m: nat): (r: seq<nat>)
    ensures |r| == m
  {
    if m == 0 then [] else [b] + Repeat(b, m - 1)
  }

  lemma SweepLength<T>(items: seq<T>, last: Option<T>, count: nat)
    ensures |Completed(items, last, count)| == if count <= |items| then count else |items|
  {
  }

  lemma LogOfRepeat<T>(items: seq<T>, last: Option<T>, b: nat, m: nat)
    requires m > 0
    ensures var done := Completed(items, last, b);
      Log(items, last, Repeat(b, m)) == done + Log(items, NextLast(last, done), Repeat(b, m - 1))
  {
    assert Repeat(b, m)[1..] == Repeat(b, m - 1);
  }

  lemma {:induction false} FullSweepsComplete<T>(items: seq<T>, last: Option<T>, b: nat, m: nat)
    ensures |Log(items, last, Repeat(b, m))| == Product(m, if b <= |items| then b else |items|)
    decreases m
  {
    if m > 0 {
      FullSweepsComplete(items, NextLast(last, Completed(items, last, b)), b, m - 1);
      SweepLength(items, last, b);
      LogOfRepeat(items, last, b, m);
    }
  }

  function Product(m: nat, x: nat): nat {
    if m == 0 then 0 else x + Product(m - 1, x)
  }

  lemma {:induction false} ProductMultiplies(m: nat, x: nat)
    ensures Product(m, x) == m * x
  {
    if m > 0 { ProductMultiplies(m - 1, x); }
  }

  lemma PrefixServes<T>(items: seq<T>, last: Option<T>, counts: seq<nat>, x: T)
    requires Distinct(items) && x in items && |items| <= |Log(items, last, counts)|
    ensures x in Log(items, last, counts)
  {
    ConsecutiveCompletionsPermute(items, last, counts, 0);
    assert x in multiset(items);
  }

  lemma EnoughSweepsServe<T>(items: seq<T>, last: Option<T>, b: nat, m: nat, x: T)
    requires Distinct(items) && x in items && |items| <= Product(m, if b <= |items| then b else |items|)
    ensures x in Log(items, last, Repeat(b, m))
  {
    FullSweepsComplete(items, last, b, m);
    PrefixServes(items, last, Repeat(b, m), x);
  }

  /** Without a rate limit, ceil(n / b) sweeps of budget b serve every item. */
  lemma EveryItemServed<T>(items: seq<T>, last: Option<T>, b: nat, m: nat, x: T)
    requires Distinct(items) && x in items && 1 <= b && m == (|items| + b - 1) / b
    ensures x in Log(items, last, Repeat(b, m))
  {
    Ceiling(|items|, b, m);
    EnoughSweepsServe(items, last, b, m, x);
  }

  lemma Ceiling(n: nat, b: nat, m: nat)
    requires 1 <= b && 1 <= n && m == (n + b - 1) / b
    ensures Product(m, if b <= n then b else n) >= n
  {
    ProductMultiplies(m, if b <= n then b else n);
    assert n + b - 1 == m * b + (n + b - 1) % b;
    assert m != 0;
  }

  // ---------------------------------------------------------- the scheduler

  class Scheduler<T(==)> {
    var cursor: Option<T>

    constructor ()
      ensures cursor == None
    {
      cursor := None;
    }

    /** Processes channels in order until the budget or the rate limit stops
        it, persisting each completion before the next channel. */
    method Sweep(items: seq<T>, budget: nat, limitedAt: nat) returns (done: seq<T>)
      modifies this
      ensures done == Completed(items, old(cursor), if limitedAt < budget then limitedAt else budget)
      ensures cursor == NextLast(old(cursor), done)
    {
      var scheduled := RoundRobinAfter(items, cursor);
      done := [];
      for i := 0 to |scheduled|
        invariant i <= budget && i <= limitedAt
        invariant done == scheduled[..i]
        invariant cursor == NextLast(old(cursor), done)
      {
        if i >= budget || i >= limitedAt { return; }
        cursor := Some(scheduled[i]);
        done := done + [scheduled[i]];
      }
    }
  }
}

/** The per-method request budget. */
module MethodBudget {
  import opened Optional

  datatype Method = History | Replies | List
  datatype Lane = Catchup | Owned
  datatype Key = HistoryKey | RepliesKey(lane: Lane) | ListKey
  datatype Usage = Usage(windowStartedAt: nat, used: nat)

  const WINDOW_MS := 60000

  function KeyOf(m: Method, lane: Lane): Key {
    match m case History => HistoryKey case Replies => RepliesKey(lane) case List => ListKey
  }

  /** Replies are reserved half and half for the two lanes. */
  function Budget(k: Key): (b: nat)
    ensures b > 0
  {
    match k case HistoryKey => 40 case RepliesKey(_) => 40 / 2 case ListKey => 10
  }

  function Window(current: Option<Usage>, now: nat): Usage {
    if current.None? || now - current.value.windowStartedAt >= WINDOW_MS then Usage(now, 0)
    else current.value
  }

  // ---------------------------------------------------------- one key's run

  /** The grants of one key so far, with the window each was counted in. */
  datatype Trace = Trace(usage: Option<Usage>, grants: seq<nat>, windows: seq<nat>)

  function Take(b: nat, t: Trace, now: nat): (r: Trace)
    requires |t.windows| == |t.grants|
    ensures |r.windows| == |r.grants|
  {
    var w := Window(t.usage, now);
    if w.used >= b then t
    else Trace(Some(w.(used := w.used + 1)), t.grants + [now], t.windows + [w.windowStartedAt])
  }

  function Run(b: nat, times: seq<nat>): (r: Trace)
    ensures |r.windows| == |r.grants|
  {
    if times == [] then Trace(None, [], [])
    else Take(b, Run(b, times[..|times| - 1]), times[|times| - 1])
  }

  predicate NonDecreasing(times: seq<nat>) {
    forall i, j :: 0 <= i < j < |times| ==> times[i] <= times[j]
  }

  /** Each grant lies in its window, and later grants in the same window or in
      one that starts after the earlier one has ended. */
  ghost predicate Ordered(t: Trace) {
    && |t.windows| == |t.grants|
    && (forall i :: 0 <= i < |t.grants| ==> t.windows[i] <= t.grants[i] < t.windows[i] + WINDOW_MS)
    && (forall i, j :: 0 <= i < j < |t.grants| ==> Follows(t, i, j))
  }

  predicate Follows(t: Trace, i: nat, j: nat)
    requires i < |t.grants| && j < |t.grants| && |t.windows| == |t.grants|
  {
    t.grants[i] <= t.grants[j] && (t.windows[i] == t.windows[j] || t.windows[i] + WINDOW_MS <= t.windows[j])
  }

  /** The current usage counts exactly the grants of the current window. */
  ghost predicate Counted(b: nat, t: Trace) {
    && |t.windows| == |t.grants| && (t.usage.None? <==> t.grants == [])
    && (t.usage.Some? ==> CountedIn(b, t, t.usage.value))
  }

  ghost predicate CountedIn(b: nat, t: Trace, u: Usage)
    requires |t.windows| == |t.grants|
  {
    && 1 <= u.used <= b && u.used <= |t.grants|
    && (forall i :: |t.grants| - u.used <= i < |t.grants| ==> t.windows[i] == u.windowStartedAt)
    && (forall i :: 0 <= i < |t.grants| - u.used ==> t.windows[i] + WINDOW_MS <= u.windowStartedAt)
  }

  /** Grants b apart fall in different windows. */
  ghost predicate Spread(b: nat, t: Trace) {
    && |t.windows| == |t.grants|
    && (forall i, j :: 0 <= i && j == i + b && j < |t.grants| ==> t.windows[i] + WINDOW_MS <= t.windows[j])
  }

  /** A window starts with the first grant that it counts. */
  ghost predicate Started(t: Trace) {
    && |t.windows| == |t.grants|
    && forall i :: 0 <= i < |t.grants| ==>
         t.windows[i] == t.grants[i] || (i > 0 && t.windows[i] == t.windows[i - 1])
  }

  ghost predicate Until(t: Trace, now: nat) {
    forall i :: 0 <= i < |t.grants| ==> t.grants[i] <= now
  }

  ghost predicate Inv(b: nat, t: Trace, now: nat) {
    Ordered(t) && Counted(b, t) && Spread(b, t) && Until(t, now) && Started(t)
  }

  /** The window of a new grant: the one that the last `used` grants share, or one
      that it opens itself, after all the others are over. */
  ghost predicate Opens(t: Trace, u: Usage, now: nat) {
    && |t.windows| == |t.grants| && u.used <= |t.grants|
    && u.windowStartedAt <= now < u.windowStartedAt + WINDOW_MS && (u.used == 0 ==> u.windowStartedAt == now)
    && (forall i :: |t.grants| - u.used <= i < |t.grants| ==> t.windows[i] == u.windowStartedAt)
    && (forall i :: 0 <= i < |t.grants| - u.used ==> t.windows[i] + WINDOW_MS <= u.windowStartedAt)
  }

  function Granted(t: Trace, u: Usage, now: nat): Trace {
    Trace(Some(u.(used := u.used + 1)), t.grants + [now], t.windows + [u.windowStartedAt])
  }

  lemma OrderedNext(t: Trace, u: Usage, now: nat)
    requires Ordered(t) && Until(t, now) && Opens(t, u, now)
    ensures Ordered(Granted(t, u, now))
  {
    var n, r := |t.grants|, Granted(t, u, now);
    forall i, j | 0 <= i < j < n + 1 ensures Follows(r, i, j) {
      if j < n { assert Follows(t, i, j); }
    }
  }

  lemma SpreadNext(b: nat, t: Trace, u: Usage, now: nat)
    requires Spread(b, t) && Opens(t, u, now) && u.used < b
    ensures Spread(b, Granted(t, u, now))
  {
    var n, r := |t.grants|, Granted(t, u, now);
    forall i, j | 0 <= i && j == i + b && j < n + 1 ensures r.windows[i] + WINDOW_MS <= r.windows[j] {
      if j < n {
        assert t.windows[i] + WINDOW_MS <= t.windows[j];
      } else {
        assert i < n - u.used;
      }
    }
  }

  lemma GrantKeepsInv(b: nat, t: Trace, before: nat, now: nat, u: Usage)
    requires before <= now && Ordered(t) && Spread(b, t) && Until(t, before) && Started(t)
    requires Opens(t, u, now) && u.used < b
    ensures Inv(b, Granted(t, u, now), now)
  {
    OrderedNext(t, u, now);
    SpreadNext(b, t, u, now);
    StartedNext(t, now, u.windowStartedAt);
  }

  lemma StartedNext(t: Trace, now: nat, window: nat)
    requires Started(t) && (window == now || (|t.grants| > 0 && t.windows[|t.grants| - 1] == window))
    ensures forall usage :: Started(Trace(usage, t.grants + [now], t.windows + [window]))
  {
    var grants, windows := t.grants + [now], t.windows + [window];
    forall i | 0 <= i < |grants| ensures windows[i] == grants[i] || (i > 0 && windows[i] == windows[i - 1]) {
      if i < |t.grants| { assert t.windows[i] == t.grants[i] || (i > 0 && t.windows[i] == t.windows[i - 1]); }
    }
  }

  lemma EarlierWindowsEnded(b: nat, t: Trace, now: nat, i: nat)
    requires Counted(b, t) && i < |t.grants| && Window(t.usage, now) != t.usage.value
    ensures t.windows[i] + WINDOW_MS <= now
  {
    assert i >= |t.grants| - t.usage.value.used || t.windows[i] + WINDOW_MS <= t.usage.value.windowStartedAt;
  }

  lemma TakeKeepsInv(b: nat, t: Trace, before: nat, now: nat)
    requires b > 0 && before <= now && Inv(b, t, before)
    ensures Inv(b, Take(b, t, now), now)
  {
    var w := Window(t.usage, now);
    if w.used < b {
      if t.usage.Some? && w == t.usage.value {
        assert t.windows[|t.grants| - 1] == w.windowStartedAt;
      } else {
        forall i | 0 <= i < |t.grants| ensures t.windows[i] + WINDOW_MS <= now {
          EarlierWindowsEnded(b, t, now, i);
        }
      }
      GrantKeepsInv(b, t, before, now, w);
    }
  }

  lemma {:induction false} RunKeepsInv(b: nat, times: seq<nat>)
    requires b > 0 && NonDecreasing(times)
    ensures Inv(b, Run(b, times), if times == [] then 0 else times[|times| - 1])
  {
    if times != [] {
      var last := |times| - 1;
      RunKeepsInv(b, times[..last]);
      TakeKeepsInv(b, Run(b, times[..last]), if last == 0 then 0 else times[last - 1], times[last]);
    }
  }

  /** Any 2b + 1 consecutive grants of one key span at least a minute. */
  lemma GrantsSpanAMinute(b: nat, times: seq<nat>, i: nat)
    requires b > 0 && NonDecreasing(times) && i + 2 * b < |Run(b, times).grants|
    ensures Run(b, times).grants[i + 2 * b] >= Run(b, times).grants[i] + WINDOW_MS
  {
    RunKeepsInv(b, times);
    var t := Run(b, times);
    assert t.windows[i + b] >= t.windows[i] + WINDOW_MS;
    assert t.windows[(i + b) + b] >= t.windows[i + b] + WINDOW_MS;
  }

  /** No window grants more than b. */
  lemma WindowGrantsAtMostBudget(b: nat, times: seq<nat>, i: nat, j: nat)
    requires b > 0 && NonDecreasing(times) && i + b <= j < |Run(b, times).grants|
    ensures Run(b, times).windows[i] != Run(b, times).windows[j]
  {
    RunKeepsInv(b, times);
    assert Run(b, times).windows[i + b] >= Run(b, times).windows[i] + WINDOW_MS;
  }

  /** The budget of the window that the last grant opened is spent. */
  predicate Spent(b: nat, t: Trace, now: nat) {
    var n := |t.grants|;
    && |t.windows| == n && n >= b > 0 && t.windows[n - b] == t.windows[n - 1] && now < t.windows[n - 1] + WINDOW_MS
  }

  /** A request is refused exactly when the b grants before it share a window that
      is not over yet; otherwise it is granted, and counted at its own time. */
  lemma RefusedExactly(b: nat, times: seq<nat>, now: nat)
    requires b > 0 && NonDecreasing(times + [now])
    ensures var t, r := Run(b, times), Run(b, times + [now]);
      if Spent(b, t, now) then r == t else r.grants == t.grants + [now]
  {
    assert (times + [now])[..|times|] == times;
    assert NonDecreasing(times) by {
      forall i, j | 0 <= i < j < |times| ensures times[i] <= times[j] {
        assert (times + [now])[i] <= (times + [now])[j];
      }
    }
    if times != [] { assert (times + [now])[|times| - 1] <= (times + [now])[|times|]; }
    RunKeepsInv(b, times);
    var t := Run(b, times);
    if t.usage.Some? { UsageIsSpent(b, t, now); }
  }

  lemma UsageIsSpent(b: nat, t: Trace, now: nat)
    requires b > 0 && Counted(b, t) && t.usage.Some? && Ordered(t)
    ensures Window(t.usage, now).used >= b <==> Spent(b, t, now)
  {
    var u, n := t.usage.value, |t.grants|;
    assert t.windows[n - 1] == u.windowStartedAt;
    if n >= b && u.used < b { assert t.windows[n - b] + WINDOW_MS <= u.windowStartedAt; }
  }

  // ------------------------------------------------------------ all keys

  datatype Call = Call(m: Method, lane: Lane, now: nat)

  function TakeUsage(usage: map<Key, Usage>, k: Key, now: nat): (r: (bool, map<Key, Usage>)) {
    var w := Window(if k in usage then Some(usage[k]) else None, now);
    if w.used >= Budget(k) then (false, usage) else (true, usage[k := w.(used := w.used + 1)])
  }

  function RunAll(calls: seq<Call>): map<Key, Usage> {
    if calls == [] then map[]
    else
      var c := calls[|calls| - 1];
      TakeUsage(RunAll(calls[..|calls| - 1]), KeyOf(c.m, c.lane), c.now).1
  }

  /** The times at which one key was asked for. */
  function Asked(k: Key, calls: seq<Call>): seq<nat> {
    if calls == [] then []
    else
      var c, rest := calls[|calls| - 1], Asked(k, calls[..|calls| - 1]);
      if KeyOf(c.m, c.lane) == k then rest + [c.now] else rest
  }

  function UsageOf(usage: map<Key, Usage>, k: Key): Option<Usage> {
    if k in usage then Some(usage[k]) else None
  }

  lemma OneCall(usage: map<Key, Usage>, c: Call, k: Key, t: Trace)
    requires |t.windows| == |t.grants| && UsageOf(usage, k) == t.usage
    ensures var after := TakeUsage(usage, KeyOf(c.m, c.lane), c.now).1;
      UsageOf(after, k) == if KeyOf(c.m, c.lane) == k then Take(Budget(k), t, c.now).usage else t.usage
  {
  }

  lemma AskedNext(k: Key, calls: seq<Call>)
    requires calls != []
    ensures var c, rest := calls[|calls| - 1], Asked(k, calls[..|calls| - 1]);
      && Asked(k, calls) == (if KeyOf(c.m, c.lane) == k then rest + [c.now] else rest)
      && (KeyOf(c.m, c.lane) == k ==>
            Run(Budget(k), Asked(k, calls)) == Take(Budget(k), Run(Budget(k), rest), c.now))
  {
    var c, rest := calls[|calls| - 1], Asked(k, calls[..|calls| - 1]);
    assert (rest + [c.now])[..|rest|] == rest;
  }

  /** What a key has left depends only on its own calls: no method, and neither
      replies lane, consumes another's grants. */
  lemma {:induction false} LanesAreIsolated(k: Key, calls: seq<Call>)
    ensures UsageOf(RunAll(calls), k) == Run(Budget(k), Asked(k, calls)).usage
  {
    if calls != [] {
      var last := |calls| - 1;
      LanesAreIsolated(k, calls[..last]);
      AskedNext(k, calls);
      OneCall(RunAll(calls[..last]), calls[last], k, Run(Budget(k), Asked(k, calls[..last])));
    }
  }

  /** So the next call of a key is granted exactly when its own run grants it. */
  lemma GrantedByOwnRun(calls: seq<Call>, c: Call)
    ensures var k := KeyOf(c.m, c.lane);
      TakeUsage(RunAll(calls), k, c.now).0 <==>
      |Run(Budget(k), Asked(k, calls) + [c.now]).grants| > |Run(Budget(k), Asked(k, calls)).grants|
  {
    var k := KeyOf(c.m, c.lane);
    LanesAreIsolated(k, calls);
    var asked := Asked(k, calls) + [c.now];
    assert asked[..|asked| - 1] == Asked(k, calls);
  }

  /** Calls that share a budget: of one method, and for replies of one lane. */
  predicate SharesBudget(c: Call, m: Method, lane: Lane) {
    c.m == m && (m == Replies ==> c.lane == lane)
  }

  /** The times of the calls that share this one's budget. */
  function TimesOf(m: Method, lane: Lane, calls: seq<Call>): seq<nat> {
    if calls == [] then []
    else
      var c, rest := calls[|calls| - 1], TimesOf(m, lane, calls[..|calls| - 1]);
      if SharesBudget(c, m, lane) then rest + [c.now] else rest
  }

  /** What a minute's window allows. */
  function PerWindow(m: Method): nat {
    match m case History => 40 case Replies => 20 case List => 10
  }

  lemma {:induction false} AskedBySharers(m: Method, lane: Lane, calls: seq<Call>)
    ensures Asked(KeyOf(m, lane), calls) == TimesOf(m, lane, calls)
  {
    if calls != [] { AskedBySharers(m, lane, calls[..|calls| - 1]); }
  }

  /** Over any calls of any methods and lanes, a call is refused exactly when the
      last grants of its own method, and lane, have spent its window. */
  lemma GrantedExactly(calls: seq<Call>, c: Call)
    requires NonDecreasing(TimesOf(c.m, c.lane, calls) + [c.now])
    ensures var b := PerWindow(c.m);
      TakeUsage(RunAll(calls), KeyOf(c.m, c.lane), c.now).0
      <==> !Spent(b, Run(b, TimesOf(c.m, c.lane, calls)), c.now)
  {
    AskedBySharers(c.m, c.lane, calls);
    GrantedByOwnRun(calls, c);
    assert Budget(KeyOf(c.m, c.lane)) == PerWindow(c.m);
    RefusedExactly(PerWindow(c.m), TimesOf(c.m, c.lane, calls), c.now);
  }

  class SlackBudget {
    var usage: map<Key, Usage>
    ghost var calls: seq<Call>

    ghost predicate Valid()
      reads this
    {
      usage == RunAll(calls)
    }

    constructor ()
      ensures Valid() && calls == []
    {
      usage, calls := map[], [];
    }

    method TakeSlackMethodBudget(m: Method, lane: Lane, now: nat) returns (granted: bool)
      requires Valid()
      modifies this
      ensures Valid() && calls == old(calls) + [Call(m, lane, now)]
      ensures granted <==> TakeUsage(old(usage), KeyOf(m, lane), now).0
      ensures NonDecreasing(TimesOf(m, lane, old(calls)) + [now]) ==>
        var b := PerWindow(m);
        granted <==> !Spent(b, Run(b, TimesOf(m, lane, old(calls))), now)
      ensures usage == TakeUsage(old(usage), KeyOf(m, lane), now).1
    {
      if NonDecreasing(TimesOf(m, lane, calls) + [now]) { GrantedExactly(calls, Call(m, lane, now)); }
      var key := KeyOf(m, lane);
      var budget := if m == Replies then 40 / 2 else Budget(key);
      var current := UsageOf(usage, key);
      var mine := if current.None? || now - current.value.windowStartedAt >= WINDOW_MS
        then Usage(now, 0) else current.value;
      calls := calls + [Call(m, lane, now)];
      assert calls[..|calls| - 1] == old(calls);
      if mine.used >= budget { return false; }
      mine := mine.(used := mine.used + 1);
      usage := usage[key := mine];
      return true;
    }
  }
}
