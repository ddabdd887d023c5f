/** The retry loop of one advisor slot: what it may run again, and what it writes
    down before and after. */
module AdvisorRetry {

  import opened Optional

  datatype Advisor = Grok | Claude

  datatype Cause =
    | Startup | Timeout | Response | RateLimit | Network | AuthCheck | Connection | Authentication
    | Interrupted | Permission | Billing | Configuration | Unknown

  /** `contained` and `prompt` are the flags as the slot records them: absent,
      false or true. */
  datatype Result = Result(adopted: bool, contained: Option<bool>, prompt: Option<bool>, cause: Cause)

  datatype Event =
    | Invalidated
    | Ran(result: Result)
    | Persisted(result: Result)
    | Waited(milliseconds: nat)
    | Retired(result: Result)

  predicate Temporary(c: Cause) {
    c == Startup || c == Timeout || c == Response || c == RateLimit || c == Network || c == AuthCheck || c == Connection
    || c == Authentication
  }

  /** A finished, contained, temporary failure; of Claude, only one whose prompt
      is recorded as not delivered. */
  predicate Retryable(advisor: Advisor, r: Result) {
    && !r.adopted && (advisor == Claude ==> r.prompt == Some(false))
    && r.contained == Some(true) && Temporary(r.cause)
  }

  function Power(n: nat): nat {
    if n == 0 then 1 else 2 * Power(n - 1)
  }

  function Delay(retry: nat): (ms: nat)
  {
    var doubled := 30000 * Power(if retry < 4 then retry else 4);
    if doubled < 300000 then doubled else 300000
  }

  /** What may come next, by the last two events. */
  predicate Follows(advisor: Advisor, before: Option<Event>, last: Option<Event>, e: Event) {
    match e
    case Invalidated => last.None? || last.value.Retired?
    case Ran(_) => last == Some(Invalidated)
    case Persisted(r) => last.None? || last == Some(Ran(r))
    case Waited(_) => last.Some? && last.value.Persisted? && Retryable(advisor, last.value.result)
    case Retired(r) => last.Some? && last.value.Waited? && before == Some(Persisted(r))
  }

  function At(log: seq<Event>, i: int): Option<Event> {
    if 0 <= i < |log| then Some(log[i]) else None
  }

  ghost predicate Legal(advisor: Advisor, log: seq<Event>) {
    forall i :: 0 <= i < |log| ==> LegalAt(advisor, log, i)
  }

  predicate LegalAt(advisor: Advisor, log: seq<Event>, i: nat)
    requires i < |log|
  {
    Follows(advisor, At(log, i - 2), At(log, i - 1), log[i])
  }

  lemma Extend(advisor: Advisor, log: seq<Event>, e: Event)
    requires Legal(advisor, log) && Follows(advisor, At(log, |log| - 2), At(log, |log| - 1), e)
    ensures Legal(advisor, log + [e])
  {
    forall i | 0 <= i < |log| + 1 ensures LegalAt(advisor, log + [e], i) {
      if i < |log| { assert LegalAt(advisor, log, i); }
    }
  }

  /** Nothing runs before its slot was invalidated on disk, and nothing runs again
      unless the result before it was persisted, was retryable, was waited for,
      and its generation was retired. */
  lemma RunsAreEarned(advisor: Advisor, log: seq<Event>, i: nat)
    requires Legal(advisor, log) && i < |log| && log[i].Ran?
    ensures i >= 1 && log[i - 1] == Invalidated
    ensures i == 1 || (i >= 4 && log[i - 4].Persisted? && Retryable(advisor, log[i - 4].result)
                       && log[i - 3].Waited? && log[i - 2] == Retired(log[i - 4].result))
  {
    assert LegalAt(advisor, log, i);
    assert LegalAt(advisor, log, i - 1);
    if i >= 2 {
      assert LegalAt(advisor, log, i - 2);
      assert LegalAt(advisor, log, i - 3);
    }
  }

  lemma NextRunIsEarned(advisor: Advisor, log: seq<Event>, i: nat, j: nat) returns (k: nat)
    requires Legal(advisor, log) && i < j < |log| && log[i].Ran? && log[j].Ran?
    requires forall m :: i < m < j ==> !log[m].Ran?
    ensures k == j - 4 && i < k && log[k] == Persisted(log[i].result) && Retryable(advisor, log[i].result)
  {
    RunsAreEarned(advisor, log, j);
    RunsAreEarned(advisor, log, i);
    k := j - 4;
    assert LegalAt(advisor, log, k);
    assert log[k - 1] == Ran(log[k].result);
  }

  lemma {:induction false} FirstRunAfter(log: seq<Event>, i: nat, j: nat) returns (m: nat)
    requires i < j < |log| && log[j].Ran?
    ensures i < m <= j && log[m].Ran? && forall n :: i < n < m ==> !log[n].Ran?
    decreases j - i
  {
    m := j;
    if n :| i < n < j && log[n].Ran? { m := FirstRunAfter(log, i, n); }
  }

  /** So Claude is never run again after a run that may have delivered its prompt,
      nor either advisor after an answer or an uncontained run. */
  lemma LastRun(advisor: Advisor, log: seq<Event>, i: nat, j: nat)
    requires Legal(advisor, log) && i < j < |log| && log[i].Ran? && log[j].Ran?
    ensures !log[i].result.adopted && log[i].result.contained == Some(true)
    ensures advisor == Claude ==> log[i].result.prompt == Some(false)
  {
    var m := FirstRunAfter(log, i, j);
    var k := NextRunIsEarned(advisor, log, i, m);
  }

  /** The results of the runs in a log, and its waits. */
  function Results(log: seq<Event>): seq<Result> {
    if log == [] then []
    else
      var last, front := log[|log| - 1], Results(log[..|log| - 1]);
      if last.Ran? then front + [last.result] else front
  }

  function Waits(log: seq<Event>): seq<nat> {
    if log == [] then []
    else
      var last, front := log[|log| - 1], Waits(log[..|log| - 1]);
      if last.Waited? then front + [last.milliseconds] else front
  }

  /** The waits start at half a minute and double up to five minutes. */
  ghost predicate Doubling(waits: seq<nat>) {
    && (waits != [] ==> waits[0] == 30000)
    && forall k :: 0 < k < |waits| ==>
         waits[k] == if 2 * waits[k - 1] < 300000 then 2 * waits[k - 1] else 300000
  }

  lemma DelayDoubles(k: nat)
    ensures Delay(0) == 30000
    ensures k > 0 ==> Delay(k) == if 2 * Delay(k - 1) < 300000 then 2 * Delay(k - 1) else 300000
  {
    assert Power(1) == 2 && Power(2) == 4 && Power(3) == 8 && Power(4) == 16;
    assert k < 5 ==> k == 0 || k == 1 || k == 2 || k == 3 || k == 4;
  }

  lemma OneMore(log: seq<Event>, e: Event)
    ensures Results(log + [e]) == Results(log) + if e.Ran? then [e.result] else []
    ensures Waits(log + [e]) == Waits(log) + if e.Waited? then [e.milliseconds] else []
  {
    assert (log + [e])[..|log|] == log;
  }

  /** A log of delays is one of doubling waits. */
  lemma DelaysDouble(waits: seq<nat>)
    requires forall k :: 0 <= k < |waits| ==> waits[k] == Delay(k)
    ensures Doubling(waits)
  {
    forall k | 0 < k < |waits| ensures waits[k] == if 2 * waits[k - 1] < 300000 then 2 * waits[k - 1] else 300000 {
      DelayDoubles(k);
    }
    DelayDoubles(0);
  }

  /** One step of the loop is appended to the log. */
  lemma Append(advisor: Advisor, log: seq<Event>, e: Event)
    requires Legal(advisor, log) && Follows(advisor, At(log, |log| - 2), At(log, |log| - 1), e)
    ensures Legal(advisor, log + [e])
    ensures At(log + [e], |log|) == Some(e) && At(log + [e], |log| - 1) == At(log, |log| - 1)
    ensures Results(log + [e]) == Results(log) + if e.Ran? then [e.result] else []
    ensures Waits(log + [e]) == Waits(log) + if e.Waited? then [e.milliseconds] else []
  {
    Extend(advisor, log, e);
    OneMore(log, e);
  }

  lemma RunAndPersist(advisor: Advisor, log: seq<Event>, r: Result)
    requires Legal(advisor, log) && log != [] && log[|log| - 1] == Invalidated
    ensures var longer := log + [Ran(r), Persisted(r)];
      Legal(advisor, longer) && Results(longer) == Results(log) + [r] && Waits(longer) == Waits(log)
  {
    Append(advisor, log, Ran(r));
    Append(advisor, log + [Ran(r)], Persisted(r));
    assert log + [Ran(r)] + [Persisted(r)] == log + [Ran(r), Persisted(r)];
  }

  lemma WaitAndRetire(advisor: Advisor, log: seq<Event>, r: Result, ms: nat)
    requires Legal(advisor, log) && log != [] && log[|log| - 1] == Persisted(r) && Retryable(advisor, r)
    ensures var longer := log + [Waited(ms), Retired(r)];
      Legal(advisor, longer) && Results(longer) == Results(log) && Waits(longer) == Waits(log) + [ms]
  {
    var waited := log + [Waited(ms)];
    Append(advisor, log, Waited(ms));
    assert At(waited, |waited| - 1) == Some(Waited(ms)) && At(waited, |waited| - 2) == Some(Persisted(r));
    Append(advisor, waited, Retired(r));
    assert waited + [Retired(r)] == log + [Waited(ms), Retired(r)];
  }

  lemma Invalidate(advisor: Advisor, log: seq<Event>)
    requires Legal(advisor, log) && (log == [] || log[|log| - 1].Retired?)
    ensures var longer := log + [Invalidated];
      Legal(advisor, longer) && Results(longer) == Results(log) && Waits(longer) == Waits(log)
  {
    Append(advisor, log, Invalidated);
  }

  /** The log of an attempt that used this many runs and waited this often. */
  ghost predicate Logged(advisor: Advisor, runs: seq<Result>, log: seq<Event>, used: nat, waits: nat) {
    && Legal(advisor, log) && used <= |runs| && Results(log) == runs[..used]
    && |Waits(log)| == waits && forall k :: 0 <= k < waits ==> Waits(log)[k] == Delay(k)
  }

  lemma LoggedSays(advisor: Advisor, runs: seq<Result>, log: seq<Event>, used: nat, waits: nat)
    requires Logged(advisor, runs, log, used, waits)
    ensures Legal(advisor, log) && Doubling(Waits(log)) && Results(log) <= runs
    ensures used == |runs| ==> Results(log) == runs
    ensures waits == 0 ==> Waits(log) == []
    ensures |Results(log)| == used
  {
    DelaysDouble(Waits(log));
  }

  /** The current result is the last one persisted. */
  ghost predicate Current(log: seq<Event>, r: Result) {
    log != [] && log[|log| - 1] == Persisted(r)
  }

  ghost predicate ToRun(log: seq<Event>) {
    log != [] && log[|log| - 1] == Invalidated
  }

  lemma RunLogged(advisor: Advisor, runs: seq<Result>, log: seq<Event>, used: nat, waits: nat)
    requires Logged(advisor, runs, log, used, waits) && ToRun(log) && used < |runs|
    ensures var longer := log + [Ran(runs[used]), Persisted(runs[used])];
      Logged(advisor, runs, longer, used + 1, waits) && Current(longer, runs[used])
  {
    RunAndPersist(advisor, log, runs[used]);
    assert runs[..used + 1] == runs[..used] + [runs[used]];
  }

  lemma RetryLogged(advisor: Advisor, runs: seq<Result>, log: seq<Event>, used: nat, waits: nat, r: Result)
    requires Logged(advisor, runs, log, used, waits) && Current(log, r) && Retryable(advisor, r)
    ensures var longer := log + [Waited(Delay(waits)), Retired(r)] + [Invalidated];
      Logged(advisor, runs, longer, used, waits + 1) && ToRun(longer)
  {
    WaitAndRetire(advisor, log, r, Delay(waits));
    Invalidate(advisor, log + [Waited(Delay(waits)), Retired(r)]);
  }

  lemma SavedLogged(advisor: Advisor, runs: seq<Result>, r: Result)
    ensures Logged(advisor, runs, [Persisted(r)], 0, 0) && Current([Persisted(r)], r)
  {
    Append(advisor, [], Persisted(r));
    assert [] + [Persisted(r)] == [Persisted(r)];
  }

  lemma FirstLogged(advisor: Advisor, runs: seq<Result>)
    ensures Logged(advisor, runs, [], 0, 0) && Logged(advisor, runs, [Invalidated], 0, 0)
  {
    Invalidate(advisor, []);
    assert [] + [Invalidated] == [Invalidated];
  }

  /** Runs until a result is not to be retried; no result is the end of the given
      runs, each of which was used in its order. */
  method RecoverAdvisorSlot(advisor: Advisor, retryFinishedFailure: bool, saved: Option<Result>, runs: seq<Result>)
    returns (result: Option<Result>, log: seq<Event>)
    ensures Legal(advisor, log) && Doubling(Waits(log))
    ensures Results(log) <= runs && (result.None? ==> Results(log) == runs)
    ensures result.Some? ==> log != [] && log[|log| - 1] == Persisted(result.value)
    ensures result.Some? && retryFinishedFailure ==> !Retryable(advisor, result.value)
    ensures !retryFinishedFailure ==> Waits(log) == [] && |Results(log)| <= 1
    ensures saved.Some? && (!retryFinishedFailure || !Retryable(advisor, saved.value)) ==>
              result == saved && log == [Persisted(saved.value)]
  {
    var used := 0;
    var current: Result;
    FirstLogged(advisor, runs);
    if saved.Some? {
      current, log := saved.value, [Persisted(saved.value)];
      SavedLogged(advisor, runs, current);
    } else {
      if |runs| == 0 {
        LoggedSays(advisor, runs, [], 0, 0);
        return None, [];
      }
      log := [Invalidated];
      RunLogged(advisor, runs, log, 0, 0);
      current, used, log := runs[0], 1, log + [Ran(runs[0]), Persisted(runs[0])];
    }
    var retry := 0;
    while retryFinishedFailure && Retryable(advisor, current)
      invariant Logged(advisor, runs, log, used, retry) && Current(log, current)
      invariant !retryFinishedFailure ==> retry == 0 && used <= 1
      invariant saved.Some? && retry == 0 ==> current == saved.value && log == [Persisted(saved.value)]
      invariant retry > 0 ==> retryFinishedFailure && (saved.Some? ==> Retryable(advisor, saved.value))
      decreases |runs| - used
    {
      RetryLogged(advisor, runs, log, used, retry, current);
      log := log + [Waited(Delay(retry)), Retired(current)] + [Invalidated];
      retry := retry + 1;
      if used == |runs| {
        LoggedSays(advisor, runs, log, used, retry);
        return None, log;
      }
      RunLogged(advisor, runs, log, used, retry);
      log := log + [Ran(runs[used]), Persisted(runs[used])];
      current, used := runs[used], used + 1;
    }
    LoggedSays(advisor, runs, log, used, retry);
    return Some(current), log;
  }
}
