/** Two sliding-window limiters: the per-client one of the HTTP middleware, which
    refuses, and the one in front of external services, which waits. */
module SlidingWindow {
  import opened Basics
  type Times = seq<real>

  /** Drop expired timestamps from the front, as both loops do. */
  function Pruned(q: Times, threshold: real): Times {
    if q != [] && q[0] <= threshold then Pruned(q[1..], threshold) else q
  }

  function Queue(queues: map<string, Times>, client: string): Times {
    if client in queues then queues[client] else []
  }

  datatype Limits = Limits(window: real, limit: nat)

  predicate Proper(limits: Limits) {
    limits.window > 0.0 && limits.limit >= 1
  }

  /** One request as the middleware decides it, on pruned queues. */
  function PruningStep(queues: map<string, Times>, limits: Limits, client: string, now: real): (map<string, Times>, bool) {
    var kept := Pruned(Queue(queues, client), now - limits.window);
    if |kept| >= limits.limit then (queues[client := kept], true)
    else (queues[client := kept + [now]], false)
  }

  /** The positions of a log that fall in the half-open span (lo, hi]. */
  function Within(log: Times, lo: real, hi: real): set<nat> {
    set i: nat | i < |log| && lo < log[i] <= hi
  }

  /** One request as the rule is stated: count the accepted requests of the client
      in the last window, over a log from which nothing is ever removed. */
  function CountingStep(logs: map<string, Times>, limits: Limits, client: string, now: real): (map<string, Times>, bool) {
    var log := Queue(logs, client);
    if |Within(log, now - limits.window, now)| >= limits.limit then (logs, true)
    else (logs[client := log + [now]], false)
  }

  datatype Call = Call(client: string, time: real)

  function PruningRun(limits: Limits, calls: seq<Call>): (map<string, Times>, seq<bool>) {
    if calls == [] then (map[], [])
    else
      var (queues, answers) := PruningRun(limits, calls[..|calls| - 1]);
      var last := calls[|calls| - 1];
      var (queues', limited) := PruningStep(queues, limits, last.client, last.time);
      (queues', answers + [limited])
  }

  function CountingRun(limits: Limits, calls: seq<Call>): (map<string, Times>, seq<bool>) {
    if calls == [] then (map[], [])
    else
      var (logs, answers) := CountingRun(limits, calls[..|calls| - 1]);
      var last := calls[|calls| - 1];
      var (logs', limited) := CountingStep(logs, limits, last.client, last.time);
      (logs', answers + [limited])
  }

  ghost predicate Sorted(log: Times) {
    forall i, j | 0 <= i < j < |log| :: log[i] <= log[j]
  }

  ghost predicate Ordered(calls: seq<Call>) {
    forall i, j | 0 <= i < j < |calls| :: calls[i].time <= calls[j].time
  }

  // ------------------------------------------------------- pruning and counting

  lemma {:induction false} PrunedTwice(q: Times, a: real, b: real)
    requires a <= b
    ensures Pruned(Pruned(q, a), b) == Pruned(q, b)
  {
    if q != [] && q[0] <= a {
      PrunedTwice(q[1..], a, b);
    }
  }

  lemma {:induction false} PrunedAppend(q: Times, x: real, threshold: real)
    ensures Pruned(q + [x], threshold)
         == if Pruned(q, threshold) == [] then Pruned([x], threshold) else Pruned(q, threshold) + [x]
  {
    if q == [] {
      assert q + [x] == [x];
    } else if q[0] <= threshold {
      PrunedAppend(q[1..], x, threshold);
      assert (q + [x])[1..] == q[1..] + [x];
    }
  }

  /** Pruning a sorted log keeps a suffix: exactly the positions above the threshold. */
  lemma {:induction false} PrunedIsSuffix(log: Times, threshold: real)
    requires Sorted(log)
    ensures |Pruned(log, threshold)| <= |log|
    ensures var cut := |log| - |Pruned(log, threshold)|;
            && Pruned(log, threshold) == log[cut..]
            && (forall i | 0 <= i < cut :: log[i] <= threshold)
            && (forall i | cut <= i < |log| :: log[i] > threshold)
  {
    if log != [] && log[0] <= threshold {
      PrunedIsSuffix(log[1..], threshold);
      var cut := |log[1..]| - |Pruned(log[1..], threshold)|;
      assert log[1..][cut..] == log[cut + 1..];
      forall i | 0 <= i < cut + 1
        ensures log[i] <= threshold
      {
        assert i > 0 ==> log[i] == log[1..][i - 1];
      }
      forall i | cut + 1 <= i < |log|
        ensures log[i] > threshold
      {
        assert log[i] == log[1..][i - 1];
      }
    }
  }

  function Interval(lo: nat, hi: nat): (r: set<nat>)
    ensures forall i :: i in r <==> lo <= i < hi
  {
    if hi <= lo then {} else Interval(lo, hi - 1) + {hi - 1}
  }

  lemma {:induction false} IntervalSize(lo: nat, hi: nat)
    requires lo <= hi
    ensures |Interval(lo, hi)| == hi - lo
  {
    if lo < hi {
      IntervalSize(lo, hi - 1);
    }
  }

  /** On a sorted log that ends by `now`, the length of the pruned queue is the count of the window. */
  lemma PrunedCounts(log: Times, lo: real, now: real)
    requires Sorted(log) && forall i | 0 <= i < |log| :: log[i] <= now
    ensures |Pruned(log, lo)| == |Within(log, lo, now)|
  {
    PrunedIsSuffix(log, lo);
    var cut := |log| - |Pruned(log, lo)|;
    assert Within(log, lo, now) == Interval(cut, |log|);
    IntervalSize(cut, |log|);
  }

  // --------------------------------------------------------- the simulation

  /** Pruned queues and full logs cannot be told apart from `now` on. */
  ghost predicate Matches(queues: map<string, Times>, logs: map<string, Times>, limits: Limits, now: real) {
    forall c, threshold | threshold >= now - limits.window ::
      Pruned(Queue(queues, c), threshold) == Pruned(Queue(logs, c), threshold)
  }

  ghost predicate LogsOk(logs: map<string, Times>, limits: Limits, now: real) {
    forall c :: LogOk(Queue(logs, c), limits, now)
  }

  /** Sorted, nothing from the future, and any `limit` + 1 entries in a row span a full window. */
  ghost predicate LogOk(log: Times, limits: Limits, now: real) {
    && Sorted(log)
    && (forall i | 0 <= i < |log| :: log[i] <= now)
    && (forall i | limits.limit <= i < |log| :: log[i - limits.limit] <= log[i] - limits.window)
  }

  lemma AcceptedKeepsLog(log: Times, limits: Limits, now: real)
    requires Proper(limits) && LogOk(log, limits, now)
    requires |Pruned(log, now - limits.window)| < limits.limit
    ensures LogOk(log + [now], limits, now)
  {
    PrunedIsSuffix(log, now - limits.window);
    var n := |log|;
    if limits.limit <= n {
      assert log[n - limits.limit] <= now - limits.window;
    }
  }

  /** Both forms give the same verdict. */
  lemma SameVerdict(queues: map<string, Times>, logs: map<string, Times>, limits: Limits, before: real, call: Call)
    requires Proper(limits) && before <= call.time
    requires Matches(queues, logs, limits, before) && LogsOk(logs, limits, before)
    ensures PruningStep(queues, limits, call.client, call.time).1 == CountingStep(logs, limits, call.client, call.time).1
  {
    var log := Queue(logs, call.client);
    assert LogOk(log, limits, before);
    PrunedCounts(log, call.time - limits.window, call.time);
  }

  lemma StillMatches(queues: map<string, Times>, logs: map<string, Times>, limits: Limits, before: real, call: Call)
    requires Proper(limits) && before <= call.time
    requires Matches(queues, logs, limits, before) && LogsOk(logs, limits, before)
    ensures Matches(PruningStep(queues, limits, call.client, call.time).0,
                    CountingStep(logs, limits, call.client, call.time).0, limits, call.time)
  {
    var Call(client, now) := call;
    var queues', logs' := PruningStep(queues, limits, client, now).0, CountingStep(logs, limits, client, now).0;
    var q, log, lo := Queue(queues, client), Queue(logs, client), now - limits.window;
    SameVerdict(queues, logs, limits, before, call);
    forall c, threshold | threshold >= lo
      ensures Pruned(Queue(queues', c), threshold) == Pruned(Queue(logs', c), threshold)
    {
      assert Pruned(Queue(queues, c), threshold) == Pruned(Queue(logs, c), threshold);
      if c == client {
        PrunedTwice(q, lo, threshold);
        PrunedAppend(Pruned(q, lo), now, threshold);
        PrunedAppend(log, now, threshold);
      }
    }
  }

  lemma LogsStayOk(logs: map<string, Times>, limits: Limits, before: real, call: Call)
    requires Proper(limits) && before <= call.time && LogsOk(logs, limits, before)
    ensures LogsOk(CountingStep(logs, limits, call.client, call.time).0, limits, call.time)
  {
    var Call(client, now) := call;
    var (logs', limited) := CountingStep(logs, limits, client, now);
    var log := Queue(logs, client);
    assert LogOk(log, limits, before);
    PrunedCounts(log, now - limits.window, now);
    if !limited {
      AcceptedKeepsLog(log, limits, now);
    }
    forall c
      ensures LogOk(Queue(logs', c), limits, now)
    {
      assert LogOk(Queue(logs, c), limits, before);
    }
  }

  /** On every trace the middleware's pruned queues decide exactly as counting the accepted
      requests of each client in the full log would. */
  lemma {:induction false} PruningDecidesAsCounting(limits: Limits, calls: seq<Call>)
    requires Proper(limits) && Ordered(calls)
    ensures PruningRun(limits, calls).1 == CountingRun(limits, calls).1
    ensures calls != [] ==> var now := calls[|calls| - 1].time;
              Matches(PruningRun(limits, calls).0, CountingRun(limits, calls).0, limits, now)
              && LogsOk(CountingRun(limits, calls).0, limits, now)
  {
    if calls != [] {
      var n := |calls| - 1;
      PruningDecidesAsCounting(limits, calls[..n]);
      var before := if n > 0 then calls[n - 1].time else calls[n].time;
      var queues, logs := PruningRun(limits, calls[..n]).0, CountingRun(limits, calls[..n]).0;
      SameVerdict(queues, logs, limits, before, calls[n]);
      StillMatches(queues, logs, limits, before, calls[n]);
      LogsStayOk(logs, limits, before, calls[n]);
    }
  }

  lemma SpacedLogIsBounded(log: Times, limits: Limits, now: real, t: real)
    requires LogOk(log, limits, now)
    ensures |Within(log, t - limits.window, t)| <= limits.limit
  {
    var hits := Within(log, t - limits.window, t);
    if hits != {} {
      var first := FirstOf(hits);
      assert hits <= Interval(first, first + limits.limit) by {
        forall i | i in hits
          ensures i < first + limits.limit
        {
          if i >= limits.limit {
            var j := i - limits.limit;
            assert log[j] <= log[i] - limits.window;
            forall k | 0 <= k <= j
              ensures k !in hits
            {
              assert k < j ==> log[k] <= log[j];
            }
          }
        }
      }
      IntervalSize(first, first + limits.limit);
      SubsetSize(hits, Interval(first, first + limits.limit));
    }
  }

  lemma {:induction false} FirstOf(s: set<nat>) returns (m: nat)
    requires s != {}
    ensures m in s && forall i | i in s :: m <= i
  {
    m :| m in s;
    if s - {m} != {} {
      var rest := s - {m};
      var other := FirstOf(rest);
      assert forall i | i in s :: i == m || i in rest;
      m := if other < m then other else m;
    } else {
      assert forall i | i in s :: i in s - {m} || i == m;
    }
  }

  /** Calls of one client in the half-open span (t - window, t] that were let through. */
  function AcceptedInSpan(calls: seq<Call>, limited: seq<bool>, window: real, client: string, t: real): nat
    requires |limited| == |calls|
  {
    if calls == [] then 0
    else
      var n := |calls| - 1;
      AcceptedInSpan(calls[..n], limited[..n], window, client, t)
      + (if calls[n].client == client && t - window < calls[n].time <= t && !limited[n] then 1 else 0)
  }

  /** The log gains exactly the position of an accepted call. */
  lemma OneMoreWithin(log: Times, time: real, lo: real, hi: real)
    ensures |Within(log + [time], lo, hi)| == |Within(log, lo, hi)| + if lo < time <= hi then 1 else 0
  {
    var all, n := log + [time], |log|;
    assert forall i | 0 <= i < n :: all[i] == log[i];
    assert Within(all, lo, hi) == Within(log, lo, hi) + if lo < time <= hi then {n} else {};
  }

  /** The full log of a client holds exactly the calls that were let through. */
  lemma {:induction false} LogHoldsAccepted(limits: Limits, calls: seq<Call>, client: string, t: real)
    ensures |CountingRun(limits, calls).1| == |calls|
    ensures AcceptedInSpan(calls, CountingRun(limits, calls).1, limits.window, client, t)
         == |Within(Queue(CountingRun(limits, calls).0, client), t - limits.window, t)|
  {
    if calls != [] {
      var n := |calls| - 1;
      LogHoldsAccepted(limits, calls[..n], client, t);
      var answers := CountingRun(limits, calls[..n]).1;
      var limited := CountingStep(CountingRun(limits, calls[..n]).0, limits, calls[n].client, calls[n].time).1;
      assert CountingRun(limits, calls).1 == answers + [limited] && (answers + [limited])[..n] == answers;
      OneMoreWithin(Queue(CountingRun(limits, calls[..n]).0, client), calls[n].time, t - limits.window, t);
    }
  }

  /** Whatever the traffic, the middleware lets at most `limit` requests of one client through in a span of
      one window. */
  lemma EverySpanHoldsAtMostLimit(limits: Limits, calls: seq<Call>, client: string, t: real)
    requires Proper(limits) && Ordered(calls)
    ensures |PruningRun(limits, calls).1| == |calls|
    ensures AcceptedInSpan(calls, PruningRun(limits, calls).1, limits.window, client, t) <= limits.limit
  {
    PruningDecidesAsCounting(limits, calls);
    LogHoldsAccepted(limits, calls, client, t);
    var log := Queue(CountingRun(limits, calls).0, client);
    if calls != [] {
      assert LogOk(log, limits, calls[|calls| - 1].time);
      SpacedLogIsBounded(log, limits, calls[|calls| - 1].time, t);
    }
  }

  /** Dropping empty queues changes no queue that a client sees. */
  lemma ForgettingIsInvisible(queues: map<string, Times>, empty: set<string>)
    requires forall c | c in empty :: c in queues && queues[c] == []
    ensures forall c :: Queue(queues - empty, c) == Queue(queues, c)
  {
  }

  /** The loop that drops expired timestamps. */
  method PruneFront(q: Times, threshold: real) returns (kept: Times)
    ensures kept == Pruned(q, threshold)
  {
    kept := q;
    while kept != [] && kept[0] <= threshold
      invariant Pruned(kept, threshold) == Pruned(q, threshold)
      decreases |kept|
    {
      kept := kept[1..];
    }
  }

  /** The development fallback of the middleware. */
  class RequestWindows {
    var requests: map<string, Times>

    constructor ()
      ensures requests == map[]
    {
      requests := map[];
    }

    /** Clients without timestamps may be forgotten; no queue a client sees changes. */
    method MemoryLimited(client: string, limits: Limits, now: real) returns (limited: bool)
      modifies this
      ensures limited == PruningStep(old(requests), limits, client, now).1
      ensures forall c :: Queue(requests, c) == Queue(PruningStep(old(requests), limits, client, now).0, c)
    {
      var threshold := now - limits.window;
      var timestamps := PruneFront(if client in requests then requests[client] else [], threshold);
      requests := requests[client := timestamps];
      if |timestamps| >= limits.limit {
        return true;
      }
      requests := requests[client := timestamps + [now]];
      if |requests| > 10_000 {
        var emptyKeys := set c | c in requests && requests[c] == [];
        ForgettingIsInvisible(requests, emptyKeys);
        requests := requests - emptyKeys;
      }
      limited := false;
    }
  }

  // --------------------------------------------------------- waiting instead

  /** The timestamps kept and the time recorded by the blocking limiter, when the clock read
      `now` on entry and `woke` after the sleep. */
  function WaitingStep(q: Times, limits: Limits, now: real, woke: real): (Times, real) {
    var kept := Pruned(q, now - limits.window);
    if |kept| < limits.limit then (kept + [now], now)
    else (Pruned(kept, woke - limits.window) + [woke], woke)
  }

  /** `wake` says when a sleep that starts at its first argument and lasts the second one ends. */
  method ApplyApiRateLimit(requestTimes: Times, limits: Limits, now: real, wake: (real, real) -> real)
    returns (times: Times, recorded: real, slept: real)
    requires Proper(limits)
    requires forall start, duration :: wake(start, duration) >= start + duration
    ensures slept >= 0.0
    ensures (slept > 0.0) <==> |Pruned(requestTimes, now - limits.window)| >= limits.limit
    ensures (times, recorded) == WaitingStep(requestTimes, limits, now, wake(now, slept))
    ensures slept > 0.0 ==> slept == Pruned(requestTimes, now - limits.window)[0] + limits.window - now
    ensures slept > 0.0 ==> recorded - limits.window >= Pruned(requestTimes, now - limits.window)[0]
  {
    times, recorded, slept := requestTimes, now, 0.0;
    while times != [] && recorded - times[0] >= limits.window
      invariant Pruned(times, now - limits.window) == Pruned(requestTimes, now - limits.window)
      decreases |times|
    {
      times := times[1..];
    }
    ghost var kept := times;
    if |times| >= limits.limit {
      var duration := limits.window - (recorded - times[0]);
      if duration > 0.0 {
        slept := duration;
        recorded := wake(now, duration);
        while times != [] && recorded - times[0] >= limits.window
          invariant Pruned(times, recorded - limits.window) == Pruned(kept, recorded - limits.window)
          decreases |times|
        {
          times := times[1..];
        }
      }
    }
    times := times + [recorded];
  }

  datatype Wait = Wait(now: real, woke: real)

  /** The deque and the full log of recorded times after a trace of calls. */
  function WaitingRun(limits: Limits, calls: seq<Wait>): (Times, Times) {
    if calls == [] then ([], [])
    else
      var (q, log) := WaitingRun(limits, calls[..|calls| - 1]);
      var last := calls[|calls| - 1];
      var (q', recorded) := WaitingStep(q, limits, last.now, last.woke);
      (q', log + [recorded])
  }

  /** The call entered after everything recorded so far, and slept at least until the oldest
      kept timestamp left the window. */
  ghost predicate FairWait(q: Times, log: Times, limits: Limits, call: Wait) {
    && (forall i | 0 <= i < |log| :: log[i] <= call.now)
    && call.now <= call.woke
    && var kept := Pruned(q, call.now - limits.window);
       |kept| >= limits.limit && kept != [] ==> kept[0] <= call.woke - limits.window
  }

  ghost predicate FairRun(limits: Limits, calls: seq<Wait>) {
    forall n | 0 <= n < |calls| ::
      FairWait(WaitingRun(limits, calls[..n]).0, WaitingRun(limits, calls[..n]).1, limits, calls[n])
  }

  /** After the sleep, if any, there is room for one more timestamp. */
  lemma WakingMakesRoom(log: Times, limits: Limits, lo: real, woke: real)
    requires Proper(limits) && Sorted(log) && |Pruned(log, lo)| == limits.limit
    requires lo <= woke - limits.window && Pruned(log, lo)[0] <= woke - limits.window
    ensures |Pruned(log, woke - limits.window)| < limits.limit
  {
    PrunedTwice(log, lo, woke - limits.window);
    var kept := Pruned(log, lo);
    PrunedIsSuffix(log, lo);
    assert Sorted(kept);
    PrunedIsSuffix(kept, woke - limits.window);
  }

  lemma WaitKeepsLog(q: Times, log: Times, limits: Limits, cut: real, before: real, call: Wait)
    requires Proper(limits) && LogOk(log, limits, before) && q == Pruned(log, cut)
    requires |q| <= limits.limit && cut <= call.now - limits.window && before <= call.now
    requires FairWait(q, log, limits, call)
    ensures var (q', recorded) := WaitingStep(q, limits, call.now, call.woke);
            && LogOk(log + [recorded], limits, recorded)
            && q' == Pruned(log + [recorded], recorded - limits.window)
            && |q'| <= limits.limit && call.now <= recorded
  {
    var lo := call.now - limits.window;
    PrunedTwice(log, cut, lo);
    ShorterWhenPruned(q, lo);
    var recorded := WaitingStep(q, limits, call.now, call.woke).1;
    PrunedTwice(log, lo, recorded - limits.window);
    if |Pruned(q, lo)| >= limits.limit {
      WakingMakesRoom(log, limits, lo, call.woke);
    }
    PrunedAppend(log, recorded, recorded - limits.window);
    assert LogOk(log, limits, recorded);
    AcceptedKeepsLog(log, limits, recorded);
  }

  lemma {:induction false} ShorterWhenPruned(q: Times, threshold: real)
    ensures |Pruned(q, threshold)| <= |q|
  {
    if q != [] && q[0] <= threshold {
      ShorterWhenPruned(q[1..], threshold);
    }
  }

  /** The deque is the log pruned at the last recorded time. */
  ghost predicate WaitOk(q: Times, log: Times, limits: Limits) {
    && |q| <= limits.limit
    && (log == [] ==> q == [])
    && (log != [] ==> LogOk(log, limits, log[|log| - 1]) && q == Pruned(log, log[|log| - 1] - limits.window))
  }

  lemma FairPrefix(limits: Limits, calls: seq<Wait>, n: nat)
    requires FairRun(limits, calls) && n <= |calls|
    ensures FairRun(limits, calls[..n])
  {
    forall m | 0 <= m < n
      ensures FairWait(WaitingRun(limits, calls[..n][..m]).0, WaitingRun(limits, calls[..n][..m]).1, limits, calls[..n][m])
    {
      assert calls[..n][..m] == calls[..m];
    }
  }

  lemma WaitKeepsOk(q: Times, log: Times, limits: Limits, call: Wait)
    requires Proper(limits) && WaitOk(q, log, limits) && FairWait(q, log, limits, call)
    ensures var (q', recorded) := WaitingStep(q, limits, call.now, call.woke);
            WaitOk(q', log + [recorded], limits)
  {
    var before := if log == [] then call.now else log[|log| - 1];
    WaitKeepsLog(q, log, limits, before - limits.window, before, call);
  }

  lemma {:induction false} WaitingRunOk(limits: Limits, calls: seq<Wait>)
    requires Proper(limits) && FairRun(limits, calls)
    ensures |WaitingRun(limits, calls).1| == |calls|
    ensures WaitOk(WaitingRun(limits, calls).0, WaitingRun(limits, calls).1, limits)
  {
    if calls != [] {
      var n := |calls| - 1;
      FairPrefix(limits, calls, n);
      WaitingRunOk(limits, calls[..n]);
      WaitKeepsOk(WaitingRun(limits, calls[..n]).0, WaitingRun(limits, calls[..n]).1, limits, calls[n]);
    }
  }

  /** At every call the deque is as long, after pruning, as the full log has times in the window: the call sleeps
      exactly when `limit` calls were recorded in the window that ends with it. */
  lemma WaitingDecidesAsCounting(limits: Limits, calls: seq<Wait>, n: nat)
    requires Proper(limits) && FairRun(limits, calls) && n < |calls|
    ensures var (q, log) := WaitingRun(limits, calls[..n]);
            var now := calls[n].now;
            |Pruned(q, now - limits.window)| == |Within(log, now - limits.window, now)|
  {
    var (q, log) := WaitingRun(limits, calls[..n]);
    var now := calls[n].now;
    FairPrefix(limits, calls, n);
    WaitingRunOk(limits, calls[..n]);
    if log != [] {
      assert FairWait(q, log, limits, calls[n]);
      PrunedTwice(log, log[|log| - 1] - limits.window, now - limits.window);
      PrunedCounts(log, now - limits.window, now);
    }
  }

  /** Over any trace of calls no span of one window ever holds more than `limit` requests,
      and every call is recorded. */
  lemma WaitingKeepsEverySpan(limits: Limits, calls: seq<Wait>, t: real)
    requires Proper(limits) && FairRun(limits, calls)
    ensures |WaitingRun(limits, calls).1| == |calls|
    ensures |Within(WaitingRun(limits, calls).1, t - limits.window, t)| <= limits.limit
  {
    WaitingRunOk(limits, calls);
    var log := WaitingRun(limits, calls).1;
    if calls != [] {
      SpacedLogIsBounded(log, limits, log[|log| - 1], t);
    }
  }
}
