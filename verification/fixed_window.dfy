/** The Redis counter of the middleware: one counter per client and clock window,
    created by the first request of the window and left to expire. */
module FixedWindow {
  import opened Basics

  datatype Counter = Counter(count: nat, expiresAt: real)

  type Counters = map<(string, int), Counter>

  datatype Call = Call(client: string, time: real)

  /** `int(time.time()) // window`. */
  function WindowOf(time: real, window: nat): int
    requires window >= 1
  {
    time.Floor / window
  }

  /** INCR, then EXPIRE when the counter is new; an expired counter is gone. */
  function Hit(counters: Counters, window: nat, call: Call): (Counters, nat)
    requires window >= 1
  {
    var key := (call.client, WindowOf(call.time, window));
    if key in counters && counters[key].expiresAt > call.time then
      var counter := counters[key];
      (counters[key := counter.(count := counter.count + 1)], counter.count + 1)
    else
      (counters[key := Counter(1, call.time + (window + 1) as real)], 1)
  }

  /** Counters and verdicts (true = refused) after a trace. */
  function Run(window: nat, limit: nat, calls: seq<Call>): (r: (Counters, seq<bool>))
    requires window >= 1
    ensures |r.1| == |calls|
  {
    if calls == [] then (map[], [])
    else
      var (counters, refused) := Run(window, limit, calls[..|calls| - 1]);
      var (counters', count) := Hit(counters, window, calls[|calls| - 1]);
      (counters', refused + [count > limit])
  }

  /** Requests of one client in one clock window. */
  function Total(calls: seq<Call>, window: nat, client: string, w: int): nat
    requires window >= 1
  {
    if calls == [] then 0
    else
      var last := calls[|calls| - 1];
      Total(calls[..|calls| - 1], window, client, w)
      + (if last.client == client && WindowOf(last.time, window) == w then 1 else 0)
  }

  /** Admitted requests among them. */
  function Admitted(calls: seq<Call>, refused: seq<bool>, window: nat, client: string, w: int): nat
    requires window >= 1 && |refused| == |calls|
  {
    if calls == [] then 0
    else
      var n := |calls| - 1;
      Admitted(calls[..n], refused[..n], window, client, w)
      + (if calls[n].client == client && WindowOf(calls[n].time, window) == w && !refused[n] then 1 else 0)
  }

  /** Admitted requests of one client in the half-open span (t - window, t]. */
  function AdmittedInSpan(calls: seq<Call>, refused: seq<bool>, window: nat, client: string, t: real): nat
    requires |refused| == |calls|
  {
    if calls == [] then 0
    else
      var n := |calls| - 1;
      AdmittedInSpan(calls[..n], refused[..n], window, client, t)
      + (if calls[n].client == client && t - window as real < calls[n].time <= t && !refused[n] then 1 else 0)
  }

  // ----------------------------------------------------- the expiry is harmless

  lemma DivisionBounds(n: int, window: nat)
    requires window >= 1
    ensures (n / window) * window <= n < (n / window) * window + window
  {
  }

  lemma SameWindowIsClose(a: real, b: real, window: nat)
    requires window >= 1 && WindowOf(a, window) == WindowOf(b, window)
    ensures b < a + (window + 1) as real
  {
    DivisionBounds(a.Floor, window);
    DivisionBounds(b.Floor, window);
    assert b.Floor < a.Floor + window;
  }

  /** Keys, counts and expiries of all windows seen so far. */
  ghost predicate CountersOk(counters: Counters, window: nat, calls: seq<Call>)
    requires window >= 1
  {
    && (forall client, w :: (client, w) in counters <==> Total(calls, window, client, w) > 0)
    && (forall client, w | (client, w) in counters :: counters[(client, w)].count == Total(calls, window, client, w))
    && (forall client, w, t: real | (client, w) in counters && WindowOf(t, window) == w :: counters[(client, w)].expiresAt > t)
  }

  lemma HitKeepsCounters(counters: Counters, window: nat, calls: seq<Call>, call: Call)
    requires window >= 1 && CountersOk(counters, window, calls)
    ensures CountersOk(Hit(counters, window, call).0, window, calls + [call])
    ensures Hit(counters, window, call).1 == Total(calls + [call], window, call.client, WindowOf(call.time, window))
  {
    var now := WindowOf(call.time, window);
    var counters' := Hit(counters, window, call).0;
    assert (calls + [call])[..|calls|] == calls;
    forall client, w, t: real | (client, w) in counters' && WindowOf(t, window) == w
      ensures counters'[(client, w)].expiresAt > t
    {
      if (client, w) == (call.client, now) {
        SameWindowIsClose(call.time, t, window);
      }
    }
  }

  lemma {:induction false} CountersStayOk(window: nat, limit: nat, calls: seq<Call>)
    requires window >= 1
    ensures CountersOk(Run(window, limit, calls).0, window, calls)
  {
    if calls != [] {
      var n := |calls| - 1;
      CountersStayOk(window, limit, calls[..n]);
      HitKeepsCounters(Run(window, limit, calls[..n]).0, window, calls[..n], calls[n]);
      assert calls[..n] + [calls[n]] == calls;
    }
  }

  /** A counter lives for window + 1 seconds from a request that it counts. */
  ghost predicate ExpiresAfter(counters: Counters, window: nat, calls: seq<Call>, client: string, w: int)
    requires window >= 1
  {
    (client, w) in counters ==>
      exists i | 0 <= i < |calls| ::
        && calls[i].client == client && WindowOf(calls[i].time, window) == w
        && counters[(client, w)].expiresAt == calls[i].time + window as real + 1.0
  }

  lemma {:induction false} CountersExpire(window: nat, limit: nat, calls: seq<Call>, client: string, w: int)
    requires window >= 1
    ensures ExpiresAfter(Run(window, limit, calls).0, window, calls, client, w)
  {
    if calls != [] {
      var n := |calls| - 1;
      CountersExpire(window, limit, calls[..n], client, w);
      var before, after := Run(window, limit, calls[..n]).0, Run(window, limit, calls).0;
      if (client, w) in after {
        if (client, w) in before && after[(client, w)].expiresAt == before[(client, w)].expiresAt {
          var i :| && 0 <= i < n && calls[..n][i].client == client && WindowOf(calls[..n][i].time, window) == w
                   && before[(client, w)].expiresAt == calls[..n][i].time + window as real + 1.0;
          assert calls[i] == calls[..n][i];
        } else {
          assert calls[n].client == client && WindowOf(calls[n].time, window) == w;
        }
      }
    }
  }

  /** A request is refused exactly when the client has already made `limit` requests in the
      same clock window: the time-to-live of window + 1 never resets a counter early. */
  lemma RefusedExactlyBeyondLimit(window: nat, limit: nat, calls: seq<Call>)
    requires window >= 1 && calls != []
    ensures var last := calls[|calls| - 1];
            Run(window, limit, calls).1[|calls| - 1] <==> Total(calls, window, last.client, WindowOf(last.time, window)) > limit
  {
    var n := |calls| - 1;
    CountersStayOk(window, limit, calls[..n]);
    HitKeepsCounters(Run(window, limit, calls[..n]).0, window, calls[..n], calls[n]);
    assert calls[..n] + [calls[n]] == calls;
  }

  lemma {:induction false} AdmittedIsTotalUpToLimit(window: nat, limit: nat, calls: seq<Call>, client: string, w: int)
    requires window >= 1
    ensures Admitted(calls, Run(window, limit, calls).1, window, client, w) == Min(Total(calls, window, client, w), limit)
  {
    if calls != [] {
      var n := |calls| - 1;
      AdmittedIsTotalUpToLimit(window, limit, calls[..n], client, w);
      RefusedExactlyBeyondLimit(window, limit, calls);
      assert Run(window, limit, calls).1[..n] == Run(window, limit, calls[..n]).1;
    }
  }

  lemma SpanTouchesTwoWindows(s: real, t: real, window: nat)
    requires window >= 1 && t - window as real < s <= t
    ensures WindowOf(s, window) == WindowOf(t, window) || WindowOf(s, window) == WindowOf(t, window) - 1
  {
    DivisionBounds(s.Floor, window);
    DivisionBounds(t.Floor, window);
    var a, b := WindowOf(s, window), WindowOf(t, window);
    assert t.Floor - window <= s.Floor <= t.Floor;
    MultiplesApart(a, b, s.Floor, t.Floor, window);
  }

  lemma MultiplesApart(a: int, b: int, m: int, n: int, window: nat)
    requires window >= 1 && a * window <= m < a * window + window && b * window <= n < b * window + window
    requires n - window <= m <= n
    ensures a == b || a == b - 1
  {
    ScaleMonotone(b + 1, a, window);
    ScaleMonotone(a + 2, b, window);
  }

  lemma ScaleMonotone(x: int, y: int, window: nat)
    ensures x <= y ==> x * window <= y * window
  {
  }

  lemma {:induction false} SpanIsCovered(calls: seq<Call>, refused: seq<bool>, window: nat, client: string, t: real)
    requires window >= 1 && |refused| == |calls|
    ensures AdmittedInSpan(calls, refused, window, client, t)
         <= Admitted(calls, refused, window, client, WindowOf(t, window))
            + Admitted(calls, refused, window, client, WindowOf(t, window) - 1)
  {
    if calls != [] {
      var n := |calls| - 1;
      SpanIsCovered(calls[..n], refused[..n], window, client, t);
      if t - window as real < calls[n].time <= t {
        SpanTouchesTwoWindows(calls[n].time, t, window);
      }
    }
  }

  /** Whatever the traffic, a span of one window admits at most twice the limit. */
  lemma AtMostTwiceTheLimit(window: nat, limit: nat, calls: seq<Call>, client: string, t: real)
    requires window >= 1
    ensures AdmittedInSpan(calls, Run(window, limit, calls).1, window, client, t) <= 2 * limit
  {
    SpanIsCovered(calls, Run(window, limit, calls).1, window, client, t);
    AdmittedIsTotalUpToLimit(window, limit, calls, client, WindowOf(t, window));
    AdmittedIsTotalUpToLimit(window, limit, calls, client, WindowOf(t, window) - 1);
  }

  /** The bound is reached: two calls a moment apart across a window border, with limit 1. */
  lemma TwiceTheLimitHappens()
    ensures AdmittedInSpan([Call("c", 9.5), Call("c", 10.5)], Run(10, 1, [Call("c", 9.5), Call("c", 10.5)]).1, 10, "c", 10.5) == 2
  {
    var calls := [Call("c", 9.5), Call("c", 10.5)];
    assert calls[..1] == [Call("c", 9.5)] && calls[..1][..0] == [];
    assert WindowOf(9.5, 10) == 0 && WindowOf(10.5, 10) == 1 by {
      assert (9.5).Floor == 9 && (10.5).Floor == 10;
    }
    assert Run(10, 1, calls[..1]).1 == [false];
    assert Run(10, 1, calls).1 == [false, false];
    assert [false, false][..1] == [false];
  }
}
