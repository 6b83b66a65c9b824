/** The model gateway: one circuit breaker per model, and a fallback chain over
    the allowed models. */
module ModelGateway {
  import opened Basics
  import opened Wrappers

  datatype Circuit = Circuit(failures: nat, openedAt: Option<real>)

  datatype Breaker = Breaker(threshold: nat, reset: real)

  predicate Proper(breaker: Breaker) {
    breaker.threshold >= 1 && breaker.reset > 0.0
  }

  const CLOSED: Circuit := Circuit(0, None)

  type Circuits = map<string, Circuit>

  function At(circuits: Circuits, model: string): Circuit {
    if model in circuits then circuits[model] else CLOSED
  }

  /** Whether a call may go out, and the circuit afterwards: a circuit that has been open
      for the reset time starts afresh. */
  function Allow(circuit: Circuit, breaker: Breaker, now: real): (Circuit, bool) {
    if circuit.openedAt.None? then (circuit, true)
    else if now - circuit.openedAt.value >= breaker.reset then (CLOSED, true)
    else (circuit, false)
  }

  function Fail(circuit: Circuit, breaker: Breaker, now: real): Circuit {
    var failures := circuit.failures + 1;
    Circuit(failures, if failures >= breaker.threshold then Some(now) else circuit.openedAt)
  }

  // ------------------------------------------------- every reachable circuit

  datatype Event = Checked(now: real) | Succeeded | Failed(now: real)

  function React(circuit: Circuit, breaker: Breaker, event: Event): Circuit {
    match event
    case Checked(now) => Allow(circuit, breaker, now).0
    case Succeeded => CLOSED
    case Failed(now) => Fail(circuit, breaker, now)
  }

  function Reach(breaker: Breaker, events: seq<Event>): Circuit {
    if events == [] then CLOSED else React(Reach(breaker, events[..|events| - 1]), breaker, events[|events| - 1])
  }

  /** Whatever the order of checks, successes and failures, also of concurrent calls,
      a circuit is open exactly when its failures have reached the threshold. */
  lemma {:induction false} OpenIffThresholdReached(breaker: Breaker, events: seq<Event>)
    requires Proper(breaker)
    ensures Reach(breaker, events).openedAt.Some? <==> Reach(breaker, events).failures >= breaker.threshold
  {
    if events != [] {
      OpenIffThresholdReached(breaker, events[..|events| - 1]);
    }
  }

  /** When the last failure was recorded. */
  function LastFailure(events: seq<Event>): Option<real> {
    if events == [] then None
    else if events[|events| - 1].Failed? then Some(events[|events| - 1].now)
    else LastFailure(events[..|events| - 1])
  }

  lemma {:induction false} OpenedAtLastFailure(breaker: Breaker, events: seq<Event>)
    requires Proper(breaker)
    ensures Reach(breaker, events).openedAt.Some? ==> Reach(breaker, events).openedAt == LastFailure(events)
  {
    if events != [] {
      OpenedAtLastFailure(breaker, events[..|events| - 1]);
      OpenIffThresholdReached(breaker, events[..|events| - 1]);
    }
  }

  /** A call is refused exactly while the failures have reached the threshold and the last one is younger than
      the reset time. */
  lemma RefusedIff(breaker: Breaker, events: seq<Event>, now: real)
    requires Proper(breaker)
    ensures !Allow(Reach(breaker, events), breaker, now).1
       <==> && Reach(breaker, events).failures >= breaker.threshold
            && LastFailure(events).Some? && now < LastFailure(events).value + breaker.reset
  {
    OpenIffThresholdReached(breaker, events);
    OpenedAtLastFailure(breaker, events);
  }

  function Failures(times: seq<real>): seq<Event> {
    if times == [] then [] else Failures(times[..|times| - 1]) + [Failed(times[|times| - 1])]
  }

  lemma ReachNext(breaker: Breaker, events: seq<Event>, event: Event)
    ensures Reach(breaker, events + [event]) == React(Reach(breaker, events), breaker, event)
    ensures LastFailure(events + [event]) == if event.Failed? then Some(event.now) else LastFailure(events)
  {
    assert (events + [event])[..|events|] == events;
  }

  lemma {:induction false} FailuresAreCounted(breaker: Breaker, before: seq<Event>, times: seq<real>)
    ensures Reach(breaker, before + [Succeeded] + Failures(times)).failures == |times|
    ensures times != [] ==> LastFailure(before + [Succeeded] + Failures(times)) == Some(times[|times| - 1])
  {
    var start := before + [Succeeded];
    if times == [] {
      assert start + Failures(times) == start;
      ReachNext(breaker, before, Succeeded);
    } else {
      var front, last := times[..|times| - 1], times[|times| - 1];
      FailuresAreCounted(breaker, before, front);
      assert start + Failures(times) == start + Failures(front) + [Failed(last)];
      ReachNext(breaker, start + Failures(front), Failed(last));
    }
  }

  /** The life of a circuit from any success on: failures in a row are counted; calls go out until there are
      `threshold` of them, and again when the last one is `reset` old; that call finds the circuit as new. */
  lemma CircuitCycle(breaker: Breaker, before: seq<Event>, times: seq<real>, now: real)
    requires Proper(breaker) && times != []
    ensures var events := before + [Succeeded] + Failures(times);
            && (!Allow(Reach(breaker, events), breaker, now).1 <==>
                  |times| >= breaker.threshold && now < times[|times| - 1] + breaker.reset)
            && (|times| >= breaker.threshold && now >= times[|times| - 1] + breaker.reset ==>
                  Reach(breaker, events + [Checked(now)]) == CLOSED)
  {
    var events := before + [Succeeded] + Failures(times);
    FailuresAreCounted(breaker, before, times);
    RefusedIff(breaker, events, now);
    OpenIffThresholdReached(breaker, events);
    ReachNext(breaker, events, Checked(now));
  }

  // ------------------------------------------- sequential calls without success

  /** A call checked at `start` whose failure is recorded at `end`. */
  datatype Attempt = Attempt(start: real, end: real)

  ghost predicate Sequential(attempts: seq<Attempt>) {
    && (forall i | 0 <= i < |attempts| :: attempts[i].start <= attempts[i].end)
    && (forall i, j | 0 <= i < j < |attempts| :: attempts[i].end <= attempts[j].start)
  }

  /** The circuit and the times of the failures after calls that all fail if they go out. */
  function FailingRun(breaker: Breaker, attempts: seq<Attempt>): (Circuit, seq<real>) {
    if attempts == [] then (CLOSED, [])
    else
      var (circuit, failures) := FailingRun(breaker, attempts[..|attempts| - 1]);
      var last := attempts[|attempts| - 1];
      var (checked, allowed) := Allow(circuit, breaker, last.start);
      if allowed then (Fail(checked, breaker, last.end), failures + [last.end]) else (checked, failures)
  }

  ghost predicate Rising(times: seq<real>) {
    forall i, j | 0 <= i < j < |times| :: times[i] <= times[j]
  }

  /** Any `threshold` + 1 failures in a row span at least the reset time. */
  ghost predicate Spread(failures: seq<real>, breaker: Breaker) {
    forall i, j | 0 <= i && i + breaker.threshold == j < |failures| :: failures[i] + breaker.reset <= failures[j]
  }

  /** The current failures form the last group; it began a reset time after the group before ended. */
  ghost predicate GroupOk(circuit: Circuit, failures: seq<real>, breaker: Breaker) {
    var n, g := |failures|, circuit.failures;
    && g <= n && g <= breaker.threshold && (n > 0 ==> g > 0)
    && (circuit.openedAt.Some? <==> g == breaker.threshold)
    && (circuit.openedAt.Some? ==> n > 0 && circuit.openedAt.value == failures[n - 1])
    && (g < n ==> failures[n - g - 1] + breaker.reset <= failures[n - g])
  }

  /** The failure `threshold` places back is a reset time ago. */
  lemma OldEnough(circuit: Circuit, failures: seq<real>, breaker: Breaker, attempt: Attempt)
    requires Proper(breaker) && Rising(failures) && GroupOk(circuit, failures, breaker)
    requires attempt.start <= attempt.end && forall i | 0 <= i < |failures| :: failures[i] <= attempt.start
    requires Allow(circuit, breaker, attempt.start).1 && breaker.threshold <= |failures|
    ensures failures[|failures| - breaker.threshold] + breaker.reset <= attempt.end
  {
    var n, g, k := |failures|, circuit.failures, |failures| - breaker.threshold;
    if g == breaker.threshold {
      assert k < n - 1 ==> failures[k] <= failures[n - 1];
    } else {
      assert failures[n - g] <= attempt.start;
      assert k < n - g - 1 ==> failures[k] <= failures[n - g - 1];
    }
  }

  lemma AttemptKeepsSpread(circuit: Circuit, failures: seq<real>, breaker: Breaker, attempt: Attempt)
    requires Proper(breaker) && Rising(failures) && Spread(failures, breaker) && GroupOk(circuit, failures, breaker)
    requires attempt.start <= attempt.end && forall i | 0 <= i < |failures| :: failures[i] <= attempt.start
    requires Allow(circuit, breaker, attempt.start).1
    ensures Rising(failures + [attempt.end]) && Spread(failures + [attempt.end], breaker)
  {
    if breaker.threshold <= |failures| {
      OldEnough(circuit, failures, breaker, attempt);
    }
  }

  lemma AttemptKeepsGroup(circuit: Circuit, failures: seq<real>, breaker: Breaker, attempt: Attempt)
    requires Proper(breaker) && GroupOk(circuit, failures, breaker)
    requires attempt.start <= attempt.end && forall i | 0 <= i < |failures| :: failures[i] <= attempt.start
    requires Allow(circuit, breaker, attempt.start).1
    ensures GroupOk(Fail(Allow(circuit, breaker, attempt.start).0, breaker, attempt.end), failures + [attempt.end], breaker)
  {
  }

  /** What a run without success keeps, up to a time no failure is later than. */
  ghost predicate RunOk(circuit: Circuit, failures: seq<real>, breaker: Breaker, now: real) {
    && Rising(failures) && Spread(failures, breaker) && GroupOk(circuit, failures, breaker)
    && forall i | 0 <= i < |failures| :: failures[i] <= now
  }

  lemma AttemptKeepsRun(circuit: Circuit, failures: seq<real>, breaker: Breaker, attempt: Attempt)
    requires Proper(breaker) && RunOk(circuit, failures, breaker, attempt.start) && attempt.start <= attempt.end
    requires Allow(circuit, breaker, attempt.start).1
    ensures RunOk(Fail(Allow(circuit, breaker, attempt.start).0, breaker, attempt.end), failures + [attempt.end],
                  breaker, attempt.end)
  {
    AttemptKeepsSpread(circuit, failures, breaker, attempt);
    AttemptKeepsGroup(circuit, failures, breaker, attempt);
  }

  lemma {:induction false} FailingRunIsSpread(breaker: Breaker, attempts: seq<Attempt>)
    requires Proper(breaker) && Sequential(attempts)
    ensures RunOk(FailingRun(breaker, attempts).0, FailingRun(breaker, attempts).1, breaker,
                  if attempts == [] then 0.0 else attempts[|attempts| - 1].end)
  {
    if attempts != [] {
      var n := |attempts| - 1;
      FailingRunIsSpread(breaker, attempts[..n]);
      var (circuit, failures) := FailingRun(breaker, attempts[..n]);
      assert n > 0 ==> attempts[n - 1].end <= attempts[n].start;
      if Allow(circuit, breaker, attempts[n].start).1 {
        AttemptKeepsRun(circuit, failures, breaker, attempts[n]);
      }
    }
  }

  /** In a success-free run of sequential calls, a span shorter than the reset time never
      contains more than `threshold` failures of one model. */
  lemma FewFailuresPerReset(breaker: Breaker, attempts: seq<Attempt>, i: nat, j: nat)
    requires Proper(breaker) && Sequential(attempts)
    requires i <= j < |FailingRun(breaker, attempts).1|
    requires var failures := FailingRun(breaker, attempts).1; failures[j] - failures[i] < breaker.reset
    ensures j - i + 1 <= breaker.threshold
  {
    FailingRunIsSpread(breaker, attempts);
    var failures := FailingRun(breaker, attempts).1;
    if i + breaker.threshold < |failures| {
      assert failures[i] + breaker.reset <= failures[i + breaker.threshold];
    }
  }

  // --------------------------------------------------------- the gateway

  /** `dict.fromkeys`: the first occurrence of every name, in order. */
  function Dedupe(names: seq<string>): seq<string> {
    if names == [] then [] else PushNew(Dedupe(names[..|names| - 1]), names[|names| - 1])
  }

  lemma {:induction false} DedupeKeepsFirsts(names: seq<string>)
    ensures forall x :: x in Dedupe(names) <==> x in names
    ensures Distinct(Dedupe(names))
    ensures names != [] ==> Dedupe(names) != [] && Dedupe(names)[0] == names[0]
  {
    if names != [] {
      var front, last := names[..|names| - 1], names[|names| - 1];
      DedupeKeepsFirsts(front);
      assert names == front + [last];
    }
  }

  /** `x` is met before `y`. */
  ghost predicate MetBefore(names: seq<string>, x: string, y: string) {
    exists p | 0 <= p < |names| :: names[p] == x && y !in names[..p]
  }

  lemma {:induction false} DedupeKeepsOrder(names: seq<string>)
    ensures forall i, j | 0 <= i < j < |Dedupe(names)| :: MetBefore(names, Dedupe(names)[i], Dedupe(names)[j])
  {
    if names != [] {
      var n := |names| - 1;
      var front := names[..n];
      DedupeKeepsOrder(front);
      DedupeKeepsFirsts(front);
      forall i, j | 0 <= i < j < |Dedupe(names)|
        ensures MetBefore(names, Dedupe(names)[i], Dedupe(names)[j])
      {
        var x, y := Dedupe(names)[i], Dedupe(names)[j];
        assert x == Dedupe(front)[i] && x in front;
        if j < |Dedupe(front)| {
          assert MetBefore(front, x, y);
          var p :| 0 <= p < |front| && front[p] == x && y !in front[..p];
          assert names[p] == x && names[..p] == front[..p];
        } else {
          var p :| 0 <= p < |front| && front[p] == x;
          assert y !in front;
          assert names[p] == x && names[..p] == front[..p];
        }
      }
    }
  }

  datatype GatewayError = ModelNotAllowed | FallbackNotAllowed | AllUnavailable

  /** What the provider does when a model is called, and the clock readings around the call. */
  datatype Provider<!A> = Provider(answers: string -> Option<A>, checkedAt: string -> real, failedAt: string -> real)

  /** The models the circuits let through when each is consulted in turn. */
  predicate Admitted<A>(circuits: Circuits, breaker: Breaker, provider: Provider<A>, model: string) {
    Allow(At(circuits, model), breaker, provider.checkedAt(model)).1
  }

  predicate Works<A>(circuits: Circuits, breaker: Breaker, provider: Provider<A>, model: string) {
    Admitted(circuits, breaker, provider, model) && provider.answers(model).Some?
  }

  /** The circuit of a model after its turn in the loop. */
  function AfterTurn<A>(circuits: Circuits, breaker: Breaker, provider: Provider<A>, model: string): Circuit {
    var (checked, allowed) := Allow(At(circuits, model), breaker, provider.checkedAt(model));
    if !allowed then checked
    else if provider.answers(model).Some? then CLOSED
    else Fail(checked, breaker, provider.failedAt(model))
  }

  /** A turn depends on the model's own circuit only. */
  lemma SameTurn<A>(before: Circuits, now: Circuits, breaker: Breaker, provider: Provider<A>, model: string)
    requires At(now, model) == At(before, model)
    ensures Works(now, breaker, provider, model) == Works(before, breaker, provider, model)
    ensures AfterTurn(now, breaker, provider, model) == AfterTurn(before, breaker, provider, model)
  {
  }

  /** What happens to the circuit of a model in its turn. */
  function TurnEvents<A>(circuits: Circuits, breaker: Breaker, provider: Provider<A>, model: string): seq<Event> {
    [Checked(provider.checkedAt(model))]
    + if !Admitted(circuits, breaker, provider, model) then []
      else if provider.answers(model).Some? then [Succeeded]
      else [Failed(provider.failedAt(model))]
  }

  /** Circuits of a gateway go through events only: what holds of every reachable circuit holds of them. */
  lemma TurnsAreEvents<A>(circuits: Circuits, breaker: Breaker, provider: Provider<A>, model: string, events: seq<Event>)
    requires At(circuits, model) == Reach(breaker, events)
    ensures AfterTurn(circuits, breaker, provider, model)
         == Reach(breaker, events + TurnEvents(circuits, breaker, provider, model))
  {
    var check := Checked(provider.checkedAt(model));
    var turn := TurnEvents(circuits, breaker, provider, model);
    assert (events + [check])[..|events|] == events;
    if |turn| == 2 {
      assert events + turn == (events + [check]) + [turn[1]];
      assert ((events + [check]) + [turn[1]])[..|events| + 1] == events + [check];
    } else {
      assert turn == [check];
    }
  }

  /** A model that has just answered is let through at any later time, and all its failures are forgotten. */
  lemma AnsweringForgives<A>(circuits: Circuits, breaker: Breaker, provider: Provider<A>, model: string, later: real)
    requires Works(circuits, breaker, provider, model)
    ensures var circuit := AfterTurn(circuits, breaker, provider, model);
            circuit.failures == 0 && Allow(circuit, breaker, later) == (circuit, true)
  {
  }

  class Gateway {
    const models: seq<string>
    const breaker: Breaker
    var circuits: Circuits

    /** A gateway over names that have passed the allow list. */
    constructor (models: seq<string>, breaker: Breaker)
      requires Distinct(models)
      ensures this.models == models && this.breaker == breaker && circuits == map[]
    {
      this.models, this.breaker, circuits := models, breaker, map[];
    }

    method CircuitAllows(model: string, now: real) returns (allowed: bool)
      modifies this
      ensures (At(circuits, model), allowed) == Allow(At(old(circuits), model), breaker, now)
      ensures forall other | other != model :: At(circuits, other) == At(old(circuits), other)
    {
      if model !in circuits {
        circuits := circuits[model := Circuit(0, None)];
      }
      var state := circuits[model];
      if state.openedAt == None {
        return true;
      }
      if now - state.openedAt.value >= breaker.reset {
        circuits := circuits[model := state.(failures := 0, openedAt := None)];
        return true;
      }
      allowed := false;
    }

    method RecordSuccess(model: string)
      modifies this
      ensures At(circuits, model) == CLOSED
      ensures forall other | other != model :: At(circuits, other) == At(old(circuits), other)
    {
      circuits := circuits[model := Circuit(0, None)];
    }

    method RecordFailure(model: string, now: real)
      modifies this
      ensures At(circuits, model) == Fail(At(old(circuits), model), breaker, now)
      ensures forall other | other != model :: At(circuits, other) == At(old(circuits), other)
    {
      if model !in circuits {
        circuits := circuits[model := Circuit(0, None)];
      }
      circuits := circuits[model := circuits[model].(failures := circuits[model].failures + 1)];
      if circuits[model].failures >= breaker.threshold {
        circuits := circuits[model := circuits[model].(openedAt := Some(now))];
      }
    }

    /** One turn of the loop: skip the model, or call it and record how that went. */
    method Turn<A>(provider: Provider<A>, model: string) returns (answer: Option<A>)
      modifies this
      ensures answer == if Works(old(circuits), breaker, provider, model) then provider.answers(model) else None
      ensures At(circuits, model) == AfterTurn(old(circuits), breaker, provider, model)
      ensures forall other | other != model :: At(circuits, other) == At(old(circuits), other)
    {
      var allowed := CircuitAllows(model, provider.checkedAt(model));
      if !allowed {
        return None;
      }
      answer := provider.answers(model);
      if answer.Some? {
        RecordSuccess(model);
      } else {
        RecordFailure(model, provider.failedAt(model));
      }
    }

    /** The answer comes from the first model in order that its circuit admits and that answers;
        the call fails exactly when there is none. Models up to that one had their turn, later ones none. */
    method Invoke<A>(provider: Provider<A>) returns (r: Result<A, GatewayError>, ghost used: nat)
      requires Distinct(models)
      modifies this
      ensures used <= |models|
      ensures forall i | 0 <= i < used :: !Works(old(circuits), breaker, provider, models[i])
      ensures r.Success? ==> used < |models| && Works(old(circuits), breaker, provider, models[used])
                             && provider.answers(models[used]) == Some(r.value)
      ensures r.Failure? ==> used == |models| && r.error == AllUnavailable
      ensures forall i | 0 <= i < |models| :: At(circuits, models[i]) ==
                if i <= used then AfterTurn(old(circuits), breaker, provider, models[i]) else At(old(circuits), models[i])
      ensures forall other | other !in models :: At(circuits, other) == At(old(circuits), other)
    {
      used := 0;
      for i := 0 to |models|
        invariant used == i
        invariant forall k | 0 <= k < i :: !Works(old(circuits), breaker, provider, models[k])
        invariant forall k | 0 <= k < i :: At(circuits, models[k]) == AfterTurn(old(circuits), breaker, provider, models[k])
        invariant forall k | i <= k < |models| :: At(circuits, models[k]) == At(old(circuits), models[k])
        invariant forall other | other !in models :: At(circuits, other) == At(old(circuits), other)
      {
        SameTurn(old(circuits), circuits, breaker, provider, models[i]);
        var answer := Turn(provider, models[i]);
        if answer.Some? {
          return Success(answer.value), i;
        }
        used := i + 1;
      }
      r := Failure(AllUnavailable);
    }
  }

  /** The configured chain, or the reason it is refused: the fallbacks belong to the default model only. */
  function Chain(primary: string, defaultModel: string, fallbacks: seq<string>, allowed: set<string>)
    : Result<seq<string>, GatewayError>
  {
    if primary !in allowed then Failure(ModelNotAllowed)
    else
      var models := Dedupe([primary] + (if primary == defaultModel then fallbacks else []));
      if exists m | m in models :: m !in allowed then Failure(FallbackNotAllowed) else Success(models)
  }

  /** An accepted chain starts with the primary model, names only allowed models, each once,
      in the order configured, and forgets none of the configured ones. */
  lemma AcceptedChains(primary: string, defaultModel: string, fallbacks: seq<string>, allowed: set<string>)
    ensures var r := Chain(primary, defaultModel, fallbacks, allowed);
            var wanted := [primary] + (if primary == defaultModel then fallbacks else []);
            && (r.Success? <==> forall m | m in wanted :: m in allowed)
            && (r.Success? ==>
                  && r.value != [] && r.value[0] == primary
                  && (forall m :: m in r.value <==> m in wanted)
                  && Distinct(r.value)
                  && forall i, j | 0 <= i < j < |r.value| :: MetBefore(wanted, r.value[i], r.value[j]))
  {
    var wanted := [primary] + (if primary == defaultModel then fallbacks else []);
    DedupeKeepsFirsts(wanted);
    DedupeKeepsOrder(wanted);
    assert wanted[0] == primary && primary in wanted;
  }
}
