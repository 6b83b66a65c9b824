/** The process-local store of login transactions and browser sessions:
    a bounded dictionary that forgets expired entries whenever it is used. */
module SessionStore {
  import opened Basics
  import opened Wrappers

  const CAPACITY: nat := 10_000

  datatype Entry<+V> = Entry(expiresAt: real, value: V)

  type Memory<V> = map<string, Entry<V>>

  datatype Op<+V> =
    | PutOp(key: string, value: V, ttl: real)
    | GetOp(key: string)
    | ConsumeOp(key: string)
    | DeleteOp(key: string)

  datatype Answer<+V> = Done | Full | Found(value: V) | Absent

  /** The entries still alive at `now`. */
  function Live<V>(m: Memory<V>, now: real): Memory<V> {
    map k | k in m && m[k].expiresAt > now :: m[k]
  }

  function Lookup<V>(m: Memory<V>, key: string, now: real): Answer<V> {
    if key in m && m[key].expiresAt > now then Found(m[key].value) else Absent
  }

  /** The store as implemented: every call but a delete drops the expired entries first. */
  function PurgingStep<V>(m: Memory<V>, op: Op<V>, now: real): (Memory<V>, Answer<V>) {
    match op
    case PutOp(key, value, ttl) =>
      var purged := Live(m, now);
      if |purged| >= CAPACITY then (purged, Full) else (purged[key := Entry(now + ttl, value)], Done)
    case GetOp(key) => (Live(m, now), Lookup(m, key, now))
    case ConsumeOp(key) => (Live(m, now) - {key}, Lookup(m, key, now))
    case DeleteOp(key) => (m - {key}, Done)
  }

  /** The store as it should look from outside: entries are never dropped, they merely expire;
      a put is refused when the capacity is taken by live entries. */
  function ExpiringStep<V>(m: Memory<V>, op: Op<V>, now: real): (Memory<V>, Answer<V>) {
    match op
    case PutOp(key, value, ttl) =>
      if |Live(m, now)| >= CAPACITY then (m, Full) else (m[key := Entry(now + ttl, value)], Done)
    case GetOp(key) => (m, Lookup(m, key, now))
    case ConsumeOp(key) => (m - {key}, Lookup(m, key, now))
    case DeleteOp(key) => (m - {key}, Done)
  }

  datatype Call<+V> = Call(op: Op<V>, time: real)

  function PurgingRun<V>(m: Memory<V>, calls: seq<Call<V>>): (Memory<V>, seq<Answer<V>>) {
    if calls == [] then (m, [])
    else
      var (m', answers) := PurgingRun(m, calls[..|calls| - 1]);
      var last := calls[|calls| - 1];
      var (m'', answer) := PurgingStep(m', last.op, last.time);
      (m'', answers + [answer])
  }

  function ExpiringRun<V>(m: Memory<V>, calls: seq<Call<V>>): (Memory<V>, seq<Answer<V>>) {
    if calls == [] then (m, [])
    else
      var (m', answers) := ExpiringRun(m, calls[..|calls| - 1]);
      var last := calls[|calls| - 1];
      var (m'', answer) := ExpiringStep(m', last.op, last.time);
      (m'', answers + [answer])
  }

  ghost predicate ClockNeverGoesBack<V(!new)>(calls: seq<Call<V>>) {
    forall i, j | 0 <= i < j < |calls| :: calls[i].time <= calls[j].time
  }

  lemma LiveLater<V>(m: Memory<V>, now: real, later: real)
    requires now <= later
    ensures Live(Live(m, now), later) == Live(m, later)
  {
  }

  lemma LiveAfterPut<V>(m: Memory<V>, key: string, entry: Entry<V>, now: real)
    ensures Live(m[key := entry], now)
         == if entry.expiresAt > now then Live(m, now)[key := entry] else Live(m, now) - {key}
  {
  }

  lemma LiveAfterDelete<V>(m: Memory<V>, key: string, now: real)
    ensures Live(m - {key}, now) == Live(m, now) - {key}
  {
  }

  lemma LookupSeesLive<V>(m: Memory<V>, key: string, now: real)
    ensures Lookup(m, key, now) == if key in Live(m, now) then Found(Live(m, now)[key].value) else Absent
  {
  }

  lemma StepsAgree<V>(m: Memory<V>, full: Memory<V>, op: Op<V>, before: real, now: real)
    requires before <= now && Live(m, before) == Live(full, before)
    ensures PurgingStep(m, op, now).1 == ExpiringStep(full, op, now).1
    ensures Live(PurgingStep(m, op, now).0, now) == Live(ExpiringStep(full, op, now).0, now)
  {
    LiveLater(m, before, now);
    LiveLater(full, before, now);
    LiveLater(m, now, now);
    match op
    case PutOp(key, value, ttl) =>
      LiveAfterPut(Live(m, now), key, Entry(now + ttl, value), now);
      LiveAfterPut(full, key, Entry(now + ttl, value), now);
    case GetOp(key) =>
      LookupSeesLive(m, key, now);
      LookupSeesLive(full, key, now);
    case ConsumeOp(key) =>
      LookupSeesLive(m, key, now);
      LookupSeesLive(full, key, now);
      LiveAfterDelete(Live(m, now), key, now);
      LiveAfterDelete(full, key, now);
    case DeleteOp(key) =>
      LiveAfterDelete(m, key, now);
      LiveAfterDelete(full, key, now);
  }

  /** On every trace whose clock does not go back, dropping expired entries lazily cannot be told
      apart from keeping them for ever: every call gets the same answer. */
  lemma {:induction false} PurgingIsInvisible<V(!new)>(calls: seq<Call<V>>)
    requires ClockNeverGoesBack(calls)
    ensures PurgingRun<V>(map[], calls).1 == ExpiringRun<V>(map[], calls).1
    ensures calls != [] ==> var now := calls[|calls| - 1].time;
              Live(PurgingRun<V>(map[], calls).0, now) == Live(ExpiringRun<V>(map[], calls).0, now)
  {
    if calls != [] {
      var n := |calls| - 1;
      PurgingIsInvisible(calls[..n]);
      var now := calls[n].time;
      var before := if n > 0 then calls[n - 1].time else now;
      StepsAgree(PurgingRun<V>(map[], calls[..n]).0, ExpiringRun<V>(map[], calls[..n]).0, calls[n].op, before, now);
    }
  }

  // ------------------------------------------------ what a reader gets, and until when

  /** The call changes what is stored under the key. */
  predicate Touches<V>(call: Call<V>, answer: Answer<V>, key: string) {
    match call.op
    case PutOp(k, _, _) => k == key && answer == Done
    case GetOp(_) => false
    case ConsumeOp(k) => k == key
    case DeleteOp(k) => k == key
  }

  /** Call `j` stored this value until `expiry`, and no later call has touched the key. */
  ghost predicate LastWrite<V>(calls: seq<Call<V>>, answers: seq<Answer<V>>, j: nat, key: string, value: V, expiry: real) {
    && j < |calls| == |answers|
    && calls[j].op.PutOp? && calls[j].op.key == key && calls[j].op.value == value && answers[j] == Done
    && expiry == calls[j].time + calls[j].op.ttl
    && forall i | j < i < |calls| :: !Touches(calls[i], answers[i], key)
  }

  ghost predicate Written<V(!new)>(calls: seq<Call<V>>, answers: seq<Answer<V>>, key: string, value: V, expiry: real) {
    exists j: nat :: LastWrite(calls, answers, j, key, value, expiry)
  }

  lemma WrittenNext<V(!new)>(calls: seq<Call<V>>, answers: seq<Answer<V>>, last: Call<V>, answer: Answer<V>,
                             key: string, value: V, expiry: real)
    requires |answers| == |calls|
    ensures Written(calls + [last], answers + [answer], key, value, expiry) <==>
              if Touches(last, answer, key)
              then last.op.PutOp? && last.op.value == value && expiry == last.time + last.op.ttl
              else Written(calls, answers, key, value, expiry)
  {
    var n := |calls|;
    var calls', answers' := calls + [last], answers + [answer];
    if j: nat :| LastWrite(calls', answers', j, key, value, expiry) {
      if j < n {
        assert !Touches(calls'[n], answers'[n], key);
        forall i | j < i < n
          ensures !Touches(calls[i], answers[i], key)
        {
          assert !Touches(calls'[i], answers'[i], key);
        }
        assert LastWrite(calls, answers, j, key, value, expiry);
      }
    }
    if Touches(last, answer, key) && last.op.PutOp? && last.op.value == value && expiry == last.time + last.op.ttl {
      assert LastWrite(calls', answers', n, key, value, expiry);
    }
    if !Touches(last, answer, key) && Written(calls, answers, key, value, expiry) {
      var j: nat :| LastWrite(calls, answers, j, key, value, expiry);
      assert LastWrite(calls', answers', j, key, value, expiry);
    }
  }

  /** The store holds exactly what was written last. */
  lemma {:induction false} HoldsLastWrite<V(!new)>(calls: seq<Call<V>>, key: string, value: V, expiry: real)
    ensures |ExpiringRun<V>(map[], calls).1| == |calls|
    ensures var (m, answers) := ExpiringRun<V>(map[], calls);
            (key in m && m[key] == Entry(expiry, value)) <==> Written(calls, answers, key, value, expiry)
  {
    if calls != [] {
      var n := |calls| - 1;
      HoldsLastWrite(calls[..n], key, value, expiry);
      var (m, answers) := ExpiringRun<V>(map[], calls[..n]);
      var answer := ExpiringStep(m, calls[n].op, calls[n].time).1;
      WrittenNext(calls[..n], answers, calls[n], answer, key, value, expiry);
      assert calls == calls[..n] + [calls[n]];
    }
  }

  /** A read or a consumption finds a value exactly when the last call that touched the key stored it and its time
      is not over: until then nothing else makes it disappear, and a consumed value is never found again. */
  lemma FoundIff<V(!new)>(calls: seq<Call<V>>, op: Op<V>, now: real, value: V)
    requires op.GetOp? || op.ConsumeOp?
    requires ClockNeverGoesBack(calls + [Call(op, now)])
    ensures var answers := PurgingRun<V>(map[], calls + [Call(op, now)]).1;
            && |answers| == |calls| + 1
            && (answers[|calls|] == Found(value) <==>
                  exists expiry: real :: expiry > now && Written(calls, answers[..|calls|], op.key, value, expiry))
  {
    var all := calls + [Call(op, now)];
    PurgingIsInvisible(all);
    assert all[..|calls|] == calls;
    var (m, before) := ExpiringRun<V>(map[], calls);
    HoldsLastWrite(calls, op.key, value, now);
    assert ExpiringRun<V>(map[], all).1 == before + [Lookup(m, op.key, now)];
    assert (before + [Lookup(m, op.key, now)])[..|calls|] == before;
    if op.key in m && m[op.key].expiresAt > now && m[op.key].value == value {
      HoldsLastWrite(calls, op.key, value, m[op.key].expiresAt);
      assert m[op.key] == Entry(m[op.key].expiresAt, value);
    }
    if expiry: real :| expiry > now && Written(calls, before, op.key, value, expiry) {
      HoldsLastWrite(calls, op.key, value, expiry);
    }
  }

  /** A put is refused exactly when ten thousand entries are alive. */
  lemma FullIff<V>(m: Memory<V>, key: string, value: V, ttl: real, now: real)
    ensures PurgingStep(m, PutOp(key, value, ttl), now).1 == Full
       <==> |set k | k in m && m[k].expiresAt > now| >= 10_000
  {
    assert Live(m, now).Keys == set k | k in m && m[k].expiresAt > now;
    assert |Live(m, now)| == |Live(m, now).Keys|;
  }

  lemma SmallerDomain<V>(m: Memory<V>, m': Memory<V>)
    requires m'.Keys <= m.Keys
    ensures |m'| <= |m|
  {
    SubsetSize(m'.Keys, m.Keys);
    assert |m'| == |m'.Keys| && |m| == |m.Keys|;
  }

  lemma OneMoreKey<V>(m: Memory<V>, key: string, entry: Entry<V>)
    ensures |m[key := entry]| <= |m| + 1
  {
    var m' := m[key := entry];
    assert |m'| == |m'.Keys| && |m| == |m.Keys|;
    if key in m.Keys {
      assert m'.Keys == m.Keys;
    } else {
      assert m'.Keys == m.Keys + {key};
    }
  }

  lemma StepKeepsBound<V>(m: Memory<V>, op: Op<V>, now: real)
    requires |m| <= CAPACITY
    ensures |PurgingStep(m, op, now).0| <= CAPACITY
  {
    SmallerDomain(m, Live(m, now));
    match op
    case PutOp(key, value, ttl) => OneMoreKey(Live(m, now), key, Entry(now + ttl, value));
    case GetOp(key) =>
    case ConsumeOp(key) => SmallerDomain(m, Live(m, now) - {key});
    case DeleteOp(key) => SmallerDomain(m, m - {key});
  }

  lemma {:induction false} StoreIsBounded<V>(calls: seq<Call<V>>)
    ensures |PurgingRun<V>(map[], calls).0| <= CAPACITY
  {
    if calls != [] {
      var n := |calls| - 1;
      StoreIsBounded(calls[..n]);
      StepKeepsBound(PurgingRun<V>(map[], calls[..n]).0, calls[n].op, calls[n].time);
    }
  }

  /** The dictionary behind the lock; the clock is read by the caller. */
  class MemoryStore<V> {
    var memory: Memory<V>

    constructor ()
      ensures memory == map[]
    {
      memory := map[];
    }

    method PurgeMemory(now: real)
      modifies this
      ensures memory == Live(old(memory), now)
    {
      var pending := memory.Keys;
      while pending != {}
        invariant pending <= old(memory).Keys
        invariant forall k :: k in memory <==> k in old(memory) && (k in pending || old(memory)[k].expiresAt > now)
        invariant forall k | k in memory :: memory[k] == old(memory)[k]
        decreases pending
      {
        var k :| k in pending;
        if memory[k].expiresAt <= now {
          memory := memory - {k};
        }
        pending := pending - {k};
      }
    }

    method Put(key: string, value: V, ttl: real, now: real) returns (answer: Answer<V>)
      modifies this
      ensures (memory, answer) == PurgingStep(old(memory), PutOp(key, value, ttl), now)
    {
      PurgeMemory(now);
      if |memory| >= CAPACITY {
        return Full;
      }
      memory := memory[key := Entry(now + ttl, value)];
      answer := Done;
    }

    method Get(key: string, consume: bool, now: real) returns (answer: Answer<V>)
      modifies this
      ensures (memory, answer) == PurgingStep(old(memory), if consume then ConsumeOp(key) else GetOp(key), now)
    {
      PurgeMemory(now);
      var entry := if key in memory then Some(memory[key]) else None;
      if consume {
        memory := memory - {key};
      }
      if entry.None? || entry.value.expiresAt <= now {
        return Absent;
      }
      answer := Found(entry.value.value);
    }

    method Delete(key: string, now: real)
      modifies this
      ensures memory == PurgingStep(old(memory), DeleteOp(key), now).0
    {
      memory := memory - {key};
    }
  }
}
