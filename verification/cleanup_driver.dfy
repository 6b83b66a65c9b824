/** The automatic retry task: run the cleanup, and while the event says RETRYING
    run it again after an exponentially growing, capped delay. */
module CleanupDriver {
  import opened Basics
  import opened Transactions
  import opened Protocol
  import opened CleanupInvariants
  import opened CleanupInterference
  import opened CleanupWorker

  lemma {:induction false} Pow2Grows(a: nat, b: nat)
    requires a <= b
    ensures 1 <= Pow2(a) <= Pow2(b)
  {
    if a < b {
      Pow2Grows(a, b - 1);
    } else if a > 0 {
      Pow2Grows(a - 1, a - 1);
    }
  }

  lemma ScaleGrows(base: nat, x: nat, y: nat)
    requires x <= y
    ensures base * x <= base * y
  {
  }

  /** Delays never shrink, and stay between the smaller of base and cap, and the cap. */
  lemma DelaysGrowWithinBounds(settings: Settings, a: nat, b: nat)
    requires 1 <= a <= b
    ensures Min(settings.retryBase, settings.retryCap) <= RetryDelay(settings, a) <= RetryDelay(settings, b) <= settings.retryCap
  {
    Pow2Grows(a - 1, b - 1);
    ScaleGrows(settings.retryBase, 1, Pow2(a - 1));
    ScaleGrows(settings.retryBase, Pow2(a - 1), Pow2(b - 1));
  }

  function Sum(xs: seq<nat>): nat {
    if xs == [] then 0 else Sum(xs[..|xs| - 1]) + xs[|xs| - 1]
  }

  /** The waits of a chain that starts with `attempts` attempts already made. */
  ghost predicate IsChain(settings: Settings, attempts: nat, delays: seq<nat>) {
    forall k | 0 <= k < |delays| :: delays[k] == RetryDelay(settings, attempts + k + 1)
  }

  lemma Distribute(base: nat, x: nat, y: nat)
    ensures base * x + base * y == base * (x + y)
  {
  }

  /** A fresh chain waits at most n caps, and at most the geometric series without a cap. */
  lemma {:induction false} TotalDelayIsBounded(settings: Settings, delays: seq<nat>)
    requires IsChain(settings, 0, delays)
    ensures Sum(delays) <= |delays| * settings.retryCap
    ensures Sum(delays) <= settings.retryBase * (Pow2(|delays|) - 1)
  {
    if delays != [] {
      var n := |delays| - 1;
      TotalDelayIsBounded(settings, delays[..n]);
      Pow2Grows(0, n);
      Distribute(settings.retryBase, Pow2(n) - 1, Pow2(n));
      Distribute(settings.retryCap, n, 1);
      assert delays[n] == RetryDelay(settings, n + 1);
    }
  }

  /** Each delay is twice the one before, up to the cap. */
  ghost predicate Doubles(settings: Settings, delays: seq<nat>) {
    forall k | 0 <= k < |delays| - 1 :: delays[k + 1] == Min(settings.retryCap, 2 * delays[k])
  }

  lemma Regroup(base: nat, x: nat)
    ensures base * (2 * x) == 2 * (base * x)
  {
  }

  lemma ChainDoubles(settings: Settings, attempts: nat, delays: seq<nat>)
    requires IsChain(settings, attempts, delays)
    ensures Doubles(settings, delays)
    ensures attempts == 0 && delays != [] ==> delays[0] == Min(settings.retryBase, settings.retryCap)
  {
    forall k | 0 <= k < |delays| - 1
      ensures delays[k + 1] == Min(settings.retryCap, 2 * delays[k])
    {
      assert delays[k] == RetryDelay(settings, attempts + k + 1);
      assert delays[k + 1] == RetryDelay(settings, attempts + (k + 1) + 1);
      Regroup(settings.retryBase, Pow2(attempts + k));
    }
    assert attempts == 0 && delays != [] ==> delays[0] == RetryDelay(settings, 1) && Pow2(0) == 1;
  }

  /** The delays of a fresh chain, told by their first one and the doubling alone, add up to base times (2^n - 1)
      exactly when the cap was never reached. */
  lemma {:induction false} TotalIsGeometricIff(settings: Settings, delays: seq<nat>)
    requires Doubles(settings, delays) && (delays != [] ==> delays[0] == Min(settings.retryBase, settings.retryCap))
    ensures Sum(delays) <= settings.retryBase * (Pow2(|delays|) - 1)
    ensures Sum(delays) == settings.retryBase * (Pow2(|delays|) - 1)
       <==> forall k | 0 <= k < |delays| :: settings.retryBase * Pow2(k) <= settings.retryCap
    ensures forall k | 0 <= k < |delays| :: delays[k] == Min(settings.retryCap, settings.retryBase * Pow2(k))
  {
    if delays != [] {
      var n := |delays| - 1;
      TotalIsGeometricIff(settings, delays[..n]);
      Pow2Grows(0, n);
      Distribute(settings.retryBase, Pow2(n) - 1, Pow2(n));
      if n > 0 {
        assert delays[..n][n - 1] == Min(settings.retryCap, settings.retryBase * Pow2(n - 1));
        assert delays[n - 1 + 1] == Min(settings.retryCap, 2 * delays[n - 1]);
        Regroup(settings.retryBase, Pow2(n - 1));
      }
      assert delays[n] == Min(settings.retryCap, settings.retryBase * Pow2(n));
      assert forall k | 0 <= k < n :: delays[k] == delays[..n][k];
    }
  }

  /** The index of `World.others` between the failure report and the job's look at the event, and of the countdown. */
  const BEFORE_LOOK := 18
  const COUNTDOWN := 19

  /** A user resets the failed event before the job looks at it again. */
  ghost predicate TakenOver(world: World, e: Id, tenant: Id) {
    RetriedBy(world.others(BEFORE_LOOK), e, tenant)
  }

  /** The stage at which a run that found the event as `row` fails, or 4. */
  function FailingStage(row: Event, world: World): (k: nat)
    ensures k <= 4
  {
    FirstFailure(world, row.completed, 0)
  }

  /** A stage fails, and the report that says so is committed. */
  predicate Reports(row: Event, world: World) {
    Acquires(world) && world.contextLoads && FailingStage(row, world) < 4 && world.reportCommits
  }

  /** The audit record of that failure is written, so that the job gets the cleanup error. */
  predicate FailureIsRaised(row: Event, world: World) {
    Reports(row, world) && world.failureAuditWorks(CLEANUP_STAGES[FailingStage(row, world)])
  }

  /** The report leaves the event in RETRYING. */
  predicate Retryable(row: Event, world: World) {
    Reports(row, world) && row.attempts + 1 < row.maxAttempts
  }

  /** The job asks for another execution. */
  ghost predicate AsksAgain(row: Event, e: Id, tenant: Id, world: World) {
    Retryable(row, world) && FailureIsRaised(row, world) && world.readBackWorks && !TakenOver(world, e, tenant)
  }

  /** The event is left in RETRYING and nobody will come back to it: the look or the acquisition raised; or the
      report was committed with attempts left, and then its audit record or the job's look at the event raised, or
      the queue allows no further retry. */
  ghost predicate Abandons(row: Event, e: Id, tenant: Id, world: World, allowed: bool) {
    if !world.lookWorks then row.status == Retrying
    else if !world.acquireCommits then row.status == Retrying && !RetriedBy(world.others(BEFORE_ACQUIRE), e, tenant)
    else Retryable(row, world)
         && (!FailureIsRaised(row, world) || (!TakenOver(world, e, tenant) && (!world.readBackWorks || !allowed)))
  }

  datatype Fate = RunsAgain | Abandoned | Settled

  /** `allowed` says whether the queue accepts one more retry. */
  ghost function FateOf(row: Event, e: Id, tenant: Id, world: World, allowed: bool): Fate {
    if AsksAgain(row, e, tenant, world) && allowed then RunsAgain
    else if Abandons(row, e, tenant, world, allowed) then Abandoned
    else Settled
  }

  /** The status after one execution of the job, in every world. */
  ghost function StatusAfter(row: Event, e: Id, tenant: Id, world: World): EventStatus {
    var k := FailingStage(row, world);
    if !Acquires(world) then
      if world.lookWorks && RetriedBy(world.others(BEFORE_ACQUIRE), e, tenant) then Pending else row.status
    else if !world.contextLoads then Processing
    else if k == 4 then AllRecorded(row.completed)
    else if !world.reportCommits then if LastCommitted(world, k) then Completed else Processing
    else if FailureIsRaised(row, world) && TakenOver(world, e, tenant) then Pending
    else if Retryable(row, world) then Retrying
    else DeadLetter
  }

  /** Everything the job and its worker do works, except that handlers, stage commits and the audit records of
      all successes but the last may fail. */
  ghost predicate Fair(world: World) {
    && Acquires(world) && world.contextLoads && world.reportCommits && world.readBackWorks
    && world.auditWorks(SqlMetadata) && forall stage :: world.failureAuditWorks(stage)
  }

  /** A waiting event is left in RETRYING without a further execution exactly in these cases. */
  lemma AbandonedIff(row: Event, e: Id, tenant: Id, world: World, allowed: bool)
    requires row.status in {Pending, Retrying}
    ensures StatusAfter(row, e, tenant, world) == Retrying && !(AsksAgain(row, e, tenant, world) && allowed)
       <==> Abandons(row, e, tenant, world, allowed)
  {
  }

  lemma {:induction false} FailureAt(world: World, snapshot: seq<Stage>, i: nat)
    requires i <= 4
    ensures var k := FirstFailure(world, snapshot, i); k < 4 ==> StageFails(world, k) && CLEANUP_STAGES[k] !in snapshot
    decreases 4 - i
  {
    if i < 4 {
      FailureAt(world, snapshot, i + 1);
    }
  }

  /** An execution that nothing but failing stages disturbs either asks for another one, with a stage left to do,
      or ends in COMPLETED or DEAD_LETTER, or with the event handed back to PENDING by a user who reset it before
      the job looked. */
  lemma FairEnds(row: Event, e: Id, tenant: Id, world: World)
    requires Fair(world) && |row.completed| < 4
    ensures AsksAgain(row, e, tenant, world) ==> !LastCommitted(world, FailingStage(row, world))
    ensures !AsksAgain(row, e, tenant, world) ==>
      && StatusAfter(row, e, tenant, world) in {Completed, DeadLetter, Pending}
      && (StatusAfter(row, e, tenant, world) == Pending ==> TakenOver(world, e, tenant))
  {
    FailureAt(world, row.completed, 0);
  }

  /** What one execution of the job makes of the row it found. */
  ghost predicate TaskEnds(row: Event, after: Event, settings: Settings, e: Id, tenant: Id, world: World,
                           again: bool, countdown: nat, stored: int) {
    && after.status == StatusAfter(row, e, tenant, world)
    && (again <==> AsksAgain(row, e, tenant, world))
    && (again ==>
          && after.attempts == row.attempts + 1 && after.maxAttempts == row.maxAttempts
          && (|after.completed| == 4 <==> LastCommitted(world, FailingStage(row, world)))
          && stored == countdown == RetryDelay(settings, after.attempts))
  }

  /** The job gives up at once on every exception but the cleanup error. */
  lemma EndsAtOnce(before: Db, after: Db, settings: Settings, e: Id, tenant: Id, world: World, outcome: Outcome)
    requires Resumable(before, e, tenant) && e in after.events
    requires RunEnds(before, after, settings, e, tenant, world, outcome) && !outcome.StageFailed?
    ensures TaskEnds(before.events[e], after.events[e], settings, e, tenant, world, false, 0, 0)
  {
  }

  /** The job gets the cleanup error exactly when a stage failed, was reported and the report audited. */
  lemma RaisedIff(before: Db, after: Db, settings: Settings, e: Id, tenant: Id, world: World, outcome: Outcome)
    requires e in before.events && e in after.events
    requires RunEnds(before, after, settings, e, tenant, world, outcome)
    ensures outcome.StageFailed? <==> FailureIsRaised(before.events[e], world)
    ensures outcome.StageFailed? ==>
      && AfterFailure(after, settings, e, tenant, world, FailingStage(before.events[e], world))
      && after.events[e].attempts == before.events[e].attempts + 1
      && after.events[e].maxAttempts == before.events[e].maxAttempts
  {
  }

  lemma LookAfterFailure(s: State, steps: seq<Step>, w: Id, e: Id, tenant: Id)
    requires CleanupInvariant(s) && Alone(s, w, e) && Bystanders(steps, w, e) && EventVisible(s.db, e, tenant)
    ensures var after := Execute(s, steps);
            && CleanupInvariant(after) && Alone(after, w, e) && EventVisible(after.db, e, tenant)
            && after.db.events[e] == (if RetriedBy(steps, e, tenant) then Reset(s.db.events[e]) else s.db.events[e])
            && DocumentVisible(after.db, after.db.events[e].document, tenant)
  {
    BystanderRun(s, steps, w, e);
    ExecuteKeepsCleanup(s, steps);
    assert EventOk(Execute(s, steps).db, Execute(s, steps).db.events[e]);
  }

  /** One execution of the cleanup job: `again` says that it asks for another one. */
  method RunTask(cluster: Cluster, w: Id, eventId: Id, tenant: Id, world: World)
    returns (again: bool, countdown: nat, stored: int)
    requires CleanupInvariant(cluster.Now()) && WorkerAt(cluster.Now(), w) == Idle
    requires Fit(cluster.Now(), w, eventId, tenant) && Undisturbed(world, w, eventId)
    modifies cluster, cluster.store
    ensures CleanupInvariant(cluster.Now()) && WorkerAt(cluster.Now(), w) == Idle
    ensures eventId in cluster.store.events && (again ==> Fit(cluster.Now(), w, eventId, tenant))
    ensures TaskEnds(old(cluster.store.events[eventId]), cluster.store.events[eventId], cluster.store.settings,
                     eventId, tenant, world, again, countdown, stored)
  {
    assert forall k: nat, step | step in world.others(k) :: Bystanders(world.others(k), w, eventId);
    ghost var before := cluster.store.Rows();
    var outcome, trace := cluster.ProcessCleanupEvent(w, eventId, tenant, world);
    again, countdown, stored := false, 0, 0;
    if outcome.StageFailed? {
      RaisedIff(before, cluster.store.Rows(), cluster.store.settings, eventId, tenant, world, outcome);
      again, countdown, stored := AskAgain(cluster, w, eventId, tenant, world, before.events[eventId]);
    } else {
      EndsAtOnce(before, cluster.store.Rows(), cluster.store.settings, eventId, tenant, world, outcome);
    }
  }

  /** The cleanup error: read the event back, and compute the countdown when it says RETRYING. */
  method AskAgain(cluster: Cluster, w: Id, eventId: Id, tenant: Id, world: World, ghost row: Event)
    returns (again: bool, countdown: nat, stored: int)
    requires CleanupInvariant(cluster.Now()) && WorkerAt(cluster.Now(), w) == Idle
    requires Alone(cluster.Now(), w, eventId) && Undisturbed(world, w, eventId) && FailureIsRaised(row, world)
    requires AfterFailure(cluster.store.Rows(), cluster.store.settings, eventId, tenant, world, FailingStage(row, world))
    requires cluster.store.events[eventId].attempts == row.attempts + 1
    requires cluster.store.events[eventId].maxAttempts == row.maxAttempts
    modifies cluster, cluster.store
    ensures CleanupInvariant(cluster.Now()) && WorkerAt(cluster.Now(), w) == Idle
    ensures eventId in cluster.store.events && (again ==> Fit(cluster.Now(), w, eventId, tenant))
    ensures TaskEnds(row, cluster.store.events[eventId], cluster.store.settings,
                     eventId, tenant, world, again, countdown, stored)
  {
    LookAfterFailure(cluster.Now(), world.others(BEFORE_LOOK), w, eventId, tenant);
    cluster.Interfere(world.others(BEFORE_LOOK), w);
    again, countdown, stored := false, 0, 0;
    if world.readBackWorks && cluster.store.events[eventId].status == Retrying {
      var event, settings := cluster.store.events[eventId], cluster.store.settings;
      var exponent := if event.attempts >= 1 then event.attempts - 1 else 0;
      again, countdown := true, Min(settings.retryCap, settings.retryBase * Pow2(exponent));
      stored := event.nextRetryAt.value - world.now;
    }
  }

  lemma AttemptsLeft(s: State, e: Id, tenant: Id)
    requires CleanupInvariant(s) && Resumable(s.db, e, tenant)
    ensures s.db.events[e].attempts < s.db.events[e].maxAttempts && |s.db.events[e].completed| <= 4
  {
    assert EventOk(s.db, s.db.events[e]);
  }

  /** What the countdown leaves alone. */
  predicate SameProgress(row: Event, after: Event) {
    after.attempts == row.attempts && after.maxAttempts == row.maxAttempts && after.completed == row.completed
  }

  /** The countdown: everybody else goes on, and the event still waits with the attempts it had. */
  method Wait(cluster: Cluster, w: Id, eventId: Id, tenant: Id, world: World)
    requires CleanupInvariant(cluster.Now()) && WorkerAt(cluster.Now(), w) == Idle
    requires Fit(cluster.Now(), w, eventId, tenant) && Undisturbed(world, w, eventId)
    modifies cluster, cluster.store
    ensures CleanupInvariant(cluster.Now()) && WorkerAt(cluster.Now(), w) == Idle
    ensures Fit(cluster.Now(), w, eventId, tenant)
    ensures SameProgress(old(cluster.store.events[eventId]), cluster.store.events[eventId])
  {
    LookAfterFailure(cluster.Now(), world.others(COUNTDOWN), w, eventId, tenant);
    cluster.Interfere(world.others(COUNTDOWN), w);
  }

  /** The row with which the next execution starts. */
  ghost predicate GoesOn(row: Event, after: Event, settings: Settings, world: World, countdown: nat, stored: int) {
    && after.attempts == row.attempts + 1 && after.maxAttempts == row.maxAttempts
    && (Fair(world) && |row.completed| < 4 ==> |after.completed| < 4)
    && stored == countdown == RetryDelay(settings, after.attempts)
  }

  /** The last execution of a chain, which found the event as `row`. */
  ghost predicate LastRun(row: Event, after: Event, e: Id, tenant: Id, world: World, allowed: bool) {
    && row.status in {Pending, Retrying} && after.status == StatusAfter(row, e, tenant, world)
    && FateOf(row, e, tenant, world, allowed) == if after.status == Retrying then Abandoned else Settled
  }

  /** The end of a chain that nothing but failing stages has disturbed. */
  ghost predicate Ended(after: Event, e: Id, tenant: Id, world: World) {
    after.status in {Completed, DeadLetter} || (after.status == Pending && TakenOver(world, e, tenant))
  }

  /** One execution and, when the job asks for another one and the queue allows it, the countdown before it. */
  method RunThenWait(cluster: Cluster, w: Id, eventId: Id, tenant: Id, world: World, allowed: bool)
    returns (again: bool, countdown: nat, stored: int)
    requires CleanupInvariant(cluster.Now()) && WorkerAt(cluster.Now(), w) == Idle
    requires Fit(cluster.Now(), w, eventId, tenant) && Undisturbed(world, w, eventId)
    modifies cluster, cluster.store
    ensures old(cluster.store.events[eventId].attempts) < old(cluster.store.events[eventId].maxAttempts)
    ensures eventId in cluster.store.events && (again ==> allowed)
    ensures var row, after := old(cluster.store.events[eventId]), cluster.store.events[eventId];
      if again then
        && CleanupInvariant(cluster.Now()) && WorkerAt(cluster.Now(), w) == Idle && Fit(cluster.Now(), w, eventId, tenant)
        && GoesOn(row, after, cluster.store.settings, world, countdown, stored)
      else LastRun(row, after, eventId, tenant, world, allowed)
  {
    ghost var row := cluster.store.events[eventId];
    AttemptsLeft(cluster.Now(), eventId, tenant);
    AbandonedIff(row, eventId, tenant, world, allowed);
    if Fair(world) && |row.completed| < 4 {
      FairEnds(row, eventId, tenant, world);
    }
    again, countdown, stored := RunTask(cluster, w, eventId, tenant, world);
    again := again && allowed;
    if again {
      Wait(cluster, w, eventId, tenant, world);
      AttemptsLeft(cluster.Now(), eventId, tenant);
    }
  }

  /** A chain from run number `first` on, with `limit` retries allowed by the queue: `rows` holds the event as each
      execution found it. */
  ghost predicate IsHistory(rows: seq<Event>, after: Event, settings: Settings, e: Id, tenant: Id,
                            worlds: nat -> World, first: nat, limit: nat, delays: seq<nat>, stored: seq<int>) {
    && |rows| >= 1 && |delays| == |rows| - 1 && |stored| == |rows| - 1 && (|rows| > 1 ==> first + |rows| - 1 <= limit)
    && (forall k | 0 <= k < |rows| :: rows[k].attempts < rows[k].maxAttempts)
    && (forall k | 0 <= k < |rows| - 1 ::
          GoesOn(rows[k], rows[k + 1], settings, worlds(first + k), delays[k], stored[k]))
    && LastRun(rows[|rows| - 1], after, e, tenant, worlds(first + |rows| - 1), first + |rows| - 1 < limit)
  }

  lemma EarlierRun(row: Event, rows: seq<Event>, after: Event, settings: Settings, e: Id, tenant: Id,
                   worlds: nat -> World, first: nat, limit: nat, countdown: nat, wait: int, delays: seq<nat>, stored: seq<int>)
    requires IsHistory(rows, after, settings, e, tenant, worlds, first + 1, limit, delays, stored)
    requires first < limit && row.attempts < row.maxAttempts && GoesOn(row, rows[0], settings, worlds(first), countdown, wait)
    ensures IsHistory([row] + rows, after, settings, e, tenant, worlds, first, limit, [countdown] + delays,
                      [wait] + stored)
  {
    forall k | 0 <= k < |rows|
      ensures GoesOn(([row] + rows)[k], ([row] + rows)[k + 1], settings, worlds(first + k),
                     ([countdown] + delays)[k], ([wait] + stored)[k])
    {
      if k > 0 {
        assert GoesOn(rows[k - 1], rows[k], settings, worlds(first + 1 + (k - 1)), delays[k - 1], stored[k - 1]);
      }
    }
  }

  /** Attempts are counted up by one, and with nothing failing but stages, a stage is left to do each time. */
  lemma {:induction false} HistoryCounts(rows: seq<Event>, after: Event, settings: Settings, e: Id, tenant: Id,
                                         worlds: nat -> World, first: nat, limit: nat, delays: seq<nat>, stored: seq<int>, k: nat)
    requires IsHistory(rows, after, settings, e, tenant, worlds, first, limit, delays, stored) && k < |rows|
    ensures rows[k].attempts == rows[0].attempts + k && rows[k].maxAttempts == rows[0].maxAttempts
    ensures AllFair(worlds) && |rows[0].completed| < 4 ==> |rows[k].completed| < 4
    decreases k
  {
    if k > 0 {
      HistoryCounts(rows, after, settings, e, tenant, worlds, first, limit, delays, stored, k - 1);
      assert GoesOn(rows[k - 1], rows[k], settings, worlds(first + (k - 1)), delays[k - 1], stored[k - 1]);
    }
  }

  /** So the countdowns are the stored delays of a chain, and the executions are bounded by the attempts left. */
  lemma HistoryIsChain(rows: seq<Event>, after: Event, settings: Settings, e: Id, tenant: Id,
                       worlds: nat -> World, first: nat, limit: nat, delays: seq<nat>, stored: seq<int>)
    requires IsHistory(rows, after, settings, e, tenant, worlds, first, limit, delays, stored)
    ensures stored == delays && IsChain(settings, rows[0].attempts, delays)
    ensures |rows| <= rows[0].maxAttempts - rows[0].attempts
  {
    forall k | 0 <= k < |delays|
      ensures stored[k] == delays[k] == RetryDelay(settings, rows[0].attempts + k + 1)
    {
      HistoryCounts(rows, after, settings, e, tenant, worlds, first, limit, delays, stored, k + 1);
      assert GoesOn(rows[k], rows[k + 1], settings, worlds(first + k), delays[k], stored[k]);
    }
    HistoryCounts(rows, after, settings, e, tenant, worlds, first, limit, delays, stored, |rows| - 1);
  }

  /** Ended, or the queue refused retry number `limit` + 1 although the event had attempts left. */
  ghost predicate EndsFairly(row: Event, after: Event, e: Id, tenant: Id, world: World, runs: nat, limit: nat) {
    || Ended(after, e, tenant, world)
    || (after.status == Retrying && runs == limit + 1 && row.attempts + 1 < row.maxAttempts)
  }

  ghost predicate AllFair(worlds: nat -> World) {
    forall k: nat :: Fair(worlds(k))
  }

  lemma OnlyRun(row: Event, after: Event, settings: Settings, e: Id, tenant: Id,
                worlds: nat -> World, first: nat, limit: nat)
    requires LastRun(row, after, e, tenant, worlds(first), first < limit) && row.attempts < row.maxAttempts
    ensures IsHistory([row], after, settings, e, tenant, worlds, first, limit, [], [])
  {
  }

  /** The executions of the job, from number `first` on: each retry is a new one. */
  method RunChain(cluster: Cluster, w: Id, eventId: Id, tenant: Id, worlds: nat -> World, first: nat, limit: nat)
    returns (delays: seq<nat>, stored: seq<int>, ghost rows: seq<Event>)
    requires CleanupInvariant(cluster.Now()) && WorkerAt(cluster.Now(), w) == Idle
    requires Fit(cluster.Now(), w, eventId, tenant)
    requires forall k: nat :: Undisturbed(worlds(k), w, eventId)
    modifies cluster, cluster.store
    ensures eventId in cluster.store.events && |rows| >= 1 && rows[0] == old(cluster.store.events[eventId])
    ensures IsHistory(rows, cluster.store.events[eventId], cluster.store.settings, eventId, tenant,
                      worlds, first, limit, delays, stored)
    decreases cluster.store.events[eventId].maxAttempts - cluster.store.events[eventId].attempts, 0
  {
    ghost var row := cluster.store.events[eventId];
    var again, countdown, wait := RunThenWait(cluster, w, eventId, tenant, worlds(first), first < limit);
    if again {
      delays, stored, rows := NextRun(cluster, w, eventId, tenant, worlds, first, limit, row, countdown, wait);
    } else {
      OnlyRun(row, cluster.store.events[eventId], cluster.store.settings, eventId, tenant, worlds, first, limit);
      delays, stored, rows := [], [], [row];
    }
  }

  /** The executions after number `first`, which found the event as `row`. */
  method NextRun(cluster: Cluster, w: Id, eventId: Id, tenant: Id, worlds: nat -> World, first: nat, limit: nat,
                 ghost row: Event, countdown: nat, wait: int)
    returns (delays: seq<nat>, stored: seq<int>, ghost rows: seq<Event>)
    requires CleanupInvariant(cluster.Now()) && WorkerAt(cluster.Now(), w) == Idle
    requires Fit(cluster.Now(), w, eventId, tenant)
    requires forall k: nat :: Undisturbed(worlds(k), w, eventId)
    requires first < limit && row.attempts < row.maxAttempts
    requires GoesOn(row, cluster.store.events[eventId], cluster.store.settings, worlds(first), countdown, wait)
    modifies cluster, cluster.store
    ensures eventId in cluster.store.events && |rows| >= 1 && rows[0] == row
    ensures IsHistory(rows, cluster.store.events[eventId], cluster.store.settings, eventId, tenant,
                      worlds, first, limit, delays, stored)
    decreases cluster.store.events[eventId].maxAttempts - cluster.store.events[eventId].attempts, 1
  {
    AttemptsLeft(cluster.Now(), eventId, tenant);
    delays, stored, rows := RunChain(cluster, w, eventId, tenant, worlds, first + 1, limit);
    EarlierRun(row, rows, cluster.store.events[eventId], cluster.store.settings, eventId, tenant,
               worlds, first, limit, countdown, wait, delays, stored);
    delays, stored, rows := [countdown] + delays, [wait] + stored, [row] + rows;
  }

  /** The whole chain, with one driver for the event and `limit` retries allowed by the queue: it ends within the
      attempts that are left, whatever fails, and every countdown is the delay stored in the event. The last
      execution, which found the event as `row`, leaves it in RETRYING only as `Abandons` says. When nothing fails
      but stages, the chain ends in COMPLETED, in DEAD_LETTER or with the event taken over by a user, unless the
      queue cuts it short: it never does when it allows as many retries as there are attempts after the first. */
  method DriveCleanup(cluster: Cluster, w: Id, eventId: Id, tenant: Id, worlds: nat -> World, limit: nat)
    returns (runs: nat, delays: seq<nat>, stored: seq<int>, ghost row: Event)
    requires CleanupInvariant(cluster.Now()) && WorkerAt(cluster.Now(), w) == Idle
    requires Fit(cluster.Now(), w, eventId, tenant)
    requires forall k: nat :: Undisturbed(worlds(k), w, eventId)
    modifies cluster, cluster.store
    ensures 1 <= runs <= old(cluster.store.events[eventId].maxAttempts - cluster.store.events[eventId].attempts)
    ensures runs <= limit + 1 && eventId in cluster.store.events
    ensures row.attempts == old(cluster.store.events[eventId].attempts) + runs - 1
    ensures row.maxAttempts == old(cluster.store.events[eventId].maxAttempts)
    ensures LastRun(row, cluster.store.events[eventId], eventId, tenant, worlds(runs - 1), runs - 1 < limit)
    ensures old(|cluster.store.events[eventId].completed|) < 4 && AllFair(worlds) ==>
      EndsFairly(row, cluster.store.events[eventId], eventId, tenant, worlds(runs - 1), runs, limit)
    ensures |delays| == runs - 1 && stored == delays
    ensures IsChain(cluster.store.settings, old(cluster.store.events[eventId].attempts), delays)
    ensures Doubles(cluster.store.settings, delays)
    ensures old(cluster.store.events[eventId].attempts) == 0 && delays != [] ==>
      delays[0] == Min(cluster.store.settings.retryBase, cluster.store.settings.retryCap)
  {
    ghost var rows;
    delays, stored, rows := RunChain(cluster, w, eventId, tenant, worlds, 0, limit);
    runs, row := |delays| + 1, rows[|rows| - 1];
    HistoryIsChain(rows, cluster.store.events[eventId], cluster.store.settings, eventId, tenant,
                   worlds, 0, limit, delays, stored);
    HistoryCounts(rows, cluster.store.events[eventId], cluster.store.settings, eventId, tenant,
                  worlds, 0, limit, delays, stored, |rows| - 1);
    ChainDoubles(cluster.store.settings, rows[0].attempts, delays);
    if Fair(worlds(runs - 1)) && |row.completed| < 4 {
      FairEnds(row, eventId, tenant, worlds(runs - 1));
    }
  }
}
