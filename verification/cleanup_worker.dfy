/** The stage loop of one worker, run against the mutable store while everybody else
    keeps working on it. Every call is shown to be a run of the protocol. */
module CleanupWorker {
  import opened Wrappers
  import opened Transactions
  import opened Protocol
  import opened CleanupInvariants
  import opened CleanupInterference
  import opened CleanupTheorems
  import opened MetadataStore

  /** Everything outside the worker's control: whether each read, handler, commit and audit write succeeds, and
      what the rest of the system does between two of its own moves. `auditWorks` is about the audit record of a
      success, `failureAuditWorks` about that of a failure, `readBackWorks` about the caller's look afterwards. */
  datatype World = World(
    lookWorks: bool, acquireCommits: bool, contextLoads: bool,
    handlerWorks: Stage -> bool, saveCommits: Stage -> bool, auditWorks: Stage -> bool,
    reportCommits: bool, failureAuditWorks: Stage -> bool, readBackWorks: bool,
    now: int, error: string, others: nat -> seq<Step>)

  datatype Outcome =
    | Missing                      // no such event or document
    | Untouched                    // another worker has it, or it needs no work
    | StageFailed(stage: Stage)    // the cleanup error raised to the caller
    | Escaped                      // any other exception
    | Finished

  /** The event is acquired. */
  predicate Acquires(world: World) {
    world.lookWorks && world.acquireCommits
  }

  /** The body of the `try` raises at stage number `i`. */
  predicate StageFails(world: World, i: nat)
    requires i < 4
  {
    var stage := CLEANUP_STAGES[i];
    (stage != SqlMetadata && !world.handlerWorks(stage)) || !world.saveCommits(stage) || !world.auditWorks(stage)
  }

  /** The first stage from number `i` on that is not skipped and fails, or 4. */
  function FirstFailure(world: World, snapshot: seq<Stage>, i: nat): (k: nat)
    requires i <= 4
    ensures i <= k <= 4
    decreases 4 - i
  {
    if i == 4 then 4
    else if CLEANUP_STAGES[i] !in snapshot && StageFails(world, i) then i
    else FirstFailure(world, snapshot, i + 1)
  }

  /** What the caller sees after a failed stage: the cleanup error is raised only after the report has been
      committed and its audit record written. */
  function Raised(world: World, stage: Stage): Outcome {
    if world.reportCommits && world.failureAuditWorks(stage) then StageFailed(stage) else Escaped
  }

  /** How the stage loop ends. */
  function LoopEnds(world: World, snapshot: seq<Stage>): Outcome {
    var k := FirstFailure(world, snapshot, 0);
    if k == 4 then Finished else Raised(world, CLEANUP_STAGES[k])
  }

  /** The indices of `World.others` between look and acquisition, and between acquisition and context. */
  const BEFORE_ACQUIRE := 16
  const BEFORE_CONTEXT := 17

  lemma {:induction false} ExecuteConcat(s: State, a: seq<Step>, b: seq<Step>)
    ensures Execute(s, a + b) == Execute(Execute(s, a), b)
  {
    if b == [] {
      assert a + b == a;
    } else {
      ExecuteConcat(s, a, b[..|b| - 1]);
      assert (a + b)[..|a + b| - 1] == a + b[..|b| - 1];
    }
  }

  lemma ExecuteOne(s: State, trace: seq<Step>, step: Step)
    ensures Execute(s, trace + [step]) == Next(Execute(s, trace), step)
  {
    assert (trace + [step])[..|trace|] == trace;
  }

  lemma {:induction false} ExecuteKeepsCleanup(s: State, steps: seq<Step>)
    requires CleanupInvariant(s)
    ensures CleanupInvariant(Execute(s, steps))
  {
    if steps != [] {
      ExecuteKeepsCleanup(s, steps[..|steps| - 1]);
      StepKeepsCleanup(Execute(s, steps[..|steps| - 1]), steps[|steps| - 1]);
    }
  }

  /** Nobody else turns to this event while the call runs; everything else may happen. */
  ghost predicate Undisturbed(world: World, w: Id, e: Id) {
    forall k: nat :: Bystanders(world.others(k), w, e)
  }

  /** With all stages recorded, the event is COMPLETED; one that was reopened before the worker acquired it stays
      in PROCESSING. */
  ghost predicate Expected(event: Event, snapshot: seq<Stage>) {
    |event.completed| == 4 ==> event.status == AllRecorded(snapshot)
  }

  function AllRecorded(snapshot: seq<Stage>): EventStatus {
    if |snapshot| == 4 then Processing else Completed
  }

  /** Worker `w` has event `e` to itself. */
  ghost predicate Guarded(s: State, w: Id, e: Id) {
    Holds(s, w, e) && Alone(s, w, e) && e in s.db.events && Expected(s.db.events[e], s.workers[w].snapshot)
  }

  /** The last commit went through, although its stage failed: only the audit record was missing. */
  predicate LastCommitted(world: World, i: nat) {
    i == 3 && world.saveCommits(SqlMetadata)
  }

  /** The row while stage `i` is failing. */
  ghost predicate FailingRow(event: Event, world: World, i: nat) {
    && (|event.completed| == 4 <==> LastCommitted(world, i))
    && (|event.completed| == 4 ==> event.status == Completed)
  }

  /** Worker `w` has the event to itself, and stage `i` has failed. */
  ghost predicate Doomed(s: State, w: Id, e: Id, world: World, i: nat) {
    Alone(s, w, e) && e in s.db.events && FailingRow(s.db.events[e], world, i)
  }

  predicate BothVisible(db: Db, e: Id, tenant: Id) {
    EventVisible(db, e, tenant) && DocumentVisible(db, db.events[e].document, tenant)
  }

  /** What the holder of an event finds in its row. */
  lemma HolderSees(s: State, w: Id, e: Id)
    requires CleanupInvariant(s) && Holds(s, w, e)
    ensures EventVisible(s.db, e, s.workers[w].tenant) && s.db.events[e].status in {Processing, Completed}
    ensures |s.db.events[e].completed| <= 4 && (s.db.events[e].status == Completed ==> |s.db.events[e].completed| == 4)
    ensures ProgressOk(s.db.events[e].completed, s.workers[w])
    ensures DocumentVisible(s.db, s.db.events[e].document, s.workers[w].tenant)
  {
    assert WorkerOk(s, s.workers[w]) && EventOk(s.db, s.db.events[e]);
  }

  /** An event that a driver can pick up: visible, waiting, and its document is there. */
  predicate Resumable(db: Db, e: Id, tenant: Id) {
    && EventVisible(db, e, tenant)
    && db.events[e].status in {Pending, Retrying}
    && DocumentVisible(db, db.events[e].document, tenant)
  }

  ghost predicate SameCounters(before: Db, after: Db, e: Id, tenant: Id) {
    EventVisible(before, e, tenant) ==>
      && EventVisible(after, e, tenant)
      && after.events[e].attempts == before.events[e].attempts
      && after.events[e].maxAttempts == before.events[e].maxAttempts
  }

  /** The row a failed run leaves behind, given the row it ran with. */
  ghost predicate GaveUp(before: Db, after: Db, settings: Settings, e: Id, tenant: Id, now: int) {
    EventVisible(before, e, tenant) ==>
      && SameCounters(before, after, e, tenant)
      && var event := after.events[e];
         if event.attempts >= event.maxAttempts then event.status == DeadLetter
         else event.status == Retrying && event.nextRetryAt == Some(now + RetryDelay(settings, event.attempts))
  }

  /** The row of an event that has just been picked up for one more attempt. */
  ghost predicate Picked(before: Db, after: Db, e: Id, tenant: Id)
    requires e in before.events
  {
    && EventVisible(after, e, tenant)
    && after.events[e].attempts == before.events[e].attempts + 1
    && after.events[e].maxAttempts == before.events[e].maxAttempts
    && after.events[e].completed == before.events[e].completed && after.events[e].status == Processing
  }

  /** The row of an event whose run ended in the `except` branch of stage `i`: reported as failed, or as it was
      when the report could not be committed. All stages are recorded exactly when only the last audit failed. */
  ghost predicate AfterFailure(after: Db, settings: Settings, e: Id, tenant: Id, world: World, i: nat) {
    && EventVisible(after, e, tenant)
    && (|after.events[e].completed| == 4 <==> LastCommitted(world, i))
    && (if world.reportCommits then GaveUp(after, after, settings, e, tenant, world.now)
        else after.events[e].status == if LastCommitted(world, i) then Completed else Processing)
  }

  /** The row after one turn of the loop. */
  ghost predicate StageLeaves(before: Db, after: Db, settings: Settings, e: Id, held: Worker, world: World, i: nat, ok: bool)
    requires held.Working?
  {
    && SameCounters(before, after, e, held.tenant)
    && if ok then e in after.events && Expected(after.events[e], held.snapshot)
       else AfterFailure(after, settings, e, held.tenant, world, i)
  }

  /** An event that is waiting and that nobody else has turned to. */
  ghost predicate Fit(s: State, w: Id, e: Id, tenant: Id) {
    Alone(s, w, e) && Resumable(s.db, e, tenant)
  }

  /** The row of a waiting event whose look or acquisition raised: a manual retry may have reset it in between. */
  ghost predicate NotAcquired(before: Db, after: Db, e: Id, tenant: Id, world: World)
    requires e in before.events && e in after.events
  {
    after.events[e] == if world.lookWorks && RetriedBy(world.others(BEFORE_ACQUIRE), e, tenant)
                       then Reset(before.events[e]) else before.events[e]
  }

  /** The row after the loop over the stages that are not in `snapshot`. */
  ghost predicate LoopLeaves(after: Db, settings: Settings, e: Id, tenant: Id, world: World, snapshot: seq<Stage>)
    requires e in after.events
  {
    var k := FirstFailure(world, snapshot, 0);
    if k == 4 then after.events[e].status == AllRecorded(snapshot)
    else AfterFailure(after, settings, e, tenant, world, k)
  }

  /** How an undisturbed run ends, in every world: not acquired; or with one more attempt, and in PROCESSING
      because the context did not load, or COMPLETED, or as the `except` branch leaves it. */
  ghost predicate RunEnds(before: Db, after: Db, settings: Settings, e: Id, tenant: Id, world: World, outcome: Outcome)
    requires e in before.events && e in after.events
  {
    if !Acquires(world) then outcome == Escaped && NotAcquired(before, after, e, tenant, world)
    else
      && after.events[e].attempts == before.events[e].attempts + 1
      && after.events[e].maxAttempts == before.events[e].maxAttempts
      && if !world.contextLoads then outcome == Escaped && after.events[e].status == Processing
         else outcome == LoopEnds(world, before.events[e].completed)
              && LoopLeaves(after, settings, e, tenant, world, before.events[e].completed)
  }

  /** What taking a waiting event comes to, undisturbed: a snapshot exactly when look, acquisition and context work. */
  ghost predicate Taken(before: Db, after: Db, e: Id, tenant: Id, world: World, outcome: Outcome, snapshot: Option<seq<Stage>>)
    requires e in before.events && e in after.events
  {
    && (if Acquires(world) then Picked(before, after, e, tenant) else NotAcquired(before, after, e, tenant, world))
    && if Acquires(world) && world.contextLoads then snapshot == Some(before.events[e].completed)
       else snapshot == None && outcome == Escaped
  }

  /** Waiting between look and acquisition: at most a manual retry moves the event from RETRYING to PENDING. */
  lemma StaysResumable(s: State, steps: seq<Step>, w: Id, e: Id, tenant: Id)
    requires CleanupInvariant(s) && Alone(s, w, e) && Bystanders(steps, w, e) && Resumable(s.db, e, tenant)
    ensures var after := Execute(Next(s, Look(w, e, tenant)), steps);
            && Alone(after, w, e) && Resumable(after.db, e, tenant)
            && after.db.events[e].attempts == s.db.events[e].attempts
            && after.db.events[e].maxAttempts == s.db.events[e].maxAttempts
            && after.db.events[e].completed == s.db.events[e].completed
            && after.db.events[e] == if RetriedBy(steps, e, tenant) then Reset(s.db.events[e]) else s.db.events[e]
  {
    var checked := Next(s, Look(w, e, tenant));
    OwnStepStaysAlone(s, Look(w, e, tenant), w, e);
    BystanderRun(checked, steps, w, e);
    StepKeepsCleanup(s, Look(w, e, tenant));
    ExecuteKeepsCleanup(checked, steps);
    var after := Execute(checked, steps);
    assert EventOk(after.db, after.db.events[e]);
  }

  lemma StartingResumable(db: Db, e: Id, tenant: Id)
    requires Resumable(db, e, tenant)
    ensures var tx := MarkStarted(db, e, tenant);
            tx.Commit? && tx.result.1 && Picked(db, tx.db, e, tenant)
  {
  }

  class Cluster {
    const store: Store
    var workers: map<Id, Worker>
    var succeeded: set<(Id, Stage)>

    constructor (store: Store)
      ensures this.store == store
      ensures Now() == State(store.Rows(), store.settings, map[], {})
    {
      this.store := store;
      workers, succeeded := map[], {};
    }

    function Now(): State
      reads this, store
    {
      State(store.Rows(), store.settings, workers, succeeded)
    }

    /** Other workers, users and administrators take the given steps. */
    method Interfere(steps: seq<Step>, w: Id)
      requires forall step | step in steps :: !ByWorker(step, w)
      modifies this, store
      ensures Now() == Execute(old(Now()), steps)
      ensures WorkerAt(Now(), w) == old(WorkerAt(Now(), w))
    {
      for i := 0 to |steps|
        invariant Now() == Execute(old(Now()), steps[..i])
        invariant WorkerAt(Now(), w) == old(WorkerAt(Now(), w))
      {
        ghost var before := Now();
        ForeignStepLeavesWorker(before, steps[i], w);
        var next := Next(Now(), steps[i]);
        store.knowledgeBases, store.documents := next.db.knowledgeBases, next.db.documents;
        store.versions, store.hashes, store.events := next.db.versions, next.db.hashes, next.db.events;
        workers, succeeded := next.workers, next.succeeded;
        OneMore(old(Now()), steps, i);
        assert Now() == Next(before, steps[i]);
      }
      assert steps[..|steps|] == steps;
    }

    /** Let the others move, and extend the record of this run. */
    method Yield(steps: seq<Step>, w: Id, ghost start: State, ghost trace: seq<Step>) returns (ghost longer: seq<Step>)
      requires forall step | step in steps :: !ByWorker(step, w)
      requires Now() == Execute(start, trace)
      modifies this, store
      ensures Now() == Execute(start, longer) && longer == trace + steps
      ensures Now() == Execute(old(Now()), steps)
      ensures WorkerAt(Now(), w) == old(WorkerAt(Now(), w))
    {
      Interfere(steps, w);
      ExecuteConcat(start, trace, steps);
      longer := trace + steps;
    }

    /** The same while `w` holds an event. */
    method YieldHolding(steps: seq<Step>, w: Id, ghost e: Id, ghost start: State, ghost trace: seq<Step>)
      returns (ghost longer: seq<Step>)
      requires forall step | step in steps :: !ByWorker(step, w)
      requires CleanupInvariant(start) && Now() == Execute(start, trace) && Holds(Now(), w, e)
      modifies this, store
      ensures Now() == Execute(start, longer) && CleanupInvariant(Now())
      ensures WorkerAt(Now(), w) == old(WorkerAt(Now(), w))
      ensures e in old(store.events)
      ensures Bystanders(steps, w, e) && old(Alone(Now(), w, e)) ==>
        Alone(Now(), w, e) && e in store.events && store.events[e] == old(store.events[e])
    {
      ghost var before := Now();
      ExecuteKeepsCleanup(start, trace);
      HolderSees(before, w, e);
      longer := Yield(steps, w, start, trace);
      ExecuteKeepsCleanup(start, longer);
      if Bystanders(steps, w, e) && Alone(before, w, e) {
        HeldRowIsOwn(before, steps, w, e);
      }
    }

    method CallHandler(w: Id, stage: Stage, works: bool)
      requires HandlerPending(WorkerAt(Now(), w)) && CLEANUP_STAGES[WorkerAt(Now(), w).next] == stage
      modifies this
      ensures Now() == Next(old(Now()), RunHandler(w, works))
      ensures WorkerAt(Now(), w) == old(WorkerAt(Now(), w)).(phase := if works then HandlerDone else Failing)
    {
      var worker := workers[w];
      if works {
        workers := workers[w := worker.(phase := HandlerDone)];
        succeeded := succeeded + {(worker.eventId, stage)};
      } else {
        workers := workers[w := worker.(phase := Failing)];
      }
    }

    method SaveStage(w: Id, stage: Stage, commits: bool) returns (ok: bool)
      requires var worker := WorkerAt(Now(), w);
               && worker.Working? && worker.next < 4 && stage == CLEANUP_STAGES[worker.next]
               && (if stage == SqlMetadata then FinalizePending(worker) else worker.phase == HandlerDone)
      modifies this`workers, store
      ensures Now() == Next(old(Now()), Save(w, commits))
      ensures WorkerAt(Now(), w) == old(WorkerAt(Now(), w)).(phase := if ok then Recorded else Failing)
      ensures SameCounters(old(store.Rows()), store.Rows(), old(workers[w].eventId), old(workers[w].tenant))
      ensures !ok ==> store.Rows() == old(store.Rows())
      ensures old(BothVisible(store.Rows(), workers[w].eventId, workers[w].tenant)) ==> ok == commits
      ensures ok && stage == SqlMetadata ==>
        old(workers[w].eventId) in store.events && store.events[old(workers[w].eventId)].status == Completed
    {
      var worker := workers[w];
      ok := false;
      if commits {
        var r;
        if stage == SqlMetadata {
          r := store.FinalizeDocumentDeletion(worker.eventId, worker.tenant);
        } else {
          r := store.RecordCleanupStage(worker.eventId, worker.tenant, stage);
        }
        ok := r.Success?;
      }
      workers := workers[w := worker.(phase := if ok then Recorded else Failing)];
    }

    /** The commit of a stage whose handler is done, or of the last one, which has none. */
    method CommitStage(w: Id, ghost e: Id, i: nat, commits: bool, ghost start: State, ghost trace: seq<Step>)
      returns (ok: bool, ghost longer: seq<Step>)
      requires i < 4 && CleanupInvariant(start) && Now() == Execute(start, trace) && Holds(Now(), w, e)
      requires var worker := WorkerAt(Now(), w);
               worker.next == i && if i == 3 then FinalizePending(worker) else worker.phase == HandlerDone
      modifies this`workers, store
      ensures Now() == Execute(start, longer)
      ensures ok == commits
      ensures WorkerAt(Now(), w) == old(WorkerAt(Now(), w)).(phase := if ok then Recorded else Failing)
      ensures SameCounters(old(store.Rows()), store.Rows(), e, old(workers[w].tenant))
      ensures old(Guarded(Now(), w, e)) ==> Guarded(Now(), w, e) && (!ok ==> |store.events[e].completed| < 4)
    {
      ghost var before := Now();
      ExecuteKeepsCleanup(start, trace);
      HolderSees(before, w, e);
      PrefixMembers(before.workers[w].snapshot, i);
      ExecuteOne(start, trace, Save(w, commits));
      ok := SaveStage(w, CLEANUP_STAGES[i], commits);
      longer := trace + [Save(w, commits)];
      ExecuteKeepsCleanup(start, longer);
      HolderSees(Now(), w, e);
      if Alone(before, w, e) {
        OwnStepStaysAlone(before, Save(w, commits), w, e);
      }
    }

    /** Handler, then commit, of one stage that is not in the snapshot. */
    method RunStage(w: Id, ghost e: Id, i: nat, world: World, ghost start: State, ghost trace: seq<Step>)
      returns (ok: bool, ghost longer: seq<Step>)
      requires i < 4 && CleanupInvariant(start) && Now() == Execute(start, trace) && Holds(Now(), w, e)
      requires forall k: nat, step | step in world.others(k) :: !ByWorker(step, w)
      requires WorkerAt(Now(), w).next == i && WorkerAt(Now(), w).phase == AtStage
      requires CLEANUP_STAGES[i] !in WorkerAt(Now(), w).snapshot
      modifies this, store
      ensures Now() == Execute(start, longer)
      ensures ok == ((CLEANUP_STAGES[i] == SqlMetadata || world.handlerWorks(CLEANUP_STAGES[i]))
                     && world.saveCommits(CLEANUP_STAGES[i]))
      ensures WorkerAt(Now(), w) == old(WorkerAt(Now(), w)).(phase := if ok then Recorded else Failing)
      ensures Undisturbed(world, w, e) && old(Guarded(Now(), w, e)) ==>
        && Guarded(Now(), w, e) && (!ok ==> |store.events[e].completed| < 4)
        && SameCounters(old(store.Rows()), store.Rows(), e, old(workers[w].tenant))
    {
      longer := trace;
      var stage := CLEANUP_STAGES[i];
      if stage != SqlMetadata {
        ghost var before := Now();
        ok := world.handlerWorks(stage);
        ExecuteOne(start, longer, RunHandler(w, ok));
        CallHandler(w, stage, ok);
        longer := longer + [RunHandler(w, ok)];
        if Alone(before, w, e) {
          OwnStepStaysAlone(before, RunHandler(w, ok), w, e);
        }
        if !ok {
          ExecuteKeepsCleanup(start, longer);
          HolderSees(Now(), w, e);
          return;
        }
        longer := YieldHolding(world.others(4 * i), w, e, start, longer);
      }
      ok, longer := CommitStage(w, e, i, world.saveCommits(stage), start, longer);
    }

    /** The `except` branch: report the failure and give the event back. */
    method Report(w: Id, world: World, ghost start: State, ghost trace: seq<Step>) returns (ghost longer: seq<Step>)
      requires Now() == Execute(start, trace)
      requires WorkerAt(Now(), w).Working? && WorkerAt(Now(), w).phase == Failing
      modifies this, store
      ensures Now() == Execute(start, longer) && WorkerAt(Now(), w) == Idle
      ensures Now() == Next(old(Now()), Fail(w, world.reportCommits, world.now, world.error))
      ensures if world.reportCommits
        then GaveUp(old(store.Rows()), store.Rows(), store.settings,
                    old(workers[w].eventId), old(workers[w].tenant), world.now)
        else store.Rows() == old(store.Rows())
      ensures forall f | f in store.events :: f in old(store.events) && store.events[f].completed == old(store.events)[f].completed
    {
      var step := Fail(w, world.reportCommits, world.now, world.error);
      ExecuteOne(start, trace, step);
      longer := trace + [step];
      var worker := workers[w];
      if world.reportCommits {
        var _ := store.MarkCleanupFailure(worker.eventId, worker.tenant, world.now, world.error);
      }
      workers := workers[w := Idle];
    }

    method LookAt(w: Id, eventId: Id, tenant: Id) returns (found: bool, free: bool)
      requires WorkerAt(Now(), w) == Idle
      modifies this`workers
      ensures Now() == Next(old(Now()), Look(w, eventId, tenant))
      ensures WorkerAt(Now(), w) == if free then Checked(eventId, tenant) else Idle
      ensures !free ==> Now() == old(Now())
      ensures free <==> EventVisible(store.Rows(), eventId, tenant)
                        && store.events[eventId].status !in {Completed, DeadLetter, Processing}
    {
      if eventId !in store.events || store.events[eventId].tenant != tenant {
        return false, false;
      }
      var status := store.events[eventId].status;
      if status == Completed || status == DeadLetter || status == Processing {
        return true, false;
      }
      workers := workers[w := Checked(eventId, tenant)];
      return true, true;
    }

    method Start(w: Id) returns (r: Result<(Event, bool), TxError>)
      requires WorkerAt(Now(), w).Checked?
      modifies this`workers, store
      ensures Now() == Next(old(Now()), Acquire(w))
      ensures WorkerAt(Now(), w) == if r.Success? && r.value.1
        then Working(old(workers[w].eventId), old(workers[w].tenant), r.value.0.completed, 0, Loading) else Idle
      ensures r.Success? ==>
        && old(workers[w].eventId) in old(store.events)
        && r.value.0.completed == old(store.events[workers[w].eventId].completed)
      ensures Resumable(old(store.Rows()), old(workers[w].eventId), old(workers[w].tenant)) ==>
        r.Success? && r.value.1 && Picked(old(store.Rows()), store.Rows(), old(workers[w].eventId), old(workers[w].tenant))
    {
      var checked := workers[w];
      if Resumable(store.Rows(), checked.eventId, checked.tenant) {
        StartingResumable(store.Rows(), checked.eventId, checked.tenant);
      }
      r := store.MarkCleanupStarted(checked.eventId, checked.tenant);
      workers := workers[w := if r.Success? && r.value.1
        then Working(checked.eventId, checked.tenant, r.value.0.completed, 0, Loading) else Idle];
    }

    method Load(w: Id, contextLoads: bool) returns (loads: bool)
      requires WorkerAt(Now(), w).Working? && WorkerAt(Now(), w).phase == Loading
      modifies this`workers
      ensures Now() == Next(old(Now()), LoadContext(w, contextLoads))
      ensures WorkerAt(Now(), w) == if loads then old(WorkerAt(Now(), w)).(phase := AtStage) else Idle
      ensures loads == (contextLoads && EventVisible(store.Rows(), old(workers[w].eventId), old(workers[w].tenant))
        && DocumentVisible(store.Rows(), store.events[old(workers[w].eventId)].document, old(workers[w].tenant)))
    {
      var worker := workers[w];
      loads := contextLoads && EventVisible(store.Rows(), worker.eventId, worker.tenant)
               && DocumentVisible(store.Rows(), store.events[worker.eventId].document, worker.tenant);
      workers := workers[w := if loads then worker.(phase := AtStage) else Idle];
    }

    /** The acquisition raises and is rolled back: the call ends, as if the worker had died. */
    method Abandon(w: Id, ghost e: Id, ghost start: State, ghost trace: seq<Step>) returns (ghost longer: seq<Step>)
      requires Now() == Execute(start, trace)
      modifies this`workers
      ensures Now() == Execute(start, longer) && WorkerAt(Now(), w) == Idle
      ensures old(Alone(Now(), w, e)) ==> Alone(Now(), w, e)
    {
      ghost var before := Now();
      ExecuteOne(start, trace, Crash(w));
      workers := workers[w := Idle];
      longer := trace + [Crash(w)];
      if Alone(before, w, e) {
        OwnStepStaysAlone(before, Crash(w), w, e);
      }
    }

    /** Acquire a checked event and load its context. */
    method AcquireEvent(w: Id, ghost e: Id, world: World, ghost start: State, ghost trace: seq<Step>)
      returns (outcome: Outcome, snapshot: Option<seq<Stage>>, ghost longer: seq<Step>)
      requires CleanupInvariant(start) && Now() == Execute(start, trace)
      requires WorkerAt(Now(), w).Checked? && WorkerAt(Now(), w).eventId == e
      requires forall k: nat, step | step in world.others(k) :: !ByWorker(step, w)
      modifies this, store
      ensures Now() == Execute(start, longer) && !outcome.Finished? && !outcome.StageFailed?
      ensures WorkerAt(Now(), w) == if snapshot.Some?
        then Working(e, old(workers[w].tenant), snapshot.value, 0, AtStage) else Idle
      ensures Undisturbed(world, w, e) && old(Alone(Now(), w, e)) && old(Resumable(store.Rows(), e, workers[w].tenant)) ==>
        && Alone(Now(), w, e) && Picked(old(store.Rows()), store.Rows(), e, old(workers[w].tenant))
        && if world.contextLoads then snapshot == Some(old(store.events[e].completed))
           else snapshot == None && outcome == Escaped
    {
      ghost var before := Now();
      ExecuteOne(start, trace, Acquire(w));
      var r := Start(w);
      longer := trace + [Acquire(w)];
      if Alone(before, w, e) {
        OwnStepStaysAlone(before, Acquire(w), w, e);
      }
      if r.Failure? || !r.value.1 {
        return if r.Failure? then Missing else Untouched, None, longer;
      }
      longer := YieldHolding(world.others(BEFORE_CONTEXT), w, e, start, longer);
      HolderSees(Now(), w, e);
      ghost var loading := Now();
      ExecuteOne(start, longer, LoadContext(w, world.contextLoads));
      var loads := Load(w, world.contextLoads);
      longer := longer + [LoadContext(w, world.contextLoads)];
      if Alone(loading, w, e) {
        OwnStepStaysAlone(loading, LoadContext(w, world.contextLoads), w, e);
      }
      outcome := if world.contextLoads then Missing else Escaped;
      snapshot := if loads then Some(r.value.0.completed) else None;
    }

    /** Look, acquire and load the context; `Some(snapshot)` when the event is now held. */
    method TakeEvent(w: Id, eventId: Id, tenant: Id, world: World, ghost start: State)
      returns (outcome: Outcome, snapshot: Option<seq<Stage>>, ghost trace: seq<Step>)
      requires CleanupInvariant(start) && WorkerAt(Now(), w) == Idle && Now() == start
      requires forall k: nat, step | step in world.others(k) :: !ByWorker(step, w)
      modifies this, store
      ensures Now() == Execute(start, trace) && !outcome.Finished? && !outcome.StageFailed?
      ensures WorkerAt(Now(), w) == if snapshot.Some? then Working(eventId, tenant, snapshot.value, 0, AtStage) else Idle
      ensures Undisturbed(world, w, eventId) && Alone(start, w, eventId) && Resumable(start.db, eventId, tenant) ==>
        && Alone(Now(), w, eventId) && EventVisible(store.Rows(), eventId, tenant)
        && Taken(start.db, store.Rows(), eventId, tenant, world, outcome, snapshot)
    {
      trace := [];
      if !world.lookWorks {
        return Escaped, None, trace;
      }
      ExecuteOne(start, trace, Look(w, eventId, tenant));
      var found, free := LookAt(w, eventId, tenant);
      trace := trace + [Look(w, eventId, tenant)];
      if !free {
        return if found then Untouched else Missing, None, trace;
      }
      trace := Yield(world.others(BEFORE_ACQUIRE), w, start, trace);
      if Undisturbed(world, w, eventId) && Alone(start, w, eventId) && Resumable(start.db, eventId, tenant) {
        StaysResumable(start, world.others(BEFORE_ACQUIRE), w, eventId, tenant);
      }
      if !world.acquireCommits {
        trace := Abandon(w, eventId, start, trace);
        return Escaped, None, trace;
      }
      outcome, snapshot, trace := AcquireEvent(w, eventId, world, start, trace);
    }

    method Skip(w: Id, ghost e: Id, ghost start: State, ghost trace: seq<Step>) returns (ghost longer: seq<Step>)
      requires Now() == Execute(start, trace) && Holds(Now(), w, e)
      requires WorkerAt(Now(), w).phase == AtStage && WorkerAt(Now(), w).next < 4
      requires CLEANUP_STAGES[WorkerAt(Now(), w).next] in WorkerAt(Now(), w).snapshot
      modifies this`workers
      ensures Now() == Execute(start, longer)
      ensures WorkerAt(Now(), w) == old(WorkerAt(Now(), w)).(next := old(WorkerAt(Now(), w)).next + 1)
      ensures old(Alone(Now(), w, e)) ==> Alone(Now(), w, e)
    {
      ghost var before := Now();
      ExecuteOne(start, trace, Advance(w));
      longer := trace + [Advance(w)];
      workers := workers[w := workers[w].(next := workers[w].next + 1)];
      if Alone(before, w, e) {
        OwnStepStaysAlone(before, Advance(w), w, e);
      }
    }

    method WriteAudit(w: Id, ok: bool)
      requires WorkerAt(Now(), w).Working? && WorkerAt(Now(), w).phase == Recorded
      modifies this`workers
      ensures Now() == Next(old(Now()), Audit(w, ok))
      ensures WorkerAt(Now(), w) == var worker := old(WorkerAt(Now(), w));
        if ok then worker.(phase := AtStage, next := worker.next + 1) else worker.(phase := Failing)
    {
      var worker := workers[w];
      workers := workers[w := if ok then worker.(phase := AtStage, next := worker.next + 1) else worker.(phase := Failing)];
    }

    /** The audit record of a committed stage; only the last one matters for the event. */
    method AuditStage(w: Id, ghost e: Id, i: nat, world: World, ghost start: State, ghost trace: seq<Step>)
      returns (ok: bool, ghost longer: seq<Step>)
      requires i < 4 && CleanupInvariant(start) && Now() == Execute(start, trace) && Holds(Now(), w, e)
      requires WorkerAt(Now(), w).next == i && WorkerAt(Now(), w).phase == Recorded
      modifies this`workers
      ensures Now() == Execute(start, longer) && ok == world.auditWorks(CLEANUP_STAGES[i])
      ensures WorkerAt(Now(), w) == var worker := old(WorkerAt(Now(), w));
        if ok then worker.(phase := AtStage, next := i + 1) else worker.(phase := Failing)
      ensures old(Guarded(Now(), w, e)) ==>
        Guarded(Now(), w, e) && (|store.events[e].completed| == 4 <==> i == 3)
    {
      ghost var before := Now();
      ExecuteKeepsCleanup(start, trace);
      HolderSees(before, w, e);
      ok := world.auditWorks(CLEANUP_STAGES[i]);
      ExecuteOne(start, trace, Audit(w, ok));
      WriteAudit(w, ok);
      longer := trace + [Audit(w, ok)];
      if Alone(before, w, e) {
        OwnStepStaysAlone(before, Audit(w, ok), w, e);
      }
    }

    /** The body of the `try`: handler, commit and audit record. */
    method TryStage(w: Id, ghost e: Id, i: nat, world: World, ghost start: State, ghost trace: seq<Step>)
      returns (ok: bool, ghost longer: seq<Step>)
      requires i < 4 && CleanupInvariant(start) && Now() == Execute(start, trace) && Holds(Now(), w, e)
      requires forall k: nat, step | step in world.others(k) :: !ByWorker(step, w)
      requires WorkerAt(Now(), w).next == i && WorkerAt(Now(), w).phase == AtStage
      requires CLEANUP_STAGES[i] !in WorkerAt(Now(), w).snapshot
      modifies this, store
      ensures Now() == Execute(start, longer) && ok == !StageFails(world, i)
      ensures WorkerAt(Now(), w) == var worker := old(WorkerAt(Now(), w));
        if ok then worker.(next := i + 1) else worker.(phase := Failing)
      ensures Undisturbed(world, w, e) && old(Guarded(Now(), w, e)) ==>
        && Guarded(Now(), w, e) && SameCounters(old(store.Rows()), store.Rows(), e, old(workers[w].tenant))
        && (!ok ==> Doomed(Now(), w, e, world, i))
    {
      ok, longer := RunStage(w, e, i, world, start, trace);
      longer := YieldHolding(world.others(4 * i + 2), w, e, start, longer);
      if ok {
        ok, longer := AuditStage(w, e, i, world, start, longer);
      }
    }

    /** The way out of a failed stage. */
    method GiveUp(w: Id, ghost e: Id, i: nat, world: World, ghost start: State, ghost trace: seq<Step>)
      returns (ghost longer: seq<Step>)
      requires CleanupInvariant(start) && Now() == Execute(start, trace) && Holds(Now(), w, e)
      requires forall k: nat, step | step in world.others(k) :: !ByWorker(step, w)
      requires WorkerAt(Now(), w).phase == Failing && i < 4
      modifies this, store
      ensures Now() == Execute(start, longer) && WorkerAt(Now(), w) == Idle
      ensures Undisturbed(world, w, e) && old(Doomed(Now(), w, e, world, i)) ==>
        && Alone(Now(), w, e)
        && StageLeaves(old(store.Rows()), store.Rows(), store.settings, e, old(workers[w]), world, i, false)
    {
      longer := YieldHolding(world.others(4 * i + 3), w, e, start, trace);
      HolderSees(Now(), w, e);
      ghost var before := Now();
      longer := Report(w, world, start, longer);
      if Alone(before, w, e) {
        OwnStepStaysAlone(before, Fail(w, world.reportCommits, world.now, world.error), w, e);
      }
    }

    /** A stage that is not skipped: the `try`, and the `except` branch when it raises. */
    method AttemptStage(w: Id, ghost e: Id, i: nat, world: World, ghost start: State, ghost trace: seq<Step>)
      returns (ok: bool, ghost longer: seq<Step>)
      requires i < 4 && CleanupInvariant(start) && Now() == Execute(start, trace) && Holds(Now(), w, e)
      requires forall k: nat, step | step in world.others(k) :: !ByWorker(step, w)
      requires WorkerAt(Now(), w).next == i && WorkerAt(Now(), w).phase == AtStage
      requires CLEANUP_STAGES[i] !in WorkerAt(Now(), w).snapshot
      modifies this, store
      ensures Now() == Execute(start, longer) && ok == !StageFails(world, i)
      ensures WorkerAt(Now(), w) == if ok then old(WorkerAt(Now(), w)).(next := i + 1) else Idle
      ensures Undisturbed(world, w, e) && old(Guarded(Now(), w, e)) ==>
        && Alone(Now(), w, e)
        && StageLeaves(old(store.Rows()), store.Rows(), store.settings, e, old(workers[w]), world, i, ok)
    {
      ok, longer := TryStage(w, e, i, world, start, trace);
      if !ok {
        longer := GiveUp(w, e, i, world, start, longer);
      }
    }

    /** One turn of the stage loop. */
    method VisitStage(w: Id, ghost e: Id, i: nat, world: World, ghost start: State, ghost trace: seq<Step>)
      returns (ok: bool, ghost longer: seq<Step>)
      requires i < 4 && CleanupInvariant(start) && Now() == Execute(start, trace) && Holds(Now(), w, e)
      requires forall k: nat, step | step in world.others(k) :: !ByWorker(step, w)
      requires WorkerAt(Now(), w).next == i && WorkerAt(Now(), w).phase == AtStage
      modifies this, store
      ensures Now() == Execute(start, longer)
      ensures ok == (CLEANUP_STAGES[i] in old(workers[w].snapshot) || !StageFails(world, i))
      ensures WorkerAt(Now(), w) == if ok then old(WorkerAt(Now(), w)).(next := i + 1) else Idle
      ensures Undisturbed(world, w, e) && old(Guarded(Now(), w, e)) ==>
        && Alone(Now(), w, e)
        && StageLeaves(old(store.Rows()), store.Rows(), store.settings, e, old(workers[w]), world, i, ok)
    {
      longer := YieldHolding(world.others(4 * i + 1), w, e, start, trace);
      if CLEANUP_STAGES[i] in workers[w].snapshot {
        longer := Skip(w, e, start, longer);
        ok := true;
      } else {
        ok, longer := AttemptStage(w, e, i, world, start, longer);
      }
    }

    /** Past the last stage: everything is recorded, and the worker lets the event go. */
    method Leave(w: Id, ghost start: State, ghost trace: seq<Step>) returns (ghost longer: seq<Step>)
      requires CleanupInvariant(start) && Now() == Execute(start, trace)
      requires WorkerAt(Now(), w).Working? && WorkerAt(Now(), w).next == 4 && WorkerAt(Now(), w).phase == AtStage
      modifies this`workers
      ensures longer == trace + [Advance(w)] && Now() == Execute(start, longer) && CleanupInvariant(Now())
      ensures WorkerAt(Now(), w) == Idle
      ensures old(Alone(Now(), w, workers[w].eventId)) ==> Alone(Now(), w, old(workers[w].eventId))
      ensures old(workers[w].eventId) in store.events && |store.events[old(workers[w].eventId)].completed| == 4
    {
      ghost var before := Now();
      ExecuteKeepsCleanup(start, trace);
      assert WorkerOk(Now(), workers[w]);
      ExecuteOne(start, trace, Advance(w));
      longer := trace + [Advance(w)];
      if Alone(before, w, workers[w].eventId) {
        OwnStepStaysAlone(before, Advance(w), w, workers[w].eventId);
      }
      workers := workers[w := Idle];
      ExecuteKeepsCleanup(start, longer);
    }

    /** The stage loop, and the way out of it. */
    method RunStages(w: Id, ghost e: Id, world: World, ghost start: State, ghost trace: seq<Step>)
      returns (outcome: Outcome, ghost longer: seq<Step>)
      requires CleanupInvariant(start) && Now() == Execute(start, trace) && Holds(Now(), w, e)
      requires forall k: nat, step | step in world.others(k) :: !ByWorker(step, w)
      requires WorkerAt(Now(), w).next == 0 && WorkerAt(Now(), w).phase == AtStage
      modifies this, store
      ensures Now() == Execute(start, longer) && WorkerAt(Now(), w) == Idle
      ensures outcome == LoopEnds(world, old(workers[w].snapshot))
      ensures outcome.Finished? ==> e in store.events && |store.events[e].completed| == 4
      ensures Undisturbed(world, w, e) && old(Guarded(Now(), w, e)) ==>
        && Alone(Now(), w, e) && SameCounters(old(store.Rows()), store.Rows(), e, old(workers[w].tenant))
        && e in store.events
        && LoopLeaves(store.Rows(), store.settings, e, old(workers[w].tenant), world, old(workers[w].snapshot))
    {
      longer := trace;
      ghost var worker, first := workers[w], store.Rows();
      ExecuteKeepsCleanup(start, trace);
      HolderSees(Now(), w, e);
      for i := 0 to 4
        invariant Now() == Execute(start, longer)
        invariant WorkerAt(Now(), w) == worker.(next := i)
        invariant FirstFailure(world, worker.snapshot, i) == FirstFailure(world, worker.snapshot, 0)
        invariant Undisturbed(world, w, e) && old(Guarded(Now(), w, e)) ==>
          Guarded(Now(), w, e) && SameCounters(first, store.Rows(), e, worker.tenant)
      {
        var ok;
        ok, longer := VisitStage(w, e, i, world, start, longer);
        if !ok {
          return Raised(world, CLEANUP_STAGES[i]), longer;
        }
      }
      longer := Leave(w, start, longer);
      outcome := Finished;
    }

    /** Execute or resume a cleanup event. Whatever the world does, the call is a run of the
        protocol, and when it ends normally every stage of the event has been recorded. */
    method ProcessCleanupEvent(w: Id, eventId: Id, tenant: Id, world: World)
      returns (outcome: Outcome, ghost trace: seq<Step>)
      requires CleanupInvariant(Now()) && WorkerAt(Now(), w) == Idle
      requires forall k: nat, step | step in world.others(k) :: !ByWorker(step, w)
      modifies this, store
      ensures Now() == Execute(old(Now()), trace) && CleanupInvariant(Now())
      ensures WorkerAt(Now(), w) == Idle
      ensures outcome.Finished? ==> eventId in store.events && |store.events[eventId].completed| == 4
      ensures Undisturbed(world, w, eventId) && old(Fit(Now(), w, eventId, tenant)) ==>
        && Alone(Now(), w, eventId) && EventVisible(store.Rows(), eventId, tenant)
        && RunEnds(old(store.Rows()), store.Rows(), store.settings, eventId, tenant, world, outcome)
    {
      ghost var start := Now();
      var snapshot;
      outcome, snapshot, trace := TakeEvent(w, eventId, tenant, world, start);
      ExecuteKeepsCleanup(start, trace);
      if snapshot == None {
        return;
      }
      outcome, trace := RunStages(w, eventId, world, start, trace);
      ExecuteKeepsCleanup(start, trace);
    }
  }
}
