/** Event and document statuses move together, provided the audit record of the last
    stage can be written; what happens when it cannot. */
module CleanupCoupling {
  import opened Transactions
  import opened Protocol
  import opened CleanupInvariants
  import opened CleanupTheorems

  ghost predicate Coupled(status: EventStatus, lifecycle: Lifecycle) {
    match status
    case Pending => lifecycle in {Deleting, CleanupRetrying}
    case Processing => lifecycle in {Deleting, CleanupRetrying}
    case Retrying => lifecycle == CleanupFailed
    case DeadLetter => lifecycle == CleanupFailed
    case Completed => lifecycle == Deleted
  }

  ghost predicate PairOk(db: Db, e: Event) {
    && e.document in db.documents
    && Coupled(e.status, db.documents[e.document].lifecycle)
    && (e.status == Completed <==> |e.completed| == 4)
  }

  ghost predicate PairsOk(db: Db) {
    forall e | e in db.events :: PairOk(db, db.events[e])
  }

  /** The worker does not have an exception in hand after it committed the last stage. */
  ghost predicate FailsEarly(db: Db, worker: Worker) {
    worker.Working? && worker.phase == Failing && worker.eventId in db.events ==>
      |db.events[worker.eventId].completed| < 4
  }

  ghost predicate NoLateFailure(s: State) {
    forall w | w in s.workers :: FailsEarly(s.db, s.workers[w])
  }

  ghost predicate CoupledInvariant(s: State) {
    CleanupInvariant(s) && PairsOk(s.db) && NoLateFailure(s)
  }

  /** The audit write that follows a committed finalization fails. */
  predicate FinalAuditFails(s: State, step: Step) {
    step.Audit? && !step.ok && WorkerAt(s, step.worker).Working?
    && WorkerAt(s, step.worker).phase == Recorded && WorkerAt(s, step.worker).next == 3
  }

  ghost predicate OnlyDocument(db: Db, db': Db, document: Id) {
    forall d | d in db.documents && d != document ::
      d in db'.documents && db'.documents[d].lifecycle == db.documents[d].lifecycle
  }

  lemma RowStepKeepsPairs(db: Db, db': Db, e: Id)
    requires EventsOk(db) && OneEventPerDocument(db) && PairsOk(db)
    requires RowStep(db, db', e) && OnlyDocument(db, db', db.events[e].document)
    requires PairOk(db', db'.events[e])
    ensures PairsOk(db')
  {
    forall f | f in db'.events && f != e
      ensures PairOk(db', db'.events[f])
    {
      assert f in db.events.Keys;
      assert PairOk(db, db.events[f]);
    }
  }

  lemma RequestKeepsPairs(s: State, d: Id, tenant: Id, freshId: Id)
    requires CoupledInvariant(s)
    ensures PairsOk(Next(s, Request(d, tenant, freshId)).db)
    ensures NoLateFailure(Next(s, Request(d, tenant, freshId)))
  {
    var db' := Next(s, Request(d, tenant, freshId)).db;
    if db' != s.db {
      forall f | f in s.db.events
        ensures PairOk(db', db'.events[f])
      {
        assert EventOk(s.db, s.db.events[f]);
        assert PairOk(s.db, s.db.events[f]);
        assert !IsDeletionEvent(s.db, d, tenant, f);
      }
      assert forall w | w in s.workers :: FailsEarly(s.db, s.workers[w]) && WorkerOk(s, s.workers[w]);
    }
  }

  lemma RetriedPairs(db: Db, e: Id, tenant: Id)
    requires EventsOk(db) && OneEventPerDocument(db) && PairsOk(db)
    ensures PairsOk(After(db, RetryEvent(db, e, tenant)))
  {
    var db' := After(db, RetryEvent(db, e, tenant));
    if db' != db {
      assert EventOk(db, db.events[e]) && PairOk(db, db.events[e]);
      RowStepKeepsPairs(db, db', e);
    }
  }

  lemma SameStagesKeepFailures(s: State, db': Db)
    requires NoLateFailure(s)
    requires forall e | e in db'.events :: e in s.db.events && db'.events[e].completed == s.db.events[e].completed
    ensures NoLateFailure(s.(db := db'))
  {
    forall w | w in s.workers
      ensures FailsEarly(db', s.workers[w])
    {
      assert FailsEarly(s.db, s.workers[w]);
    }
  }

  lemma RetryKeepsPairs(s: State, e: Id, tenant: Id)
    requires CoupledInvariant(s)
    ensures PairsOk(Next(s, Retry(e, tenant)).db) && NoLateFailure(Next(s, Retry(e, tenant)))
  {
    RetriedPairs(s.db, e, tenant);
    SameStagesKeepFailures(s, Next(s, Retry(e, tenant)).db);
  }

  lemma StartedPair(db: Db, e: Id, tenant: Id)
    requires EventsOk(db) && PairsOk(db)
    requires MarkStarted(db, e, tenant).Commit? && MarkStarted(db, e, tenant).result.1
    ensures var db' := MarkStarted(db, e, tenant).db;
            OnlyDocument(db, db', db.events[e].document) && PairOk(db', db'.events[e])
  {
    assert PairOk(db, db.events[e]);
  }

  lemma StartedPairs(db: Db, e: Id, tenant: Id)
    requires EventsOk(db) && OneEventPerDocument(db) && PairsOk(db)
    ensures PairsOk(After(db, MarkStarted(db, e, tenant)))
  {
    var tx := MarkStarted(db, e, tenant);
    if tx.Commit? && tx.result.1 {
      StartedRowStep(db, e, tenant);
      StartedPair(db, e, tenant);
      RowStepKeepsPairs(db, tx.db, e);
    }
  }

  /** Rows may change as long as no stage is recorded, and one worker may move. */
  lemma MovesKeepFailures(s: State, s': State, w: Id)
    requires NoLateFailure(s)
    requires forall e | e in s'.db.events :: e in s.db.events && s'.db.events[e].completed == s.db.events[e].completed
    requires forall v | v in s'.workers && v != w :: v in s.workers && s'.workers[v] == s.workers[v]
    requires w in s'.workers ==> FailsEarly(s'.db, s'.workers[w])
    ensures NoLateFailure(s')
  {
    forall v | v in s'.workers && v != w
      ensures FailsEarly(s'.db, s'.workers[v])
    {
      assert FailsEarly(s.db, s.workers[v]);
    }
  }

  lemma StartKeepsStages(db: Db, id: Id, tenant: Id)
    ensures var db' := After(db, MarkStarted(db, id, tenant));
            forall e | e in db'.events :: e in db.events && db'.events[e].completed == db.events[e].completed
  {
  }

  lemma AcquireKeepsFailures(s: State, w: Id)
    requires CoupledInvariant(s)
    ensures NoLateFailure(Next(s, Acquire(w)))
  {
    if WorkerAt(s, w).Checked? {
      StartKeepsStages(s.db, WorkerAt(s, w).eventId, WorkerAt(s, w).tenant);
      MovesKeepFailures(s, Next(s, Acquire(w)), w);
    }
  }

  lemma AcquireKeepsPairs(s: State, w: Id)
    requires CoupledInvariant(s)
    ensures PairsOk(Next(s, Acquire(w)).db)
  {
    if WorkerAt(s, w).Checked? {
      StartedPairs(s.db, WorkerAt(s, w).eventId, WorkerAt(s, w).tenant);
    }
  }

  lemma RecordedPair(db: Db, e: Id, tenant: Id, stage: Stage)
    requires EventsOk(db) && OneEventPerDocument(db) && PairsOk(db) && EventVisible(db, e, tenant)
    requires db.events[e].status != Completed && |AppendStage(db.events[e].completed, stage)| < 4
    ensures PairsOk(After(db, RecordStage(db, e, tenant, stage)))
  {
    assert PairOk(db, db.events[e]);
    RowStepKeepsPairs(db, After(db, RecordStage(db, e, tenant, stage)), e);
  }

  lemma FinalizedPair(db: Db, e: Id, tenant: Id)
    requires EventsOk(db) && OneEventPerDocument(db) && PairsOk(db) && EventVisible(db, e, tenant)
    requires |AppendStage(db.events[e].completed, SqlMetadata)| == 4
    ensures PairsOk(After(db, FinalizeDeletion(db, e, tenant)))
  {
    assert PairOk(db, db.events[e]) && EventOk(db, db.events[e]);
    RowStepKeepsPairs(db, After(db, FinalizeDeletion(db, e, tenant)), e);
  }

  lemma SavedPairs(s: State, w: Id, ok: bool)
    requires CoupledInvariant(s)
    ensures PairsOk(Next(s, Save(w, ok)).db)
  {
    var worker := WorkerAt(s, w);
    if worker.Working? && (worker.phase == HandlerDone || FinalizePending(worker)) {
      var event := s.db.events[worker.eventId];
      assert WorkerOk(s, s.workers[w]) && PairOk(s.db, event) && EventOk(s.db, event);
      PrefixMembers(worker.snapshot, worker.next);
      PrefixGrows(event.completed, CLEANUP_STAGES[worker.next]);
      if worker.phase == HandlerDone {
        RecordedPair(s.db, worker.eventId, worker.tenant, CLEANUP_STAGES[worker.next]);
      } else {
        FinalizedPair(s.db, worker.eventId, worker.tenant);
      }
    }
  }

  /** The other workers hold other events, and those are as before. */
  lemma OthersFailEarly(s: State, s': State, w: Id, v: Id)
    requires CoupledInvariant(s) && WorkerAt(s, w).Working? && v != w && v in s.workers && v in s'.workers
    requires s'.workers[v] == s.workers[v]
    requires forall e | e in s'.db.events && e != WorkerAt(s, w).eventId :: e in s.db.events && s'.db.events[e] == s.db.events[e]
    ensures FailsEarly(s'.db, s'.workers[v])
  {
    assert FailsEarly(s.db, s.workers[v]);
    assert Holds(s, w, WorkerAt(s, w).eventId);
    assert !Holds(s, v, WorkerAt(s, w).eventId);
  }

  lemma SaveKeepsFailures(s: State, w: Id, ok: bool)
    requires CoupledInvariant(s)
    ensures NoLateFailure(Next(s, Save(w, ok)))
  {
    var worker := WorkerAt(s, w);
    var s' := Next(s, Save(w, ok));
    if worker.Working? {
      assert WorkerOk(s, s.workers[w]) && FailsEarly(s.db, s.workers[w]);
      if worker.next < 4 {
        PrefixMembers(worker.snapshot, worker.next);
      }
      forall v | v in s'.workers && v != w
        ensures FailsEarly(s'.db, s'.workers[v])
      {
        OthersFailEarly(s, s', w, v);
      }
    }
  }

  lemma FailedPairs(db: Db, settings: Settings, e: Id, tenant: Id, now: int, error: string)
    requires EventsOk(db) && OneEventPerDocument(db) && PairsOk(db) && EventVisible(db, e, tenant)
    requires |db.events[e].completed| < 4
    ensures PairsOk(After(db, MarkFailure(db, settings, e, tenant, now, error)))
  {
    assert PairOk(db, db.events[e]) && EventOk(db, db.events[e]);
    RowStepKeepsPairs(db, After(db, MarkFailure(db, settings, e, tenant, now, error)), e);
  }

  lemma FailKeepsPairs(s: State, w: Id, ok: bool, now: int, error: string)
    requires CoupledInvariant(s)
    ensures PairsOk(Next(s, Fail(w, ok, now, error)).db)
  {
    var worker := WorkerAt(s, w);
    if worker.Working? && worker.phase == Failing {
      assert WorkerOk(s, s.workers[w]) && FailsEarly(s.db, s.workers[w]);
      FailedPairs(s.db, s.settings, worker.eventId, worker.tenant, now, error);
    }
  }

  lemma FailKeepsFailures(s: State, w: Id, ok: bool, now: int, error: string)
    requires CoupledInvariant(s)
    ensures NoLateFailure(Next(s, Fail(w, ok, now, error)))
  {
    if w in s.workers {
      assert FailsEarly(s.db, s.workers[w]);
    }
    MovesKeepFailures(s, Next(s, Fail(w, ok, now, error)), w);
  }

  predicate Moves(step: Step) {
    step.Look? || step.LoadContext? || step.Advance? || step.RunHandler? || step.Audit? || step.Crash?
  }

  /** A worker that gets an exception in hand has not recorded the last stage. */
  lemma HandlerFailsEarly(s: State, w: Id, ok: bool)
    requires CoupledInvariant(s)
    ensures FailsEarly(s.db, WorkerAt(Next(s, RunHandler(w, ok)), w))
  {
    if w in s.workers {
      assert WorkerOk(s, s.workers[w]) && FailsEarly(s.db, s.workers[w]);
      if HandlerPending(s.workers[w]) {
        PrefixMembers(s.workers[w].snapshot, s.workers[w].next);
      }
    }
  }

  lemma AuditFailsEarly(s: State, w: Id, ok: bool)
    requires CoupledInvariant(s) && !FinalAuditFails(s, Audit(w, ok))
    ensures FailsEarly(s.db, WorkerAt(Next(s, Audit(w, ok)), w))
  {
    if w in s.workers {
      assert WorkerOk(s, s.workers[w]) && FailsEarly(s.db, s.workers[w]);
    }
  }

  lemma OtherMovesFailEarly(s: State, step: Step)
    requires CoupledInvariant(s) && Moves(step) && !step.RunHandler? && !step.Audit?
    ensures FailsEarly(s.db, WorkerAt(Next(s, step), step.worker))
  {
    if step.worker in s.workers {
      assert FailsEarly(s.db, s.workers[step.worker]);
    }
  }

  lemma MovesLeaveRows(s: State, step: Step)
    requires Moves(step)
    ensures Next(s, step).db == s.db
  {
  }

  lemma WorkerMovesKeepPairs(s: State, step: Step)
    requires CoupledInvariant(s) && !FinalAuditFails(s, step) && Moves(step)
    ensures PairsOk(Next(s, step).db) && NoLateFailure(Next(s, step))
  {
    var w := step.worker;
    MovesLeaveRows(s, step);
    if step.RunHandler? {
      HandlerFailsEarly(s, w, step.ok);
    } else if step.Audit? {
      AuditFailsEarly(s, w, step.ok);
    } else {
      OtherMovesFailEarly(s, step);
    }
    MovesKeepFailures(s, Next(s, step), w);
  }

  lemma RegistryStepsKeepLifecycles(s: State, step: Step, d: Id)
    requires step.Register? || step.Activate? || step.RemoveDocument? || step.RemoveKnowledgeBase?
    requires d in s.db.documents
    ensures d in Next(s, step).db.documents
    ensures Next(s, step).db.documents[d].lifecycle == s.db.documents[d].lifecycle
  {
  }

  lemma RegistryStepsKeepPairs(s: State, step: Step)
    requires CoupledInvariant(s)
    requires step.Register? || step.Activate? || step.RemoveDocument? || step.RemoveKnowledgeBase?
    ensures PairsOk(Next(s, step).db) && NoLateFailure(Next(s, step))
  {
    RegistryStepsAge(s, step);
    var s' := Next(s, step);
    forall e | e in s'.db.events
      ensures PairOk(s'.db, s'.db.events[e])
    {
      assert PairOk(s.db, s.db.events[e]);
      RegistryStepsKeepLifecycles(s, step, s.db.events[e].document);
    }
    SameStagesKeepFailures(s, s'.db);
  }

  lemma StepKeepsCoupling(s: State, step: Step)
    requires CoupledInvariant(s) && !FinalAuditFails(s, step)
    ensures CoupledInvariant(Next(s, step))
  {
    StepKeepsCleanup(s, step);
    match step
    case Request(d, t, id) => RequestKeepsPairs(s, d, t, id);
    case Retry(e, t) => RetryKeepsPairs(s, e, t);
    case Register(_, _, _, _, _) => RegistryStepsKeepPairs(s, step);
    case Activate(_, _, _) => RegistryStepsKeepPairs(s, step);
    case RemoveDocument(_) => RegistryStepsKeepPairs(s, step);
    case RemoveKnowledgeBase(_) => RegistryStepsKeepPairs(s, step);
    case Acquire(w) => AcquireKeepsPairs(s, w); AcquireKeepsFailures(s, w);
    case Save(w, ok) => SavedPairs(s, w, ok); SaveKeepsFailures(s, w, ok);
    case Fail(w, ok, now, error) => FailKeepsPairs(s, w, ok, now, error); FailKeepsFailures(s, w, ok, now, error);
    case _ => WorkerMovesKeepPairs(s, step);
  }

  // --------------------------------------------------------------- the runs

  /** In this run the audit record of a committed last stage is always written. */
  ghost predicate FinalAuditsSucceed(s: State, steps: seq<Step>) {
    forall i | 0 <= i < |steps| :: !FinalAuditFails(At(s, steps, i), steps[i])
  }

  lemma {:induction false} RunsKeepCoupling(s: State, steps: seq<Step>, i: nat)
    requires Initial(s) && i <= |steps| && FinalAuditsSucceed(s, steps)
    ensures CoupledInvariant(At(s, steps, i))
  {
    if i > 0 {
      RunsKeepCoupling(s, steps, i - 1);
      OneMore(s, steps, i - 1);
      StepKeepsCoupling(At(s, steps, i - 1), steps[i - 1]);
    }
  }

  lemma StatusesStayCoupled(s: State, steps: seq<Step>, e: Id)
    requires Initial(s) && FinalAuditsSucceed(s, steps) && e in Execute(s, steps).db.events
    ensures var db := Execute(s, steps).db;
            && db.events[e].document in db.documents
            && Coupled(db.events[e].status, db.documents[db.events[e].document].lifecycle)
  {
    RunsKeepCoupling(s, steps, |steps|);
    assert steps[..|steps|] == steps;
    assert PairOk(Execute(s, steps).db, Execute(s, steps).db.events[e]);
  }

  /** Whether or not audits succeed: a completed event has had every external handler succeed, and none of these
      successes is older than the event. */
  lemma CompletionIsEarned(s: State, steps: seq<Step>, e: Id, stage: Stage)
    requires Initial(s) && e in Execute(s, steps).db.events
    requires Execute(s, steps).db.events[e].status == Completed && stage != SqlMetadata
    ensures (e, stage) in Execute(s, steps).succeeded
    ensures forall i | 0 <= i <= |steps| && e !in At(s, steps, i).db.events :: (e, stage) !in At(s, steps, i).succeeded
  {
    forall i | 0 <= i <= |steps| && e !in At(s, steps, i).db.events
      ensures (e, stage) !in At(s, steps, i).succeeded
    {
      RunsKeepCleanup(s, steps, i);
    }
    RunsKeepCleanup(s, steps, |steps|);
    assert steps[..|steps|] == steps;
    var event := Execute(s, steps).db.events[e];
    assert EventOk(Execute(s, steps).db, event);
    assert stage == CLEANUP_STAGES[0] || stage == CLEANUP_STAGES[1] || stage == CLEANUP_STAGES[2];
    assert stage in event.completed;
  }

  predicate IsCompleted(db: Db, e: Id) {
    e in db.events && db.events[e].status == Completed
  }

  lemma SavesKeepCompleted(db: Db, w: Id, tenant: Id, stage: Stage, e: Id)
    requires IsCompleted(db, e)
    ensures IsCompleted(After(db, RecordStage(db, w, tenant, stage)), e)
    ensures IsCompleted(After(db, FinalizeDeletion(db, w, tenant)), e)
    ensures IsCompleted(After(db, MarkStarted(db, w, tenant)), e)
  {
  }

  lemma OtherStepsKeepCompleted(s: State, step: Step, e: Id)
    requires IsCompleted(s.db, e) && !step.Fail?
    ensures IsCompleted(Next(s, step).db, e)
  {
    match step
    case Register(_, _, _, _, _) => RegistryStepsAge(s, step);
    case Activate(_, _, _) => RegistryStepsAge(s, step);
    case RemoveDocument(_) => RegistryStepsAge(s, step);
    case RemoveKnowledgeBase(_) => RegistryStepsAge(s, step);
    case Acquire(w) =>
      if WorkerAt(s, w).Checked? {
        SavesKeepCompleted(s.db, WorkerAt(s, w).eventId, WorkerAt(s, w).tenant, Vectors, e);
      }
    case Save(w, _) =>
      if WorkerAt(s, w).Working? {
        var worker := WorkerAt(s, w);
        SavesKeepCompleted(s.db, worker.eventId, worker.tenant, CLEANUP_STAGES[if worker.next < 4 then worker.next else 0], e);
      }
    case _ =>
  }

  /** COMPLETED is left by exactly one kind of step: the committed failure report of a worker
      that holds the event with an exception in hand. */
  lemma CompletedIsLeftOnlyByALateFailure(s: State, step: Step, e: Id)
    requires CleanupInvariant(s) && IsCompleted(s.db, e)
    ensures !IsCompleted(Next(s, step).db, e)
       <==> step.Fail? && step.ok && Holds(s, step.worker, e) && WorkerAt(s, step.worker).phase == Failing
  {
    if !step.Fail? {
      OtherStepsKeepCompleted(s, step, e);
    } else if WorkerAt(s, step.worker).Working? {
      assert WorkerOk(s, WorkerAt(s, step.worker));
    }
  }

  lemma CompletedSurvives(s: State, step: Step, e: Id)
    requires CoupledInvariant(s) && IsCompleted(s.db, e)
    ensures IsCompleted(Next(s, step).db, e)
  {
    CompletedIsLeftOnlyByALateFailure(s, step, e);
    assert PairOk(s.db, s.db.events[e]);
    if step.Fail? && step.worker in s.workers {
      assert FailsEarly(s.db, s.workers[step.worker]);
    }
  }

  lemma NextKeepsCompleted(s: State, steps: seq<Step>, j: nat, e: Id)
    requires Initial(s) && FinalAuditsSucceed(s, steps) && j < |steps| && IsCompleted(At(s, steps, j).db, e)
    ensures IsCompleted(At(s, steps, j + 1).db, e)
  {
    RunsKeepCoupling(s, steps, j);
    OneMore(s, steps, j);
    CompletedSurvives(At(s, steps, j), steps[j], e);
  }

  lemma {:induction false} CompletedIsTerminal(s: State, steps: seq<Step>, i: nat, j: nat, e: Id)
    requires Initial(s) && FinalAuditsSucceed(s, steps) && i <= j <= |steps|
    requires IsCompleted(At(s, steps, i).db, e)
    ensures IsCompleted(At(s, steps, j).db, e)
    decreases j
  {
    if i < j {
      CompletedIsTerminal(s, steps, i, j - 1, e);
      NextKeepsCompleted(s, steps, j - 1, e);
    }
  }
}
