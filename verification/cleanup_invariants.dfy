/** Safety of document cleanup over every run of the protocol. */
module CleanupInvariants {
  import opened Transactions
  import opened Protocol

  ghost predicate IsStagePrefix(stages: seq<Stage>) {
    |stages| <= 4 && stages == CLEANUP_STAGES[..|stages|]
  }

  ghost predicate EventOk(db: Db, e: Event) {
    && DocumentVisible(db, e.document, e.tenant)
    && db.documents[e.document].lifecycle != Active
    && IsStagePrefix(e.completed)
    && (e.status == Completed ==> |e.completed| == 4)
    && (e.status in {Pending, Retrying} ==> e.attempts < e.maxAttempts)
    && (e.status == DeadLetter ==> e.attempts >= e.maxAttempts)
    && e.maxAttempts >= 1
  }

  ghost predicate EventsOk(db: Db) {
    forall e | e in db.events :: EventOk(db, db.events[e])
  }

  ghost predicate OneEventPerDocument(db: Db) {
    forall e, f | e in db.events && f in db.events && db.events[e].document == db.events[f].document :: e == f
  }

  function Max(a: nat, b: nat): nat {
    if a >= b then a else b
  }

  /** How far the recorded stages have got when a worker stands at a given point. */
  ghost predicate ProgressOk(completed: seq<Stage>, worker: Worker)
    requires worker.Working?
  {
    var n, k := worker.next, |worker.snapshot|;
    && n <= 4
    && IsStagePrefix(worker.snapshot)
    && match worker.phase
       case Loading => n == 0 && |completed| == k
       case AtStage => |completed| == Max(n, k)
       case HandlerDone => k <= n < 3 && |completed| == n
       case Recorded => k <= n < 4 && |completed| == n + 1
       case Failing => k <= n < 4 && (|completed| == n || |completed| == n + 1)
  }

  ghost predicate WorkerOk(s: State, worker: Worker) {
    worker.Working? ==>
      && EventVisible(s.db, worker.eventId, worker.tenant)
      && s.db.events[worker.eventId].status in {Processing, Completed}
      && ProgressOk(s.db.events[worker.eventId].completed, worker)
      && (worker.phase == HandlerDone ==> (worker.eventId, CLEANUP_STAGES[worker.next]) in s.succeeded)
  }

  ghost predicate WorkersOk(s: State) {
    forall w | w in s.workers :: WorkerOk(s, s.workers[w])
  }

  predicate Holds(s: State, w: Id, eventId: Id) {
    WorkerAt(s, w).Working? && WorkerAt(s, w).eventId == eventId
  }

  /** At most one worker is between acquiring and releasing an event. */
  ghost predicate Exclusive(s: State) {
    forall v, w, e :: Holds(s, v, e) && Holds(s, w, e) ==> v == w
  }

  /** Every recorded external stage has had a successful handler call, made for an existing event. */
  ghost predicate Earned(s: State) {
    && (forall p | p in s.succeeded :: p.0 in s.db.events)
    && (forall e | e in s.db.events :: forall stage | stage in s.db.events[e].completed ::
          stage != SqlMetadata ==> (e, stage) in s.succeeded)
  }

  ghost predicate CleanupInvariant(s: State) {
    && s.settings.maxRetries >= 1
    && EventsOk(s.db) && OneEventPerDocument(s.db)
    && WorkersOk(s) && Exclusive(s) && Earned(s)
  }

  // --------------------------------------------------------- preservation

  lemma PrefixGrows(stages: seq<Stage>, stage: Stage)
    requires IsStagePrefix(stages) && |stages| < 4 && stage == CLEANUP_STAGES[|stages|]
    ensures AppendStage(stages, stage) == CLEANUP_STAGES[..|stages| + 1]
  {
  }

  /** A stage belongs to a prefix of the order exactly when its position is below the length. */
  lemma PrefixMembers(stages: seq<Stage>, k: nat)
    requires IsStagePrefix(stages) && k < 4
    ensures CLEANUP_STAGES[k] in stages <==> k < |stages|
  {
    if k < |stages| {
      assert stages[k] == CLEANUP_STAGES[k];
    }
  }

  ghost predicate Free(s: State, eventId: Id) {
    forall w :: !Holds(s, w, eventId)
  }

  /** One event row is rewritten; documents may change but never become Active again. */
  ghost predicate RowStep(db: Db, db': Db, eventId: Id) {
    && eventId in db.events
    && db'.events.Keys == db.events.Keys
    && (forall e | e in db.events && e != eventId :: db'.events[e] == db.events[e])
    && db'.events[eventId].document == db.events[eventId].document
    && db'.events[eventId].tenant == db.events[eventId].tenant
    && DocumentsAge(db, db')
  }

  ghost predicate DocumentsAge(db: Db, db': Db) {
    forall d | d in db.documents ::
      && d in db'.documents
      && db'.documents[d].tenant == db.documents[d].tenant
      && (db'.documents[d].lifecycle == Active ==> db.documents[d].lifecycle == Active)
  }

  /** A worker that stops working, or never was, leaves the rest as it was. */
  lemma DropKeeps(s: State, w: Id, worker: Worker)
    requires CleanupInvariant(s) && !worker.Working?
    ensures CleanupInvariant(Put(s, w, worker))
    ensures WorkerAt(s, w).Working? ==> Free(Put(s, w, worker), WorkerAt(s, w).eventId)
  {
    var s' := Put(s, w, worker);
    assert forall v, e :: Holds(s', v, e) ==> v != w && Holds(s, v, e);
    if WorkerAt(s, w).Working? {
      assert Holds(s, w, WorkerAt(s, w).eventId);
    }
  }

  lemma TakeKeeps(s: State, w: Id, worker: Worker)
    requires CleanupInvariant(s) && WorkerAt(s, w).Idle?
    requires worker.Working? && WorkerOk(s, worker) && Free(s, worker.eventId)
    ensures CleanupInvariant(Put(s, w, worker))
  {
    var s' := Put(s, w, worker);
    assert forall v, e :: Holds(s', v, e) && v != w ==> Holds(s, v, e);
  }

  lemma PutTwice(s: State, db': Db, w: Id, first: Worker, second: Worker)
    ensures Put(s.(db := db'), w, second) == Put(Put(s, w, first).(db := db'), w, second)
  {
  }

  lemma RowStepKeepsEvents(db: Db, db': Db, eventId: Id)
    requires EventsOk(db) && OneEventPerDocument(db)
    requires RowStep(db, db', eventId) && EventOk(db', db'.events[eventId])
    ensures EventsOk(db') && OneEventPerDocument(db')
  {
    assert forall e :: e in db'.events <==> e in db.events.Keys;
  }

  lemma RowStepKeeps(s: State, db': Db, eventId: Id)
    requires CleanupInvariant(s) && Free(s, eventId)
    requires RowStep(s.db, db', eventId) && EventOk(db', db'.events[eventId])
    requires forall stage | stage in db'.events[eventId].completed :: stage != SqlMetadata ==> (eventId, stage) in s.succeeded
    ensures CleanupInvariant(s.(db := db')) && Free(s.(db := db'), eventId)
  {
    var s' := s.(db := db');
    RowStepKeepsEvents(s.db, db', eventId);
    assert forall e :: e in db'.events <==> e in s.db.events.Keys;
    forall w | w in s'.workers
      ensures WorkerOk(s', s'.workers[w])
    {
      assert WorkerOk(s, s.workers[w]);
      assert !Holds(s, w, eventId);
    }
    assert forall v, e :: Holds(s', v, e) ==> Holds(s, v, e);
  }

  /** A worker changes place while keeping its event, whose row it may rewrite. */
  lemma MoveKeeps(s: State, db': Db, w: Id, worker: Worker)
    requires CleanupInvariant(s) && WorkerAt(s, w).Working?
    requires RowStep(s.db, db', WorkerAt(s, w).eventId)
    requires EventOk(db', db'.events[WorkerAt(s, w).eventId])
    requires forall stage | stage in db'.events[WorkerAt(s, w).eventId].completed ::
               stage != SqlMetadata ==> (WorkerAt(s, w).eventId, stage) in s.succeeded
    requires worker.Working? ==> worker.eventId == WorkerAt(s, w).eventId
    requires worker.Working? || worker.Idle?
    requires WorkerOk(s.(db := db'), worker)
    ensures CleanupInvariant(Put(s.(db := db'), w, worker))
  {
    var eventId := WorkerAt(s, w).eventId;
    var dropped := Put(s, w, Idle);
    DropKeeps(s, w, Idle);
    RowStepKeeps(dropped, db', eventId);
    var written := dropped.(db := db');
    if worker.Working? {
      TakeKeeps(written, w, worker);
    }
    PutTwice(s, db', w, Idle, worker);
  }

  // ------------------------------------------------------------- the steps

  lemma RequestedEvents(db: Db, settings: Settings, d: Id, tenant: Id, freshId: Id)
    requires settings.maxRetries >= 1 && EventsOk(db) && OneEventPerDocument(db)
    ensures var db' := After(db, RequestDeletion(db, settings, d, tenant, freshId));
            EventsOk(db') && OneEventPerDocument(db')
  {
    if freshId !in db.events {
      forall e | e in db.events
        ensures EventOk(db, db.events[e])
        ensures IsDeletionEvent(db, d, tenant, e) || db.events[e].document != d || !DocumentVisible(db, d, tenant)
      {
        assert EventOk(db, db.events[e]);
      }
    }
  }

  lemma RequestedAge(db: Db, settings: Settings, d: Id, tenant: Id, freshId: Id)
    ensures var db' := After(db, RequestDeletion(db, settings, d, tenant, freshId));
            && (db' == db || (freshId !in db.events && db'.events == db.events[freshId := NewEvent(settings, d, tenant)]))
  {
  }

  lemma RequestKeeps(s: State, d: Id, tenant: Id, freshId: Id)
    requires CleanupInvariant(s)
    ensures CleanupInvariant(Next(s, Request(d, tenant, freshId)))
  {
    var s' := Next(s, Request(d, tenant, freshId));
    RequestedEvents(s.db, s.settings, d, tenant, freshId);
    RequestedAge(s.db, s.settings, d, tenant, freshId);
    if s' != s {
      forall w | w in s'.workers
        ensures WorkerOk(s', s'.workers[w])
      {
        assert WorkerOk(s, s.workers[w]);
      }
      assert forall v, e :: Holds(s', v, e) ==> Holds(s, v, e);
    }
  }

  lemma RetryKeeps(s: State, e: Id, tenant: Id)
    requires CleanupInvariant(s)
    ensures CleanupInvariant(Next(s, Retry(e, tenant)))
  {
    var s' := Next(s, Retry(e, tenant));
    if s'.db != s.db {
      UnstartedIsFree(s, e);
      RowStepKeeps(s, s'.db, e);
    }
  }

  lemma RegistryStepsAge(s: State, step: Step)
    requires step.Register? || step.Activate? || step.RemoveDocument? || step.RemoveKnowledgeBase?
    ensures Next(s, step) == s.(db := Next(s, step).db)
    ensures Next(s, step).db.events == s.db.events
    ensures DocumentsAge(s.db, Next(s, step).db)
  {
  }

  lemma RegistryStepsKeep(s: State, step: Step)
    requires CleanupInvariant(s)
    requires step.Register? || step.Activate? || step.RemoveDocument? || step.RemoveKnowledgeBase?
    ensures CleanupInvariant(Next(s, step))
  {
    RegistryStepsAge(s, step);
    DocumentsOnlyKeeps(s, Next(s, step).db);
  }

  lemma DocumentsOnlyKeeps(s: State, db': Db)
    requires CleanupInvariant(s) && db'.events == s.db.events && DocumentsAge(s.db, db')
    ensures CleanupInvariant(s.(db := db'))
  {
    var s' := s.(db := db');
    forall w | w in s'.workers
      ensures WorkerOk(s', s'.workers[w])
    {
      assert WorkerOk(s, s.workers[w]);
    }
    assert forall v, e :: Holds(s', v, e) ==> Holds(s, v, e);
  }

  lemma LookKeeps(s: State, w: Id, e: Id, tenant: Id)
    requires CleanupInvariant(s)
    ensures CleanupInvariant(Next(s, Look(w, e, tenant)))
  {
    DropKeeps(s, w, Checked(e, tenant));
  }

  lemma LocalStepsKeep(s: State, step: Step, w: Id)
    requires CleanupInvariant(s)
    requires step in {LoadContext(w, true), LoadContext(w, false), Advance(w), Audit(w, true), Audit(w, false), Crash(w)}
    ensures CleanupInvariant(Next(s, step))
  {
    var s' := Next(s, step);
    DropKeeps(s, w, Idle);
    var worker := WorkerAt(s, w);
    if worker.Working? && s'.workers[w].Working? && s' != s {
      var event := s.db.events[worker.eventId];
      if worker.next < 4 {
        PrefixMembers(worker.snapshot, worker.next);
      }
      MoveKeeps(s, s.db, w, s'.workers[w]);
    }
  }

  lemma StartedRowStep(db: Db, e: Id, tenant: Id)
    requires EventsOk(db)
    requires MarkStarted(db, e, tenant).Commit? && MarkStarted(db, e, tenant).result.1
    ensures RowStep(db, MarkStarted(db, e, tenant).db, e)
  {
    assert EventOk(db, db.events[e]);
  }

  lemma StartedRow(db: Db, e: Id, tenant: Id)
    requires EventsOk(db)
    requires MarkStarted(db, e, tenant).Commit? && MarkStarted(db, e, tenant).result.1
    ensures EventOk(MarkStarted(db, e, tenant).db, MarkStarted(db, e, tenant).db.events[e])
    ensures MarkStarted(db, e, tenant).db.events[e] == MarkStarted(db, e, tenant).result.0
    ensures MarkStarted(db, e, tenant).result.0.completed == db.events[e].completed
  {
    assert EventOk(db, db.events[e]);
  }

  lemma UnstartedIsFree(s: State, e: Id)
    requires WorkersOk(s) && e in s.db.events && s.db.events[e].status !in {Processing, Completed}
    ensures Free(s, e)
  {
    forall w
      ensures !Holds(s, w, e)
    {
      assert w in s.workers ==> WorkerOk(s, s.workers[w]);
    }
  }

  lemma StartKeeps(s: State, w: Id, e: Id, tenant: Id)
    requires CleanupInvariant(s) && WorkerAt(s, w).Idle?
    requires MarkStarted(s.db, e, tenant).Commit? && MarkStarted(s.db, e, tenant).result.1
    ensures var tx := MarkStarted(s.db, e, tenant);
            CleanupInvariant(Put(s.(db := tx.db), w, Working(e, tenant, tx.result.0.completed, 0, Loading)))
  {
    var tx := MarkStarted(s.db, e, tenant);
    UnstartedIsFree(s, e);
    StartedRowStep(s.db, e, tenant);
    StartedRow(s.db, e, tenant);
    assert EventOk(s.db, s.db.events[e]);
    RowStepKeeps(s, tx.db, e);
    var written := s.(db := tx.db);
    TakeKeeps(written, w, Working(e, tenant, tx.result.0.completed, 0, Loading));
  }

  lemma AcquireKeeps(s: State, w: Id)
    requires CleanupInvariant(s)
    ensures CleanupInvariant(Next(s, Acquire(w)))
  {
    match WorkerAt(s, w) {
      case Checked(e, tenant) =>
        DropKeeps(s, w, Idle);
        var tx := MarkStarted(s.db, e, tenant);
        if tx.Commit? && tx.result.1 {
          var dropped := Put(s, w, Idle);
          StartKeeps(dropped, w, e, tenant);
          var worker := Working(e, tenant, tx.result.0.completed, 0, Loading);
          PutTwice(s, tx.db, w, Idle, worker);
        }
      case _ =>
    }
  }

  lemma HandlerKeeps(s: State, w: Id, ok: bool)
    requires CleanupInvariant(s)
    ensures CleanupInvariant(Next(s, RunHandler(w, ok)))
  {
    var worker := WorkerAt(s, w);
    if HandlerPending(worker) {
      PrefixMembers(worker.snapshot, worker.next);
      var s' := Next(s, RunHandler(w, ok));
      var credited := s.(succeeded := s'.succeeded);
      forall v | v in credited.workers
        ensures WorkerOk(credited, credited.workers[v])
      {
        assert WorkerOk(s, s.workers[v]);
      }
      assert forall v, e :: Holds(credited, v, e) ==> Holds(s, v, e);
      MoveKeeps(credited, s.db, w, s'.workers[w]);
      assert s' == Put(credited, w, s'.workers[w]);
    }
  }

  lemma RecordedRow(db: Db, e: Id, tenant: Id, stage: Stage)
    requires EventsOk(db) && EventVisible(db, e, tenant) && IsStagePrefix(AppendStage(db.events[e].completed, stage))
    ensures RowStep(db, RecordStage(db, e, tenant, stage).db, e)
    ensures EventOk(RecordStage(db, e, tenant, stage).db, RecordStage(db, e, tenant, stage).db.events[e])
  {
    assert EventOk(db, db.events[e]);
  }

  lemma FinalizedRow(db: Db, e: Id, tenant: Id)
    requires EventsOk(db) && FinalizeDeletion(db, e, tenant).Commit?
    requires AppendStage(db.events[e].completed, SqlMetadata) == CLEANUP_STAGES
    ensures RowStep(db, FinalizeDeletion(db, e, tenant).db, e)
    ensures EventOk(FinalizeDeletion(db, e, tenant).db, FinalizeDeletion(db, e, tenant).db.events[e])
  {
    assert EventOk(db, db.events[e]);
  }

  lemma SaveKeeps(s: State, w: Id, ok: bool)
    requires CleanupInvariant(s)
    ensures CleanupInvariant(Next(s, Save(w, ok)))
  {
    var worker := WorkerAt(s, w);
    if worker.Working? && (worker.phase == HandlerDone || FinalizePending(worker)) {
      var s' := Next(s, Save(w, ok));
      var e := worker.eventId;
      assert WorkerOk(s, s.workers[w]);
      PrefixMembers(worker.snapshot, worker.next);
      PrefixGrows(s.db.events[e].completed, CLEANUP_STAGES[worker.next]);
      if worker.phase == HandlerDone {
        RecordedRow(s.db, e, worker.tenant, CLEANUP_STAGES[worker.next]);
      } else if FinalizeDeletion(s.db, e, worker.tenant).Commit? {
        FinalizedRow(s.db, e, worker.tenant);
      }
      MoveKeeps(s, s'.db, w, s'.workers[w]);
    }
  }

  lemma FailKeeps(s: State, w: Id, ok: bool, now: int, error: string)
    requires CleanupInvariant(s)
    ensures CleanupInvariant(Next(s, Fail(w, ok, now, error)))
  {
    var worker := WorkerAt(s, w);
    DropKeeps(s, w, Idle);
    if worker.Working? && worker.phase == Failing && ok {
      var s' := Next(s, Fail(w, ok, now, error));
      MoveKeeps(s, s'.db, w, Idle);
    }
  }

  lemma StepKeepsCleanup(s: State, step: Step)
    requires CleanupInvariant(s)
    ensures CleanupInvariant(Next(s, step))
  {
    match step
    case Request(d, t, id) => RequestKeeps(s, d, t, id);
    case Retry(e, t) => RetryKeeps(s, e, t);
    case Register(_, _, _, _, _) => RegistryStepsKeep(s, step);
    case Activate(_, _, _) => RegistryStepsKeep(s, step);
    case RemoveDocument(_) => RegistryStepsKeep(s, step);
    case RemoveKnowledgeBase(_) => RegistryStepsKeep(s, step);
    case Look(w, e, t) => LookKeeps(s, w, e, t);
    case Acquire(w) => AcquireKeeps(s, w);
    case LoadContext(w, _) => LocalStepsKeep(s, step, w);
    case Advance(w) => LocalStepsKeep(s, step, w);
    case RunHandler(w, ok) => HandlerKeeps(s, w, ok);
    case Save(w, ok) => SaveKeeps(s, w, ok);
    case Audit(w, _) => LocalStepsKeep(s, step, w);
    case Fail(w, ok, now, error) => FailKeeps(s, w, ok, now, error);
    case Crash(w) => LocalStepsKeep(s, step, w);
  }
}
