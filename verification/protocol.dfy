/** Workers, manual retries and administrators interleaving over one database.
    A step is one committed or rolled-back transaction, one handler call or one
    local move of one worker; a run is any sequence of steps. */
module Protocol {
  import opened Transactions

  /** Where a worker stands inside the processing of one event: about to load its context,
      at the head of the stage loop, past a successful handler, past a recorded stage,
      or with an exception in hand. */
  datatype Phase = Loading | AtStage | HandlerDone | Recorded | Failing

  /** `snapshot` is the `completed` set the worker read when it acquired the event. */
  datatype Worker =
    | Idle
    | Checked(eventId: Id, tenant: Id)
    | Working(eventId: Id, tenant: Id, snapshot: seq<Stage>, next: nat, phase: Phase)

  /** `succeeded` remembers every (event, stage) whose external handler returned normally. */
  datatype State = State(db: Db, settings: Settings, workers: map<Id, Worker>, succeeded: set<(Id, Stage)>)

  datatype Step =
    | Request(documentId: Id, tenant: Id, freshId: Id)
    | Retry(eventId: Id, tenant: Id)
    | Register(kb: Id, filename: string, hash: string, chosen: Id, freshId: Id)
    | Activate(documentId: Id, version: nat, tenant: Id)
    | RemoveDocument(documentId: Id)
    | RemoveKnowledgeBase(kb: Id)
    | Look(worker: Id, eventId: Id, tenant: Id)
    | Acquire(worker: Id)
    | LoadContext(worker: Id, ok: bool)
    | Advance(worker: Id)
    | RunHandler(worker: Id, ok: bool)
    | Save(worker: Id, ok: bool)
    | Audit(worker: Id, ok: bool)
    | Fail(worker: Id, ok: bool, now: int, error: string)
    | Crash(worker: Id)

  function WorkerAt(s: State, w: Id): Worker {
    if w in s.workers then s.workers[w] else Idle
  }

  function Put(s: State, w: Id, worker: Worker): State {
    s.(workers := s.workers[w := worker])
  }

  predicate HandlerPending(worker: Worker) {
    worker.Working? && worker.phase == AtStage && worker.next < 3
    && CLEANUP_STAGES[worker.next] !in worker.snapshot
  }

  predicate FinalizePending(worker: Worker) {
    worker.Working? && worker.phase == AtStage && worker.next == 3
    && SqlMetadata !in worker.snapshot
  }

  function LookStep(s: State, w: Id, eventId: Id, tenant: Id): State {
    if !WorkerAt(s, w).Idle? || !EventVisible(s.db, eventId, tenant)
       || s.db.events[eventId].status in {Completed, DeadLetter, Processing}
    then s else Put(s, w, Checked(eventId, tenant))
  }

  function AcquireStep(s: State, w: Id): State {
    match WorkerAt(s, w)
    case Checked(eventId, tenant) =>
      var tx := MarkStarted(s.db, eventId, tenant);
      if tx.Commit? && tx.result.1
      then Put(s.(db := tx.db), w, Working(eventId, tenant, tx.result.0.completed, 0, Loading))
      else Put(s, w, Idle)
    case _ => s
  }

  /** Reading the cleanup context is outside the `try`: an error there ends the worker. */
  function LoadStep(s: State, w: Id, ok: bool): State {
    var worker := WorkerAt(s, w);
    if !worker.Working? || worker.phase != Loading then s
    else if ok && EventVisible(s.db, worker.eventId, worker.tenant)
            && DocumentVisible(s.db, s.db.events[worker.eventId].document, worker.tenant)
    then Put(s, w, worker.(phase := AtStage))
    else Put(s, w, Idle)
  }

  /** Skip a stage of the snapshot, or leave the loop after the last stage. */
  function AdvanceStep(s: State, w: Id): State {
    var worker := WorkerAt(s, w);
    if !worker.Working? || worker.phase != AtStage then s
    else if worker.next >= 4 then Put(s, w, Idle)
    else if CLEANUP_STAGES[worker.next] in worker.snapshot then Put(s, w, worker.(next := worker.next + 1))
    else s
  }

  function HandlerStep(s: State, w: Id, ok: bool): State {
    var worker := WorkerAt(s, w);
    if !HandlerPending(worker) then s
    else if ok then
      Put(s, w, worker.(phase := HandlerDone)).(
        succeeded := s.succeeded + {(worker.eventId, CLEANUP_STAGES[worker.next])})
    else Put(s, w, worker.(phase := Failing))
  }

  /** Commit the stage: `record_cleanup_stage`, or `finalize_document_deletion` for the last one. */
  function SaveStep(s: State, w: Id, ok: bool): State {
    var worker := WorkerAt(s, w);
    if worker.Working? && worker.phase == HandlerDone && worker.next < 3 then
      var tx := RecordStage(s.db, worker.eventId, worker.tenant, CLEANUP_STAGES[worker.next]);
      if ok && tx.Commit? then Put(s.(db := tx.db), w, worker.(phase := Recorded))
      else Put(s, w, worker.(phase := Failing))
    else if FinalizePending(worker) then
      var tx := FinalizeDeletion(s.db, worker.eventId, worker.tenant);
      if ok && tx.Commit? then Put(s.(db := tx.db), w, worker.(phase := Recorded))
      else Put(s, w, worker.(phase := Failing))
    else s
  }

  function AuditStep(s: State, w: Id, ok: bool): State {
    var worker := WorkerAt(s, w);
    if !worker.Working? || worker.phase != Recorded then s
    else if ok then Put(s, w, worker.(phase := AtStage, next := worker.next + 1))
    else Put(s, w, worker.(phase := Failing))
  }

  function FailStep(s: State, w: Id, ok: bool, now: int, error: string): State {
    var worker := WorkerAt(s, w);
    if !worker.Working? || worker.phase != Failing then s
    else if ok
    then Put(s.(db := After(s.db, MarkFailure(s.db, s.settings, worker.eventId, worker.tenant, now, error))), w, Idle)
    else Put(s, w, Idle)
  }

  function Next(s: State, step: Step): State {
    match step
    case Request(d, t, id) => s.(db := After(s.db, RequestDeletion(s.db, s.settings, d, t, id)))
    case Retry(e, t) => s.(db := After(s.db, RetryEvent(s.db, e, t)))
    case Register(kb, f, h, chosen, id) => s.(db := After(s.db, RegisterDocument(s.db, kb, f, h, chosen, id)))
    case Activate(d, v, t) => s.(db := After(s.db, ActivateVersion(s.db, d, v, t)))
    case RemoveDocument(d) => s.(db := After(s.db, SoftDeleteDocument(s.db, d)))
    case RemoveKnowledgeBase(kb) => s.(db := After(s.db, SoftDeleteKnowledgeBase(s.db, kb)))
    case Look(w, e, t) => LookStep(s, w, e, t)
    case Acquire(w) => AcquireStep(s, w)
    case LoadContext(w, ok) => LoadStep(s, w, ok)
    case Advance(w) => AdvanceStep(s, w)
    case RunHandler(w, ok) => HandlerStep(s, w, ok)
    case Save(w, ok) => SaveStep(s, w, ok)
    case Audit(w, ok) => AuditStep(s, w, ok)
    case Fail(w, ok, now, error) => FailStep(s, w, ok, now, error)
    case Crash(w) => Put(s, w, Idle)
  }

  /** The state after a whole run. */
  function Execute(s: State, steps: seq<Step>): State {
    if steps == [] then s else Next(Execute(s, steps[..|steps| - 1]), steps[|steps| - 1])
  }

  /** A database with no documents yet and no worker at work. */
  predicate Initial(s: State) {
    && s.db.documents == map[] && s.db.versions == map[] && s.db.hashes == map[] && s.db.events == map[]
    && s.workers == map[] && s.succeeded == {} && s.settings.maxRetries >= 1
  }
}
